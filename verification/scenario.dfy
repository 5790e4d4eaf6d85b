/** A worked run: a history document that lists versions 5, 3 and 4, in that
    order, replayed from an empty checkpoint while the commit of version 5
    raises. */
module Scenario {
  import opened Wrappers
  import opened Decimal
  import opened Sequences
  import opened Checkpoint
  import opened History
  import opened Replay

  /** The three keys parse to 5, 3 and 4 and are visited as 3, 4, 5. */
  lemma ThreeKeysOrder(r3: VersionRecord, r4: VersionRecord, r5: VersionRecord)
    ensures VersionOrder([Entry("5", r5), Entry("3", r3), Entry("4", r4)]) == Parsed([3, 4, 5])
  {
    var doc := [Entry("5", r5), Entry("3", r3), Entry("4", r4)];
    assert ShowInt(3) == "3" && ShowInt(4) == "4" && ShowInt(5) == "5";
    ParseShowInt(3);
    ParseShowInt(4);
    ParseShowInt(5);
    assert Keys(doc) == ["5", "3", "4"];
    assert ["5", "3", "4"][1..] == ["3", "4"] && ["3", "4"][1..] == ["4"];
    assert ParseKeys(["4"]) == Parsed([4]);
    assert ParseKeys(["3", "4"]) == Parsed([3, 4]);
    assert ParseKeys(Keys(doc)) == Parsed([5, 3, 4]);
    RotatedThree(3, 4, 5);
    SortUnique([5, 3, 4], [3, 4, 5]);
  }

  /** Each of the three numbers finds its record again through `str`. */
  lemma ThreeKeysLookups(r3: VersionRecord, r4: VersionRecord, r5: VersionRecord)
    ensures var records := RecordsOf([Entry("5", r5), Entry("3", r3), Entry("4", r4)]);
            records(3) == Some(r3) && records(4) == Some(r4) && records(5) == Some(r5)
  {
    var doc := [Entry("5", r5), Entry("3", r3), Entry("4", r4)];
    assert ShowInt(3) == "3" && ShowInt(4) == "4" && ShowInt(5) == "5";
    assert "5" != "3" && "5" != "4" && "3" != "4" by {
      assert "5"[0] != "3"[0] && "5"[0] != "4"[0] && "3"[0] != "4"[0];
    }
    assert doc[1..] == [Entry("3", r3), Entry("4", r4)];
    assert doc[1..][1..] == [Entry("4", r4)];
    assert Lookup(doc[1..], "3") == Some(r3);
    assert Lookup(doc[1..][1..], "4") == Some(r4);
    assert Lookup(doc[1..], "4") == Some(r4);
  }

  /** Three ascending numbers, and the same numbers with the last moved to the front. */
  lemma RotatedThree(a: int, b: int, c: int)
    requires a <= b <= c
    ensures Sorted([a, b, c])
    ensures multiset([a, b, c]) == multiset([c, a, b])
  {
    assert [c, a, b] == [c] + [a, b] && [a, b, c] == [a, b] + [c];
  }

  /** Versions 3 and 4 are replayed in full; version 5 is updated and dumped,
      its commit raises, and the checkpoint stays at 4. */
  lemma CommitOfLastVersionRaises(r3: VersionRecord, r4: VersionRecord, r5: VersionRecord)
    ensures var doc := [Entry("5", r5), Entry("3", r3), Entry("4", r4)];
            var r := ScanHistory(doc, {CommitAt(5)}, Empty);
            && r.trace == Block(3, r3) + Block(4, r4) + Block(5, r5)[..3]
            && r.status == Aborted(Raised(CommitAt(5)))
            && Load(r.checkpoint) == 4
  {
    var doc := [Entry("5", r5), Entry("3", r3), Entry("4", r4)];
    ThreeKeysOrder(r3, r4, r5);
    ThreeKeysLookups(r3, r4, r5);
    ReplayThree(RecordsOf(doc), r3, r4, r5);
  }

  /** The replay of 3, 4, 5 when only the commit of 5 raises. */
  lemma ReplayThree(records: int -> Option<VersionRecord>, r3: VersionRecord, r4: VersionRecord, r5: VersionRecord)
    requires records(3) == Some(r3) && records(4) == Some(r4) && records(5) == Some(r5)
    ensures var r := Replay.Replay(records, {CommitAt(5)}, [3, 4, 5], Empty);
            && r.trace == Block(3, r3) + Block(4, r4) + Block(5, r5)[..3]
            && r.status == Aborted(Raised(CommitAt(5)))
            && Load(r.checkpoint) == 4
  {
    var faults := {CommitAt(5)};
    var s3 := Save(Empty, 3);
    var s4 := Save(s3, 4);
    var b3 := ReplayVersion(records, faults, 3, Empty);
    var b4 := ReplayVersion(records, faults, 4, s3);
    var b5 := ReplayVersion(records, faults, 5, s4);
    assert b3 == Run(Block(3, r3), s3, Completed);
    assert b4 == Run(Block(4, r4), s4, Completed);
    assert b5 == Run(Block(5, r5)[..3], s4, Aborted(Raised(CommitAt(5))));
    assert [3, 4, 5][1..] == [4, 5] && [4, 5][1..] == [5];
    assert Replay.Replay(records, faults, [5], s4) == b5;
    var mid := Replay.Replay(records, faults, [4, 5], s3);
    assert mid == Run(b4.trace + b5.trace, s4, b5.status);
  }
}
