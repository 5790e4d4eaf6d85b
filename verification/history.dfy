/** The history document the report converter writes: a JSON object from
    version number (as text) to the record of that version. The replay loop
    turns its keys into integers, sorts them, and looks each record up again
    by `str` of the number. */
module History {
  import opened Wrappers
  import opened Decimal
  import opened Sequences

  /** One stored version: `Author`, `Version` (its label), `CommitMessage`,
      `CommitDate`, `CommitTime`, `AddedObjects` and `ChangedObjects`. */
  datatype VersionRecord = VersionRecord(
    author: string,
    versionLabel: string,
    comment: string,
    commitDate: string,
    commitTime: string,
    addedObjects: seq<string>,
    changedObjects: seq<string>)

  /** One key/value pair of the document; a document is its pairs in the
      order the JSON object lists them. */
  datatype Entry = Entry(key: string, record: VersionRecord)

  function Keys(doc: seq<Entry>): seq<string> {
    MapSeq((e: Entry) => e.key, doc)
  }

  /** A parsed JSON object never repeats a key. */
  predicate IsDict(doc: seq<Entry>) {
    Distinct(Keys(doc))
  }

  predicate AllKeysCanonical(doc: seq<Entry>) {
    forall i :: 0 <= i < |doc| ==> IsCanonical(doc[i].key)
  }

  /** `history_data[key]`: the record stored under `key`, or `None` for the
      `KeyError` case. */
  function Lookup(doc: seq<Entry>, key: string): (r: Option<VersionRecord>)
    ensures r.None? <==> forall i :: 0 <= i < |doc| ==> doc[i].key != key
    ensures r.Some? ==> Entry(key, r.value) in doc
  {
    if |doc| == 0 then None
    else if doc[0].key == key then Some(doc[0].record)
    else
      var r := Lookup(doc[1..], key);
      assert forall i :: 1 <= i < |doc| ==> doc[i] == doc[1..][i - 1];
      r
  }

  /** `history_data[str(v)]` as a function of the version number `v`. */
  function RecordsOf(doc: seq<Entry>): int -> Option<VersionRecord> {
    v => Lookup(doc, ShowInt(v))
  }

  /** In a document without repeated keys, a lookup finds exactly the record
      paired with the key. */
  lemma LookupFindsEntry(doc: seq<Entry>, key: string, rec: VersionRecord)
    requires IsDict(doc)
    ensures Lookup(doc, key) == Some(rec) <==> Entry(key, rec) in doc
  {
    if Entry(key, rec) in doc {
      var i :| 0 <= i < |doc| && doc[i] == Entry(key, rec);
      var found := Lookup(doc, key);
      var j :| 0 <= j < |doc| && doc[j] == Entry(key, found.value);
      assert Keys(doc)[i] == Keys(doc)[j];
      assert i == j;
      assert found.value == rec;
    }
  }

  /** The outcome of turning every key into an integer, in key order: the
      numbers, or the first key `int` rejects (the `ValueError` case). */
  datatype Versions = Parsed(versions: seq<int>) | BadKey(key: string)

  function ParseKeys(keys: seq<string>): (r: Versions)
    ensures r.Parsed? <==> forall i :: 0 <= i < |keys| ==> ParseInt(keys[i]).Some?
    ensures r.Parsed? ==> |r.versions| == |keys|
                          && forall i :: 0 <= i < |keys| ==> ParseInt(keys[i]) == Some(r.versions[i])
    ensures r.BadKey? ==> exists i :: 0 <= i < |keys| && keys[i] == r.key && ParseInt(keys[i]).None?
                                      && forall j :: 0 <= j < i ==> ParseInt(keys[j]).Some?
  {
    if |keys| == 0 then Parsed([])
    else
      match ParseInt(keys[0])
      case None => BadKey(keys[0])
      case Some(v) =>
        var rest := ParseKeys(keys[1..]);
        assert forall i :: 1 <= i < |keys| ==> keys[i] == keys[1..][i - 1];
        match rest
        case BadKey(k) =>
          var i :| 0 <= i < |keys[1..]| && keys[1..][i] == k && ParseInt(keys[1..][i]).None?
                   && forall j :: 0 <= j < i ==> ParseInt(keys[1..][j]).Some?;
          assert keys[i + 1] == k;
          BadKey(k)
        case Parsed(vs) => Parsed([v] + vs)
  }

  /** The version numbers in the order the replay visits them: the parsed
      keys, sorted ascending. */
  function VersionOrder(doc: seq<Entry>): (r: Versions)
    ensures r.BadKey? <==> ParseKeys(Keys(doc)).BadKey?
    ensures r.BadKey? ==> r == ParseKeys(Keys(doc))
    ensures r.Parsed? ==> Sorted(r.versions)
                          && multiset(r.versions) == multiset(ParseKeys(Keys(doc)).versions)
  {
    match ParseKeys(Keys(doc))
    case BadKey(k) => BadKey(k)
    case Parsed(vs) => Parsed(Sort(vs))
  }

  /** The number a key stands for (0 when it is not a number). */
  function KeyVersion(e: Entry): int {
    ParseInt(e.key).GetOr(0)
  }

  lemma ParsedAreKeyVersions(doc: seq<Entry>)
    requires ParseKeys(Keys(doc)).Parsed?
    ensures ParseKeys(Keys(doc)).versions == MapSeq(KeyVersion, doc)
  {
  }

  /** For a document of canonical keys, the visiting order holds every key's
      number once, strictly ascending, and each number finds its record again. */
  lemma CanonicalOrder(doc: seq<Entry>)
    requires IsDict(doc) && AllKeysCanonical(doc)
    ensures VersionOrder(doc).Parsed?
    ensures StrictlyIncreasing(VersionOrder(doc).versions)
    ensures |VersionOrder(doc).versions| == |doc|
    ensures forall i :: 0 <= i < |doc| ==> KeyVersion(doc[i]) in VersionOrder(doc).versions
    ensures forall v :: v in VersionOrder(doc).versions ==> Lookup(doc, ShowInt(v)).Some?
  {
    var keys := Keys(doc);
    var vs := ParseKeys(keys).versions;
    var order := VersionOrder(doc).versions;
    forall i, j | 0 <= i < j < |vs|
      ensures vs[i] != vs[j]
    {
      assert keys[i] != keys[j];
      CanonicalKeysDistinct(keys[i], keys[j]);
    }
    DistinctPermutation(vs, order);
    SortedDistinctIsStrict(order);
    assert |order| == |multiset(order)| == |multiset(vs)| == |vs|;
    forall i | 0 <= i < |doc|
      ensures KeyVersion(doc[i]) in order
    {
      assert vs[i] in multiset(vs);
    }
    forall v | v in order
      ensures Lookup(doc, ShowInt(v)).Some?
    {
      assert v in multiset(vs);
      var i :| 0 <= i < |vs| && vs[i] == v;
      assert ShowInt(v) == doc[i].key;
    }
  }

  /** The order of the pairs in the document does not matter: as long as
      every key is a number, any rearrangement yields the same visiting
      order and the same lookups. */
  lemma KeyOrderIrrelevant(d1: seq<Entry>, d2: seq<Entry>)
    requires IsDict(d1) && multiset(d1) == multiset(d2)
    requires ParseKeys(Keys(d1)).Parsed?
    ensures IsDict(d2)
    ensures VersionOrder(d1) == VersionOrder(d2)
    ensures forall key :: Lookup(d1, key) == Lookup(d2, key)
  {
    MapPermutation((e: Entry) => e.key, d1, d2);
    DistinctPermutation(Keys(d1), Keys(d2));
    forall i | 0 <= i < |d2|
      ensures ParseInt(Keys(d2)[i]).Some?
    {
      assert d2[i] in multiset(d1);
      var j :| 0 <= j < |d1| && d1[j] == d2[i];
      assert Keys(d1)[j] == Keys(d2)[i];
    }
    ParsedAreKeyVersions(d1);
    ParsedAreKeyVersions(d2);
    MapPermutation(KeyVersion, d1, d2);
    SortedPermutationUnique(VersionOrder(d1).versions, VersionOrder(d2).versions);
    forall key
      ensures Lookup(d1, key) == Lookup(d2, key)
    {
      if Lookup(d1, key).Some? {
        LookupFindsEntry(d2, key, Lookup(d1, key).value);
        assert Entry(key, Lookup(d1, key).value) in multiset(d2);
      } else if Lookup(d2, key).Some? {
        LookupFindsEntry(d1, key, Lookup(d2, key).value);
        assert Entry(key, Lookup(d2, key).value) in multiset(d1);
      }
    }
  }
}
