/** The replay run: the program reads the checkpoint, asks the store for its
    report and history from the next version on, then visits every version
    of the history document in ascending order, updating the base to it,
    dumping it into the git work tree, committing it and saving it as the
    new checkpoint. External programs are not run here: each appears as an
    action in the run's trace, and the set `faults` says which of them raise. */
module Replay {
  import opened Wrappers
  import opened Text
  import opened Decimal
  import opened Sequences
  import opened Settings
  import opened Checkpoint
  import opened History
  import opened Commands
  import opened Composer

  /** An external step that may raise (a time-out, a missing executable, a
      git error, a commit date `strptime` rejects). */
  datatype Step = CreateReport | CreateHistory | UpdateTo(version: int) | DumpAt(version: int) | CommitAt(version: int)

  /** The steps the replay of version `v` starts. */
  predicate StepOf(step: Step, v: int) {
    step == UpdateTo(v) || step == DumpAt(v) || step == CommitAt(v)
  }

  /** An action the run starts. The command line of an external program is
      given by `CommandOf`, the commit by `PlanOf`. */
  datatype Action =
    | RunReport(lastVersion: int)
    | RunHistory
    | RunUpdate(version: int)
    | RunDump(version: int)
    | GitCommit(version: int, record: VersionRecord)
    | SaveCheckpoint(version: int)

  /** The command line an action hands to the 1C executable: every action but
      a commit or a save runs one (see `ReportActionStart` and
      `UpdateActionVersion` for the versions they name). */
  function CommandOf(conf: Config, a: Action): (r: Option<string>)
    ensures r.Some? <==> !a.GitCommit? && !a.SaveCheckpoint?
  {
    match a
    case RunReport(last) => Some(ReportCommand(conf, last))
    case RunHistory => Some(HistoryCommand(conf))
    case RunUpdate(v) => Some(UpdateCommand(conf, v))
    case RunDump(_) => Some(DumpCommand(conf))
    case _ => None
  }

  /** The author, message and time stamp of a commit action: only a commit
      has one, authored after its record and headed by its version. */
  function PlanOf(conf: Config, a: Action): (r: Option<CommitPlan>)
    ensures r.Some? <==> a.GitCommit?
    ensures a.GitCommit? ==>
              && r.value.author == GitAuthor(conf, a.record.author)
              && StartsWith(r.value.message, "storage ver:" + ShowInt(a.version))
              && r.value.stamp == a.record.commitDate + " " + a.record.commitTime
  {
    match a
    case GitCommit(v, rec) => Some(PlanFor(conf, v, rec))
    case _ => None
  }

  datatype Failure =
    | UnreadableHistory          // the history file is missing or not JSON
    | MalformedKey(key: string)  // `int(key)` raises
    | MissingVersion(version: int)  // `history_data[str(version)]` raises
    | Raised(step: Step)

  datatype Status = Completed | Aborted(failure: Failure)

  /** What a run leaves behind: the actions it started, in order, the
      checkpoint store, and how it ended. */
  datatype Run = Run(trace: seq<Action>, checkpoint: Store, status: Status)

  // ---------------------------------------------------------------------------
  // Views of a trace.

  datatype Kind = Updated | Dumped | Committed | Saved

  predicate IsKind(a: Action, k: Kind) {
    match k
    case Updated => a.RunUpdate?
    case Dumped => a.RunDump?
    case Committed => a.GitCommit?
    case Saved => a.SaveCheckpoint?
  }

  /** The versions of the actions of kind `k`, in trace order. */
  function VersionsOf(trace: seq<Action>, k: Kind): seq<int> {
    if |trace| == 0 then []
    else (if IsKind(trace[0], k) then [trace[0].version] else []) + VersionsOf(trace[1..], k)
  }

  lemma {:induction false} VersionsOfConcat(a: seq<Action>, b: seq<Action>, k: Kind)
    ensures VersionsOf(a + b, k) == VersionsOf(a, k) + VersionsOf(b, k)
  {
    if |a| > 0 {
      assert (a + b)[1..] == a[1..] + b;
      VersionsOfConcat(a[1..], b, k);
    } else {
      assert a + b == b;
    }
  }

  /** The save at `i`, if it is one, comes right after the update, the dump
      and the commit of the same version. */
  predicate SaveFollowsCommit(trace: seq<Action>, i: int)
    requires 0 <= i < |trace|
  {
    trace[i].SaveCheckpoint? ==>
      3 <= i
      && trace[i - 3].RunUpdate? && trace[i - 3].version == trace[i].version
      && trace[i - 2].RunDump? && trace[i - 2].version == trace[i].version
      && trace[i - 1].GitCommit? && trace[i - 1].version == trace[i].version
  }

  /** The commit at `i`, if it is one and not the last action, is followed by
      the save of its version. */
  predicate CommitFollowedBySave(trace: seq<Action>, i: int)
    requires 0 <= i < |trace|
  {
    trace[i].GitCommit? && i + 1 < |trace| ==> trace[i + 1] == SaveCheckpoint(trace[i].version)
  }

  /** The dump at `i`, if it is one, comes right after the update of its
      version, and the commit at `i`, if it is one, right after the dump. */
  predicate StepFollowsPrevious(trace: seq<Action>, i: int)
    requires 0 <= i < |trace|
  {
    && (trace[i].RunDump? ==> 1 <= i && trace[i - 1] == RunUpdate(trace[i].version))
    && (trace[i].GitCommit? ==> 1 <= i && trace[i - 1] == RunDump(trace[i].version))
  }

  /** The action at `i` stands where the loop body puts it. */
  predicate InPlace(trace: seq<Action>, i: int)
    requires 0 <= i < |trace|
  {
    SaveFollowsCommit(trace, i) && CommitFollowedBySave(trace, i) && StepFollowsPrevious(trace, i)
  }

  /** Every dump follows its update, every commit its dump, every save its
      commit, and a commit not at the end is followed by its save. */
  predicate Ordered(trace: seq<Action>) {
    forall i :: 0 <= i < |trace| ==> InPlace(trace, i)
  }

  /** A commit commits the record found for its version. */
  predicate ActionFits(records: int -> Option<VersionRecord>, a: Action) {
    a.GitCommit? ==> records(a.version) == Some(a.record)
  }

  predicate Fits(records: int -> Option<VersionRecord>, trace: seq<Action>) {
    forall i :: 0 <= i < |trace| ==> ActionFits(records, trace[i])
  }

  lemma OrderedConcat(a: seq<Action>, b: seq<Action>)
    requires Ordered(a) && Ordered(b)
    requires |a| > 0 ==> !Last(a).GitCommit?
    ensures Ordered(a + b)
  {
    var t := a + b;
    forall i | 0 <= i < |t|
      ensures InPlace(t, i)
    {
      if i < |a| {
        assert InPlace(a, i);
        if i + 1 == |a| {
          assert t[i] == Last(a);
        }
      } else {
        assert InPlace(b, i - |a|);
      }
    }
  }

  lemma FitsConcat(records: int -> Option<VersionRecord>, a: seq<Action>, b: seq<Action>)
    requires Fits(records, a) && Fits(records, b)
    ensures Fits(records, a + b)
  {
    forall i | 0 <= i < |a + b|
      ensures ActionFits(records, (a + b)[i])
    {
      if i >= |a| {
        assert (a + b)[i] == b[i - |a|];
      }
    }
  }

  // ---------------------------------------------------------------------------
  // One version.

  /** Why the replay of version `v` can stop: no record is found for it, or
      one of its own steps raised. */
  predicate StopsAt(records: int -> Option<VersionRecord>, faults: set<Step>, f: Failure, v: int) {
    (f == MissingVersion(v) && records(v).None?)
    || (f.Raised? && StepOf(f.step, v) && f.step in faults)
  }

  /** The version an action contributes to the view of kind `k`. */
  function Own(a: Action, k: Kind): seq<int> {
    if IsKind(a, k) then [a.version] else []
  }

  lemma VersionsOfCons(a: Action, rest: seq<Action>, k: Kind)
    ensures VersionsOf([a] + rest, k) == Own(a, k) + VersionsOf(rest, k)
  {
    assert ([a] + rest)[1..] == rest;
  }

  lemma FullBlockVersions(v: int, rec: VersionRecord, k: Kind)
    ensures VersionsOf(Block(v, rec), k) == [v]
  {
    VersionsOfCons(SaveCheckpoint(v), [], k);
    VersionsOfCons(GitCommit(v, rec), [SaveCheckpoint(v)], k);
    VersionsOfCons(RunDump(v), [GitCommit(v, rec), SaveCheckpoint(v)], k);
    VersionsOfCons(RunUpdate(v), [RunDump(v), GitCommit(v, rec), SaveCheckpoint(v)], k);
  }

  /** A stopped block holds no save and at most one version of each kind. */
  lemma PartialBlockVersions(t: seq<Action>, v: int, k: Kind)
    requires |t| <= 3 && forall i :: 0 <= i < |t| ==> t[i].RunUpdate? || t[i].RunDump? || t[i].GitCommit?
    requires forall i :: 0 <= i < |t| ==> t[i].version == v
    requires forall i, j :: 0 <= i < j < |t| ==> !IsKind(t[i], k) || !IsKind(t[j], k)
    ensures VersionsOf(t, Saved) == []
    ensures VersionsOf(t, k) == [] || VersionsOf(t, k) == [v]
  {
    if |t| > 0 {
      VersionsOfCons(t[0], t[1..], k);
      VersionsOfCons(t[0], t[1..], Saved);
      assert [t[0]] + t[1..] == t;
      PartialBlockVersions(t[1..], v, k);
      if IsKind(t[0], k) {
        assert forall j :: 0 <= j < |t[1..]| ==> !IsKind(t[1..][j], k);
        NoneOfKind(t[1..], k);
      }
    }
  }

  lemma NoneOfKind(t: seq<Action>, k: Kind)
    requires forall j :: 0 <= j < |t| ==> !IsKind(t[j], k)
    ensures VersionsOf(t, k) == []
  {
    if |t| > 0 {
      VersionsOfCons(t[0], t[1..], k);
      assert [t[0]] + t[1..] == t;
      NoneOfKind(t[1..], k);
    }
  }

  /** The actions of one version, in the order the loop body starts them. */
  function Block(v: int, rec: VersionRecord): seq<Action> {
    [RunUpdate(v), RunDump(v), GitCommit(v, rec), SaveCheckpoint(v)]
  }

  lemma BlockOrdered(v: int, rec: VersionRecord, n: nat)
    requires n <= 4
    ensures Ordered(Block(v, rec)[..n])
  {
    var t := Block(v, rec)[..n];
    forall i | 0 <= i < n
      ensures InPlace(t, i)
    {
      assert t[i] == Block(v, rec)[i];
    }
  }

  lemma BlockFits(records: int -> Option<VersionRecord>, v: int, rec: VersionRecord, n: nat)
    requires n <= 4 && records(v) == Some(rec)
    ensures Fits(records, Block(v, rec)[..n])
  {
  }

  /** The loop body for one version: look the record up (`records` is
      `history_data[str(v)]`, see `RecordsOf`), update, dump, commit, save. A
      failure before the save leaves the checkpoint as it was. */
  function ReplayVersion(records: int -> Option<VersionRecord>, faults: set<Step>, v: int, store: Store): (r: Run)
    ensures r.status == Completed <==>
              records(v).Some? && forall s :: StepOf(s, v) ==> s !in faults
    ensures r.status == Completed ==>
              r.checkpoint == Save(store, v) && VersionsOf(r.trace, Saved) == [v]
              && |r.trace| > 0 && Last(r.trace) == SaveCheckpoint(v)
    ensures r.status.Aborted? ==>
              r.checkpoint == store && VersionsOf(r.trace, Saved) == []
              && StopsAt(records, faults, r.status.failure, v)
    ensures r.status == Completed ==> r.trace == Block(v, records(v).value)
    ensures r.status == Aborted(MissingVersion(v)) ==> r.trace == []
    ensures records(v).None? ==> r == Run([], store, Aborted(MissingVersion(v)))
    ensures r.status == Aborted(Raised(UpdateTo(v))) ==> r.trace == [RunUpdate(v)]
    ensures r.status == Aborted(Raised(DumpAt(v))) ==>
              r.trace == [RunUpdate(v), RunDump(v)] && UpdateTo(v) !in faults
    ensures r.status == Aborted(Raised(CommitAt(v))) ==>
              && records(v).Some?
              && r.trace == [RunUpdate(v), RunDump(v), GitCommit(v, records(v).value)]
              && UpdateTo(v) !in faults && DumpAt(v) !in faults
  {
    match records(v)
    case None => Run([], store, Aborted(MissingVersion(v)))
    case Some(rec) =>
      var block := Block(v, rec);
      if UpdateTo(v) in faults then
        NoneOfKind(block[..1], Saved);
        Run(block[..1], store, Aborted(Raised(UpdateTo(v))))
      else if DumpAt(v) in faults then
        NoneOfKind(block[..2], Saved);
        Run(block[..2], store, Aborted(Raised(DumpAt(v))))
      else if CommitAt(v) in faults then
        NoneOfKind(block[..3], Saved);
        Run(block[..3], store, Aborted(Raised(CommitAt(v))))
      else
        FullBlockVersions(v, rec, Saved);
        Run(block, Save(store, v), Completed)
  }

  /** The actions of one version: at most one of each kind, all of that
      version, and exactly one of each kind when the version completes. */
  lemma VersionBlockKinds(records: int -> Option<VersionRecord>, faults: set<Step>, v: int, store: Store, k: Kind)
    ensures var r := ReplayVersion(records, faults, v, store);
            && (VersionsOf(r.trace, k) == [] || VersionsOf(r.trace, k) == [v])
            && (r.status == Completed ==> VersionsOf(r.trace, k) == [v])
  {
    var t := ReplayVersion(records, faults, v, store).trace;
    if |t| == 4 {
      FullBlockVersions(v, t[2].record, k);
    } else {
      PartialBlockVersions(t, v, k);
    }
  }

  /** The actions of one version come in the order update, dump, commit, save,
      and the commit carries the record found for the version. */
  lemma VersionBlockOrder(records: int -> Option<VersionRecord>, faults: set<Step>, v: int, store: Store)
    ensures Ordered(ReplayVersion(records, faults, v, store).trace)
    ensures Fits(records, ReplayVersion(records, faults, v, store).trace)
  {
    var t := ReplayVersion(records, faults, v, store).trace;
    if |t| > 0 {
      var rec := records(v).value;
      assert t == Block(v, rec)[..|t|];
      BlockOrdered(v, rec, |t|);
      BlockFits(records, v, rec, |t|);
    }
  }

  // ---------------------------------------------------------------------------
  // The loop over the sorted versions.

  /** The `for` loop over the visiting order `vs`: it starts with the first
      version, an empty order completes at once, a stop needs a version to
      stop at, and every completed version starts exactly four actions. */
  function Replay(records: int -> Option<VersionRecord>, faults: set<Step>, vs: seq<int>, store: Store): (r: Run)
    ensures |vs| == 0 ==> r == Run([], store, Completed)
    ensures r.status.Aborted? ==> |vs| > 0
    ensures r.status == Completed ==> |r.trace| == 4 * |vs|
    decreases |vs|
  {
    if |vs| == 0 then Run([], store, Completed)
    else
      var first := ReplayVersion(records, faults, vs[0], store);
      if first.status.Aborted? then first
      else
        var rest := Replay(records, faults, vs[1..], first.checkpoint);
        Run(first.trace + rest.trace, rest.checkpoint, rest.status)
  }

  /** The versions saved are the leading part of the visiting order, all of
      it exactly when the run completes; a stopped run stops at the first
      version not saved, for a reason of that version. */
  lemma {:induction false} ReplaySaves(records: int -> Option<VersionRecord>, faults: set<Step>, vs: seq<int>, store: Store)
    ensures var r := Replay(records, faults, vs, store);
            var saved := VersionsOf(r.trace, Saved);
            && IsPrefix(saved, vs)
            && (r.status == Completed <==> saved == vs)
            && (r.status.Aborted? ==> StopsAt(records, faults, r.status.failure, vs[|saved|]))
  {
    if |vs| > 0 {
      var first := ReplayVersion(records, faults, vs[0], store);
      if first.status == Completed {
        var rest := Replay(records, faults, vs[1..], first.checkpoint);
        ReplaySaves(records, faults, vs[1..], first.checkpoint);
        VersionsOfConcat(first.trace, rest.trace, Saved);
        PrefixCons(vs, VersionsOf(rest.trace, Saved));
      }
    }
  }

  /** The checkpoint after the loop is the last version saved, or the one it
      started from if none was: a failure never moves it. */
  lemma {:induction false} ReplayCheckpoint(records: int -> Option<VersionRecord>, faults: set<Step>, vs: seq<int>, store: Store)
    ensures var r := Replay(records, faults, vs, store);
            var saved := VersionsOf(r.trace, Saved);
            r.checkpoint == (if saved == [] then store else Save(store, Last(saved)))
  {
    if |vs| > 0 {
      var first := ReplayVersion(records, faults, vs[0], store);
      if first.status == Completed {
        var rest := Replay(records, faults, vs[1..], first.checkpoint);
        ReplayCheckpoint(records, faults, vs[1..], first.checkpoint);
        VersionsOfConcat(first.trace, rest.trace, Saved);
        var restSaved := VersionsOf(rest.trace, Saved);
        if restSaved != [] {
          assert Last([vs[0]] + restSaved) == Last(restSaved);
        }
      }
    }
  }

  /** A completed loop over a non-empty order leaves its last version as the
      checkpoint. */
  lemma ReplayCompletedCheckpoint(records: int -> Option<VersionRecord>, faults: set<Step>, vs: seq<int>, store: Store)
    requires |vs| > 0 && Replay(records, faults, vs, store).status == Completed
    ensures Load(Replay(records, faults, vs, store).checkpoint) == Last(vs)
  {
    ReplaySaves(records, faults, vs, store);
    ReplayCheckpoint(records, faults, vs, store);
  }

  /** Every other kind of action is in step with the saves, or, when the run
      stopped, one version ahead of them: no version is skipped, repeated or
      taken out of order. */
  lemma {:induction false} ReplayKinds(records: int -> Option<VersionRecord>, faults: set<Step>, vs: seq<int>, store: Store, k: Kind)
    ensures var r := Replay(records, faults, vs, store);
            var saved := VersionsOf(r.trace, Saved);
            VersionsOf(r.trace, k) == saved
            || (r.status.Aborted? && |saved| < |vs| && VersionsOf(r.trace, k) == saved + [vs[|saved|]])
  {
    ReplaySaves(records, faults, vs, store);
    if |vs| > 0 {
      var first := ReplayVersion(records, faults, vs[0], store);
      VersionBlockKinds(records, faults, vs[0], store, k);
      if first.status.Aborted? {
        assert Replay(records, faults, vs, store) == first;
        assert [] + [vs[0]] == [vs[0]];
      } else {
        var rest := Replay(records, faults, vs[1..], first.checkpoint);
        ReplayKinds(records, faults, vs[1..], first.checkpoint, k);
        ReplaySaves(records, faults, vs[1..], first.checkpoint);
        VersionsOfConcat(first.trace, rest.trace, k);
        VersionsOfConcat(first.trace, rest.trace, Saved);
        assert Replay(records, faults, vs, store) == Run(first.trace + rest.trace, rest.checkpoint, rest.status);
        KindsCombine(vs, VersionsOf(rest.trace, Saved), VersionsOf(rest.trace, k), rest.status.Aborted?);
      }
    }
  }

  /** The step of `ReplayKinds` from the tail of the versions to all of them. */
  lemma KindsCombine(vs: seq<int>, restSaved: seq<int>, restKind: seq<int>, aborted: bool)
    requires |vs| > 0
    requires restKind == restSaved
             || (aborted && |restSaved| < |vs| - 1 && restKind == restSaved + [vs[1..][|restSaved|]])
    ensures var saved := [vs[0]] + restSaved;
            [vs[0]] + restKind == saved
            || (aborted && |saved| < |vs| && [vs[0]] + restKind == saved + [vs[|saved|]])
  {
    if restKind != restSaved {
      var next := vs[1..][|restSaved|];
      assert [vs[0]] + (restSaved + [next]) == [vs[0]] + restSaved + [next];
    }
  }

  /** `a` is the action that starts the external step `step`. */
  predicate StartsStep(a: Action, step: Step) {
    match step
    case CreateReport => a.RunReport?
    case CreateHistory => a == RunHistory
    case UpdateTo(v) => a == RunUpdate(v)
    case DumpAt(v) => a == RunDump(v)
    case CommitAt(v) => a.GitCommit? && a.version == v
  }

  /** A loop stopped by a raising step ends with the action of that step:
      nothing is started after it. A loop stopped by a missing record starts
      nothing for that version: it ends where the previous version's save
      left it, or with no action at all. */
  lemma {:induction false} ReplayEndsAtFault(records: int -> Option<VersionRecord>, faults: set<Step>, vs: seq<int>, store: Store)
    ensures var r := Replay(records, faults, vs, store);
            r.status.Aborted? && r.status.failure.Raised? ==>
              |r.trace| > 0 && StartsStep(Last(r.trace), r.status.failure.step)
    ensures var r := Replay(records, faults, vs, store);
            r.status.Aborted? && r.status.failure.MissingVersion? ==>
              |r.trace| == 0 || Last(r.trace).SaveCheckpoint?
  {
    if |vs| > 0 {
      var first := ReplayVersion(records, faults, vs[0], store);
      if first.status == Completed {
        var rest := Replay(records, faults, vs[1..], first.checkpoint);
        ReplayEndsAtFault(records, faults, vs[1..], first.checkpoint);
        if rest.status.Aborted? {
          if |rest.trace| > 0 {
            assert Last(first.trace + rest.trace) == Last(rest.trace);
          } else {
            assert first.trace + rest.trace == first.trace;
          }
        }
      }
    }
  }

  /** The loop's actions keep the per-version order, and every commit commits
      the record the document holds for its version. */
  lemma {:induction false} ReplayOrdered(records: int -> Option<VersionRecord>, faults: set<Step>, vs: seq<int>, store: Store)
    ensures Ordered(Replay(records, faults, vs, store).trace)
    ensures Fits(records, Replay(records, faults, vs, store).trace)
  {
    if |vs| > 0 {
      var first := ReplayVersion(records, faults, vs[0], store);
      VersionBlockOrder(records, faults, vs[0], store);
      if first.status == Completed {
        var rest := Replay(records, faults, vs[1..], first.checkpoint);
        ReplayOrdered(records, faults, vs[1..], first.checkpoint);
        OrderedConcat(first.trace, rest.trace);
        FitsConcat(records, first.trace, rest.trace);
      }
    }
  }

  /** The trace and the outcome of the loop do not depend on the checkpoint
      it starts from: the loop never consults it. */
  lemma {:induction false} ReplayIgnoresStore(records: int -> Option<VersionRecord>, faults: set<Step>, vs: seq<int>, s1: Store, s2: Store)
    ensures Replay(records, faults, vs, s1).trace == Replay(records, faults, vs, s2).trace
    ensures Replay(records, faults, vs, s1).status == Replay(records, faults, vs, s2).status
  {
    if |vs| > 0 {
      var f1 := ReplayVersion(records, faults, vs[0], s1);
      var f2 := ReplayVersion(records, faults, vs[0], s2);
      if f1.status == Completed {
        ReplayIgnoresStore(records, faults, vs[1..], f1.checkpoint, f2.checkpoint);
      }
    }
  }

  /** The loop sees the document only through lookups. */
  lemma {:induction false} ReplaySeesOnlyLookups(r1: int -> Option<VersionRecord>, r2: int -> Option<VersionRecord>, faults: set<Step>, vs: seq<int>, store: Store)
    requires forall v :: r1(v) == r2(v)
    ensures Replay(r1, faults, vs, store) == Replay(r2, faults, vs, store)
  {
    if |vs| > 0 {
      var first := ReplayVersion(r1, faults, vs[0], store);
      if first.status == Completed {
        ReplaySeesOnlyLookups(r1, r2, faults, vs[1..], first.checkpoint);
      }
    }
  }

  // ---------------------------------------------------------------------------
  // `scan_history`.

  /** Parse every key, sort the numbers, replay them in order. */
  function ScanHistory(doc: seq<Entry>, faults: set<Step>, store: Store): (r: Run)
    ensures VersionOrder(doc).BadKey? ==>
              r == Run([], store, Aborted(MalformedKey(VersionOrder(doc).key)))
    ensures |doc| == 0 ==> r == Run([], store, Completed)
  {
    match VersionOrder(doc)
    case BadKey(k) => Run([], store, Aborted(MalformedKey(k)))
    case Parsed(vs) => Replay(RecordsOf(doc), faults, vs, store)
  }

  /** For a well-formed document (distinct canonical keys) the scan never
      stops on a key: only a raising step stops it. */
  lemma ScanStopsOnlyOnFaults(doc: seq<Entry>, faults: set<Step>, store: Store)
    requires IsDict(doc) && AllKeysCanonical(doc)
    ensures var r := ScanHistory(doc, faults, store);
            r.status == Completed || (r.status.failure.Raised? && r.status.failure.step in faults)
  {
    CanonicalOrder(doc);
    var vs := VersionOrder(doc).versions;
    ReplaySaves(RecordsOf(doc), faults, vs, store);
    var saved := VersionsOf(ScanHistory(doc, faults, store).trace, Saved);
    if |saved| < |vs| {
      assert vs[|saved|] in vs;
    }
  }

  /** For a well-formed document the scan saves versions in strictly
      ascending order, each of them the number of a key of the document. */
  lemma ScanSavesAscending(doc: seq<Entry>, faults: set<Step>, store: Store)
    requires IsDict(doc) && AllKeysCanonical(doc)
    ensures var saved := VersionsOf(ScanHistory(doc, faults, store).trace, Saved);
            && StrictlyIncreasing(saved)
            && (forall v :: v in saved ==> Lookup(doc, ShowInt(v)).Some?)
  {
    CanonicalOrder(doc);
    var vs := VersionOrder(doc).versions;
    ReplaySaves(RecordsOf(doc), faults, vs, store);
    PrefixKeeps(VersionsOf(ScanHistory(doc, faults, store).trace, Saved), vs);
  }

  /** Without faults, the scan of a well-formed document completes, having
      saved every version of the visiting order. */
  lemma ScanWithoutFaults(doc: seq<Entry>, store: Store)
    requires IsDict(doc) && AllKeysCanonical(doc)
    ensures VersionOrder(doc).Parsed?
    ensures ScanHistory(doc, {}, store).status == Completed
    ensures VersionsOf(ScanHistory(doc, {}, store).trace, Saved) == VersionOrder(doc).versions
  {
    CanonicalOrder(doc);
    ReplaySaves(RecordsOf(doc), {}, VersionOrder(doc).versions, store);
  }

  /** Without faults, the scan of a well-formed document saves the number of
      every key, once each. */
  lemma ScanSavesEveryKey(doc: seq<Entry>, store: Store)
    requires IsDict(doc) && AllKeysCanonical(doc)
    ensures var saved := VersionsOf(ScanHistory(doc, {}, store).trace, Saved);
            && |saved| == |doc|
            && (forall i :: 0 <= i < |doc| ==> KeyVersion(doc[i]) in saved)
  {
    ScanWithoutFaults(doc, store);
    CanonicalOrder(doc);
  }

  /** A completed scan of a non-empty document leaves the largest version
      number of the document as the checkpoint. */
  lemma FinalCheckpointIsMaximum(doc: seq<Entry>, faults: set<Step>, store: Store)
    requires |doc| > 0
    requires ScanHistory(doc, faults, store).status == Completed
    ensures VersionOrder(doc).Parsed?
    ensures var last := Load(ScanHistory(doc, faults, store).checkpoint);
            && (forall i :: 0 <= i < |doc| ==> KeyVersion(doc[i]) <= last)
            && (exists i :: 0 <= i < |doc| && KeyVersion(doc[i]) == last)
  {
    var vs := VersionOrder(doc).versions;
    ParsedAreKeyVersions(doc);
    var parsed := ParseKeys(Keys(doc)).versions;
    SortedLastIsMaximum(vs, parsed);
    ReplayCompletedCheckpoint(RecordsOf(doc), faults, vs, store);
  }

  /** The checkpoint the program starts from does not change what the scan
      does; it only survives when nothing is saved. */
  lemma ScanIgnoresCheckpoint(doc: seq<Entry>, faults: set<Step>, s1: Store, s2: Store)
    ensures ScanHistory(doc, faults, s1).trace == ScanHistory(doc, faults, s2).trace
    ensures ScanHistory(doc, faults, s1).status == ScanHistory(doc, faults, s2).status
    ensures VersionsOf(ScanHistory(doc, faults, s1).trace, Saved) != [] ==>
              ScanHistory(doc, faults, s1).checkpoint == ScanHistory(doc, faults, s2).checkpoint
  {
    if VersionOrder(doc).Parsed? {
      var vs := VersionOrder(doc).versions;
      ReplayIgnoresStore(RecordsOf(doc), faults, vs, s1, s2);
      ReplayCheckpoint(RecordsOf(doc), faults, vs, s1);
      ReplayCheckpoint(RecordsOf(doc), faults, vs, s2);
    }
  }

  /** Listing the pairs of the document in another order changes nothing,
      as long as every key is a number. */
  lemma ScanKeyOrderIrrelevant(d1: seq<Entry>, d2: seq<Entry>, faults: set<Step>, store: Store)
    requires IsDict(d1) && multiset(d1) == multiset(d2)
    requires ParseKeys(Keys(d1)).Parsed?
    ensures ScanHistory(d1, faults, store) == ScanHistory(d2, faults, store)
  {
    KeyOrderIrrelevant(d1, d2);
    ReplaySeesOnlyLookups(RecordsOf(d1), RecordsOf(d2), faults, VersionOrder(d1).versions, store);
  }

  // ---------------------------------------------------------------------------
  // The program.

  /** Read the checkpoint, produce the report from the next version on, produce
      the history file, then scan it. A raising report or history conversion,
      or an unreadable history file, ends the run there. `history` is what that file holds
      afterwards, `None` when it cannot be read as JSON. */
  function RunProgram(history: Option<seq<Entry>>, faults: set<Step>, store: Store): (r: Run)
    ensures |r.trace| > 0 && r.trace[0] == RunReport(Load(store))
    ensures CreateReport in faults ==> r == Run(r.trace, store, Aborted(Raised(CreateReport)))
    ensures CreateReport !in faults ==> |r.trace| > 1 && r.trace[1] == RunHistory
    ensures CreateReport in faults ==> r.trace == [RunReport(Load(store))]
    ensures CreateReport !in faults && CreateHistory in faults ==>
              r == Run([RunReport(Load(store)), RunHistory], store, Aborted(Raised(CreateHistory)))
    ensures CreateReport !in faults && CreateHistory !in faults && history.None? ==>
              r == Run([RunReport(Load(store)), RunHistory], store, Aborted(UnreadableHistory))
    ensures CreateReport !in faults && CreateHistory !in faults && history.Some? ==>
              r.trace[2..] == ScanHistory(history.value, faults, store).trace
              && r.status == ScanHistory(history.value, faults, store).status
  {
    var report := RunReport(Load(store));
    var produce := RunHistory;
    if CreateReport in faults then Run([report], store, Aborted(Raised(CreateReport)))
    else if CreateHistory in faults then Run([report, produce], store, Aborted(Raised(CreateHistory)))
    else if history.None? then Run([report, produce], store, Aborted(UnreadableHistory))
    else
      var scan := ScanHistory(history.value, faults, store);
      Run([report, produce] + scan.trace, scan.checkpoint, scan.status)
  }

  /** Whatever happens, the checkpoint after the program is the last version
      the run saved, or the one it started from. */
  lemma ProgramCheckpoint(history: Option<seq<Entry>>, faults: set<Step>, store: Store)
    ensures var r := RunProgram(history, faults, store);
            var saved := VersionsOf(r.trace, Saved);
            r.checkpoint == (if saved == [] then store else Save(store, Last(saved)))
  {
    var r := RunProgram(history, faults, store);
    var head := [RunReport(Load(store)), RunHistory];
    NoneOfKind(head, Saved);
    if CreateReport in faults {
      assert r.trace == head[..1];
      NoneOfKind(head[..1], Saved);
    } else if CreateHistory in faults || history.None? {
      assert r.trace == head;
    } else {
      var scan := ScanHistory(history.value, faults, store);
      assert r == Run(head + scan.trace, scan.checkpoint, scan.status);
      ScanCheckpoint(history.value, faults, store);
      VersionsOfConcat(head, scan.trace, Saved);
      assert VersionsOf(r.trace, Saved) == VersionsOf(scan.trace, Saved);
    }
  }

  /** The scan's checkpoint is the store saved with the last version it saved. */
  lemma ScanCheckpoint(doc: seq<Entry>, faults: set<Step>, store: Store)
    ensures var r := ScanHistory(doc, faults, store);
            var saved := VersionsOf(r.trace, Saved);
            r.checkpoint == (if saved == [] then store else Save(store, Last(saved)))
  {
    if VersionOrder(doc).Parsed? {
      ReplayCheckpoint(RecordsOf(doc), faults, VersionOrder(doc).versions, store);
    }
  }

  /** Whatever happens, the program's actions keep their order. */
  lemma ProgramOrdered(history: Option<seq<Entry>>, faults: set<Step>, store: Store)
    ensures Ordered(RunProgram(history, faults, store).trace)
  {
    var r := RunProgram(history, faults, store);
    var head := [RunReport(Load(store)), RunHistory];
    HeadOrdered(Load(store), x => None);
    if CreateReport in faults {
      assert r.trace == head[..1];
    } else if CreateHistory in faults || history.None? {
      assert r.trace == head;
    } else {
      var scan := ScanHistory(history.value, faults, store);
      assert r.trace == head + scan.trace;
      ScanOrdered(history.value, faults, store);
      OrderedConcat(head, scan.trace);
    }
  }

  /** Every commit of the program commits the record the document holds for
      its version. */
  lemma ProgramFits(doc: seq<Entry>, faults: set<Step>, store: Store)
    ensures Fits(RecordsOf(doc), RunProgram(Some(doc), faults, store).trace)
  {
    var r := RunProgram(Some(doc), faults, store);
    var head := [RunReport(Load(store)), RunHistory];
    HeadOrdered(Load(store), RecordsOf(doc));
    if CreateReport in faults {
      assert r.trace == head[..1];
    } else if CreateHistory in faults {
      assert r.trace == head;
    } else {
      var scan := ScanHistory(doc, faults, store);
      assert r.trace == head + scan.trace;
      ScanOrdered(doc, faults, store);
      FitsConcat(RecordsOf(doc), head, scan.trace);
    }
  }

  /** Every commit of a run is planned from the record the document holds for
      its version: authored after that record's store user, headed by its
      version, and dated with that record's date and time text. */
  lemma ProgramCommitPlans(conf: Config, doc: seq<Entry>, faults: set<Step>, store: Store)
    ensures var t := RunProgram(Some(doc), faults, store).trace;
            forall i :: 0 <= i < |t| && t[i].GitCommit? ==>
              && Lookup(doc, ShowInt(t[i].version)) == Some(t[i].record)
              && PlanOf(conf, t[i]) == Some(PlanFor(conf, t[i].version, t[i].record))
              && PlanOf(conf, t[i]).value.author == GitAuthor(conf, Lookup(doc, ShowInt(t[i].version)).value.author)
  {
    var t := RunProgram(Some(doc), faults, store).trace;
    ProgramFits(doc, faults, store);
    forall i | 0 <= i < |t| && t[i].GitCommit?
      ensures Lookup(doc, ShowInt(t[i].version)) == Some(t[i].record)
    {
      assert ActionFits(RecordsOf(doc), t[i]);
    }
  }

  /** A run stopped by a raising step ends with the action of that step:
      the exception ends the program. */
  lemma ProgramEndsAtFault(history: Option<seq<Entry>>, faults: set<Step>, store: Store)
    ensures var r := RunProgram(history, faults, store);
            r.status.Aborted? && r.status.failure.Raised? ==>
              r.status.failure.step in faults && StartsStep(Last(r.trace), r.status.failure.step)
  {
    var r := RunProgram(history, faults, store);
    if CreateReport !in faults && CreateHistory !in faults && history.Some? {
      var doc := history.value;
      var scan := ScanHistory(doc, faults, store);
      assert r.trace == [RunReport(Load(store)), RunHistory] + scan.trace;
      if VersionOrder(doc).Parsed? && scan.status.Aborted? && scan.status.failure.Raised? {
        var vs := VersionOrder(doc).versions;
        ReplayEndsAtFault(RecordsOf(doc), faults, vs, store);
        ReplaySaves(RecordsOf(doc), faults, vs, store);
        assert Last(r.trace) == Last(scan.trace);
      }
    }
  }

  /** The two opening actions are ordered and commit nothing. */
  lemma HeadOrdered(last: int, records: int -> Option<VersionRecord>)
    ensures var head := [RunReport(last), RunHistory];
            Ordered(head) && Ordered(head[..1]) && Fits(records, head) && Fits(records, head[..1])
  {
  }

  /** The scan's actions keep their order and commit the records the
      document holds. */
  lemma ScanOrdered(doc: seq<Entry>, faults: set<Step>, store: Store)
    ensures Ordered(ScanHistory(doc, faults, store).trace)
    ensures Fits(RecordsOf(doc), ScanHistory(doc, faults, store).trace)
  {
    if VersionOrder(doc).Parsed? {
      ReplayOrdered(RecordsOf(doc), faults, VersionOrder(doc).versions, store);
    }
  }

  /** A report action runs the designer on the store and asks for the
      versions after the given one. */
  lemma ReportActionStart(conf: Config, last: int)
    ensures CommandOf(conf, RunReport(last)).Some?
    ensures StartsWith(CommandOf(conf, RunReport(last)).value,
                       BaseCommandLine(conf, "DESIGNER") + " " + "/ConfigurationRepositoryF")
    ensures TrailingInt(CommandOf(conf, RunReport(last)).value) == Some(last + 1)
  {
    ReportStartsAfterLastVersion(conf, last);
  }

  /** An update action runs the designer on the store and names exactly its
      own version. */
  lemma UpdateActionVersion(conf: Config, v: int)
    ensures CommandOf(conf, RunUpdate(v)).Some?
    ensures StartsWith(CommandOf(conf, RunUpdate(v)).value,
                       BaseCommandLine(conf, "DESIGNER") + " " + "/ConfigurationRepositoryF")
    ensures TrailingInt(CommandOf(conf, RunUpdate(v)).value) == Some(v)
  {
    UpdateNamesVersion(conf, v);
  }

  /** The history action runs the enterprise client on the history data
      processor, passing it the report and history file names. */
  lemma HistoryActionCommand(conf: Config)
    ensures CommandOf(conf, RunHistory).Some?
    ensures StartsWith(CommandOf(conf, RunHistory).value,
                       BaseCommandLine(conf, "ENTERPRISE") + " " + "/Execute")
    ensures EndsWith(CommandOf(conf, RunHistory).value, " " + HistoryArgument(conf.storage) + "  ")
  {
  }

  /** A dump action runs the designer to dump into the git source directory;
      its command line is the same whatever the version. */
  lemma DumpActionCommand(conf: Config, v: int, w: int)
    ensures CommandOf(conf, RunDump(v)).Some?
    ensures StartsWith(CommandOf(conf, RunDump(v)).value,
                       BaseCommandLine(conf, "DESIGNER") + " " + "/DumpConfigToFiles")
    ensures EndsWith(CommandOf(conf, RunDump(v)).value, " " + conf.git.configurationSrcPath + " ")
    ensures CommandOf(conf, RunDump(v)) == CommandOf(conf, RunDump(w))
  {
  }

  /** The next run resumes where this one stopped: whatever it is given, it
      starts with the report from the version this run saved last, or from
      where this run started if it saved nothing. */
  lemma ProgramResumes(h1: Option<seq<Entry>>, f1: set<Step>, h2: Option<seq<Entry>>, f2: set<Step>, store: Store)
    ensures var r1 := RunProgram(h1, f1, store);
            var saved := VersionsOf(r1.trace, Saved);
            RunProgram(h2, f2, r1.checkpoint).trace[0]
            == RunReport(if saved == [] then Load(store) else Last(saved))
  {
    var r1 := RunProgram(h1, f1, store);
    var saved := VersionsOf(r1.trace, Saved);
    ProgramCheckpoint(h1, f1, store);
    assert Load(r1.checkpoint) == (if saved == [] then Load(store) else Last(saved));
  }
}
