/** Importing files through the command line tool, from
    tools/jellyfin-sync/jellyfin_sync/device.py. What each run of the tool does, and what its
    text says about a file, are parameters: any list of runs. */
module Importing {
  import opened Results
  import opened ObjectIds
  import opened Playlists

  type Path = string

  const TIMED_OUT := "aft-mtp-cli timed out"
  const FIRST_COMMAND := "error"               // of a run whose first command fails

  /** What the text of a run says about a file. */
  datatype Report = Report(objectId: Option<ObjectId>, error: Option<string>, skipped: bool)

  /** One run of the tool: `executed` commands took effect before it ended. */
  datatype Run =
    | TimedOut(executed: nat)
    | Exited(code: int, said: map<Path, Report>, lastLine: string, executed: nat)

  /** The n-th run to come; when the runs given are used up the tool hangs. */
  function RunAt(runs: seq<Run>, n: nat): Run {
    if n < |runs| then runs[n] else TimedOut(0)
  }

  function Said(run: Run, path: Path): Report
    requires run.Exited?
  {
    if path in run.said then run.said[path] else Report(None, None, false)
  }

  datatype Verdict = Uploaded | Skipped | Failed(error: string)

  predicate Broke(run: Run) {
    run.Exited? && run.code != 0
  }

  // -- What one call of import_tracks decides for each path --------------------

  /** The run that decides about a path: the batch's, or one for the path alone. */
  datatype Decision = Decision(alone: bool, run: Run)

  function VerdictOf(d: Decision, path: Path): Verdict {
    if d.run.TimedOut? then Failed(TIMED_OUT)
    else if d.alone && d.run.code != 0 then Failed(d.run.lastLine)
    else if !d.alone && Said(d.run, path).error.Some? then Failed(Said(d.run, path).error.value)
    else if Said(d.run, path).skipped then Skipped
    else Uploaded
  }

  predicate Succeeded(d: Decision, path: Path) {
    !VerdictOf(d, path).Failed?
  }

  function ReportedId(d: Decision, path: Path): Option<ObjectId> {
    if d.run.Exited? && d.run.code == 0 then Said(d.run, path).objectId else None
  }

  function BatchSize(size: nat, length: nat): nat {
    if size <= length then size else length
  }

  function RunsOfBatch(runs: seq<Run>, length: nat, n: nat): nat {
    if Broke(RunAt(runs, n)) then 1 + length else 1
  }

  /** The decision about the i-th path of a batch whose first run is the n-th: a broken batch is
      retried path by path. */
  function InBatch(runs: seq<Run>, n: nat, i: nat): Decision {
    if Broke(RunAt(runs, n)) then Decision(true, RunAt(runs, n + 1 + i)) else Decision(false, RunAt(runs, n))
  }

  /** The decision about the i-th of `length` paths, batch after batch. */
  function DecisionAt(runs: seq<Run>, size: nat, length: nat, n: nat, i: nat): Decision
    requires size > 0 && i < length
    decreases length
  {
    var k := BatchSize(size, length);
    if i < k then InBatch(runs, n, i) else DecisionAt(runs, size, length - k, n + RunsOfBatch(runs, k, n), i - k)
  }

  /** The number of the run for the b-th batch behind, when the next run is the n-th. */
  function RunFor(runs: seq<Run>, size: nat, n: nat, b: nat): nat
    decreases b
  {
    if b == 0 then n else RunFor(runs, size, n + (if Broke(RunAt(runs, n)) then 1 + size else 1), b - 1)
  }

  /** The i-th path is the (i % size)-th of the (i / size)-th batch: its batch's run decides about it,
      or if that broke one of its own, the batch's later runs being those for its paths in order. */
  lemma {:induction false} DecidedBy(runs: seq<Run>, size: nat, length: nat, n: nat, i: nat)
    requires size > 0 && i < length
    ensures var m := RunFor(runs, size, n, i / size);
      DecisionAt(runs, size, length, n, i)
      == if Broke(RunAt(runs, m)) then Decision(true, RunAt(runs, m + 1 + i % size)) else Decision(false, RunAt(runs, m))
    decreases length
  {
    PlaceInBatch(i, size);
    if i >= size {
      DecidedBy(runs, size, length - size, n + RunsOfBatch(runs, size, n), i - size);
    }
  }

  lemma PlaceInBatch(i: nat, size: nat)
    requires size > 0
    ensures if i < size then i / size == 0 && i % size == i
            else (i - size) / size == i / size - 1 && (i - size) % size == i % size
  {
    if i >= size {
      var q, r := i / size, i % size;
      assert i - size == (q - 1) * size + r;
      OneQuotient(i - size, size, q - 1, r);
    }
  }

  lemma OneQuotient(x: nat, d: nat, q: int, r: nat)
    requires d > 0 && x == q * d + r && r < d
    ensures x / d == q && x % d == r
  {
    var e := x / d - q;
    assert x == (x / d) * d + x % d;
    assert e * d == r - x % d;
    ProductSign(e, d);
  }

  lemma ProductSign(e: int, d: nat)
    ensures e >= 1 ==> e * d >= d
    ensures e <= -1 ==> e * d + d <= 0
  {
    if e >= 1 {
      assert (e - 1) * d >= 0;
    } else if e <= -1 {
      assert (-e - 1) * d >= 0;
    }
  }

  function Decisions(runs: seq<Run>, size: nat, length: nat, n: nat): (ds: seq<Decision>)
    requires size > 0
    ensures |ds| == length
  {
    seq(length, i requires 0 <= i < length => DecisionAt(runs, size, length, n, i))
  }

  /** The decisions from `start` on, when the next run is the n-th. */
  ghost predicate Remain(runs: seq<Run>, size: nat, ds: seq<Decision>, start: nat, n: nat)
    requires size > 0 && start <= |ds|
  {
    forall i | start <= i < |ds| :: ds[i] == DecisionAt(runs, size, |ds| - start, n, i - start)
  }

  ghost predicate IsBatch(runs: seq<Run>, ds: seq<Decision>, start: nat, end: nat, n: nat)
    requires start <= end <= |ds|
  {
    forall i | start <= i < end :: ds[i] == InBatch(runs, n, i - start)
  }

  lemma InBatchAt(runs: seq<Run>, ds: seq<Decision>, start: nat, end: nat, n: nat, i: nat)
    requires start <= i < end <= |ds| && IsBatch(runs, ds, start, end, n)
    ensures ds[i] == if Broke(RunAt(runs, n)) then Decision(true, RunAt(runs, n + 1 + (i - start)))
                     else Decision(false, RunAt(runs, n))
  {
  }

  lemma RemainStep(runs: seq<Run>, size: nat, ds: seq<Decision>, start: nat, n: nat)
    requires size > 0 && start < |ds| && Remain(runs, size, ds, start, n)
    ensures var k := BatchSize(size, |ds| - start);
      IsBatch(runs, ds, start, start + k, n) && Remain(runs, size, ds, start + k, n + RunsOfBatch(runs, k, n))
  {
  }

  // -- What is returned --------------------------------------------------------

  /** Every path goes to one of the three lists; `ids` holds the object ids reported. */
  datatype Outcome = Outcome(uploaded: seq<Path>, skipped: seq<Path>, failed: seq<(Path, string)>, ids: map<Path, ObjectId>)

  const NOTHING := Outcome([], [], [], map[])

  function Judge(o: Outcome, d: Decision, path: Path): Outcome {
    var ids := match ReportedId(d, path) case Some(id) => o.ids[path := id] case None => o.ids;
    match VerdictOf(d, path)
    case Uploaded => Outcome(o.uploaded + [path], o.skipped, o.failed, ids)
    case Skipped => Outcome(o.uploaded, o.skipped + [path], o.failed, ids)
    case Failed(error) => Outcome(o.uploaded, o.skipped, o.failed + [(path, error)], ids)
  }

  function JudgeAll(ds: seq<Decision>, paths: seq<Path>): Outcome
    requires |ds| == |paths|
  {
    if paths == [] then NOTHING
    else Judge(JudgeAll(ds[..|ds| - 1], paths[..|paths| - 1]), ds[|ds| - 1], paths[|paths| - 1])
  }

  lemma JudgeNext(ds: seq<Decision>, paths: seq<Path>, i: nat)
    requires i < |ds| == |paths|
    ensures JudgeAll(ds[..i + 1], paths[..i + 1]) == Judge(JudgeAll(ds[..i], paths[..i]), ds[i], paths[i])
  {
    assert ds[..i + 1][..i] == ds[..i] && paths[..i + 1][..i] == paths[..i];
  }

  lemma NothingJudged(runs: seq<Run>, size: nat, paths: seq<Path>, n: nat)
    requires size > 0
    ensures var ds := Decisions(runs, size, |paths|, n);
      Remain(runs, size, ds, 0, n) && JudgeAll(ds[..0], paths[..0]) == NOTHING
  {
  }

  // -- Conservation ------------------------------------------------------------

  function PathsOf(failed: seq<(Path, string)>): (ps: seq<Path>)
    ensures |ps| == |failed|
  {
    seq(|failed|, i requires 0 <= i < |failed| => failed[i].0)
  }

  function Accounted(o: Outcome): multiset<Path> {
    multiset(o.uploaded) + multiset(o.skipped) + multiset(PathsOf(o.failed))
  }

  lemma JudgeLast(ds: seq<Decision>, paths: seq<Path>)
    requires |ds| == |paths| > 0
    ensures var k := |paths| - 1; JudgeAll(ds, paths) == Judge(JudgeAll(ds[..k], paths[..k]), ds[k], paths[k])
  {
  }

  lemma JudgeAccounts(o: Outcome, d: Decision, path: Path)
    ensures Accounted(Judge(o, d, path)) == Accounted(o) + multiset{path}
  {
    match VerdictOf(d, path) {
      case Uploaded =>
      case Skipped =>
      case Failed(error) =>
        assert PathsOf(o.failed + [(path, error)]) == PathsOf(o.failed) + [path];
    }
  }

  /** Uploaded, skipped and failed partition the paths: none is lost and none is counted twice. */
  lemma {:induction false} Conserved(ds: seq<Decision>, paths: seq<Path>)
    requires |ds| == |paths|
    ensures Accounted(JudgeAll(ds, paths)) == multiset(paths)
  {
    hide Judge, JudgeAll, Accounted;
    if paths == [] {
      NothingAccounted(ds, paths);
    } else {
      var k := |paths| - 1;
      Conserved(ds[..k], paths[..k]);
      JudgeLast(ds, paths);
      JudgeAccounts(JudgeAll(ds[..k], paths[..k]), ds[k], paths[k]);
      MultisetLast(paths);
    }
  }

  lemma NothingAccounted(ds: seq<Decision>, paths: seq<Path>)
    requires |ds| == |paths| == 0
    ensures Accounted(JudgeAll(ds, paths)) == multiset(paths)
  {
  }

  lemma MultisetLast<T>(s: seq<T>)
    requires s != []
    ensures multiset(s) == multiset(s[..|s| - 1]) + multiset{s[|s| - 1]}
  {
    assert s == s[..|s| - 1] + [s[|s| - 1]];
  }

  // -- What the lists mean -----------------------------------------------------

  /** The paths the device has after the import. */
  function OnDevice(o: Outcome): seq<Path> {
    o.uploaded + o.skipped
  }

  /** The run says nothing against the path: it exited, well if it was for this path alone, and
      without an error at the path if not. */
  predicate EndedWell(d: Decision, path: Path) {
    d.run.Exited? && if d.alone then d.run.code == 0 else Said(d.run, path).error.None?
  }

  /** Why a path failed. */
  predicate Explains(d: Decision, path: Path, error: string) {
    if d.run.TimedOut? then error == "aft-mtp-cli timed out"
    else if d.alone then d.run.code != 0 && error == d.run.lastLine
    else Said(d.run, path).error == Some(error)
  }

  /** The paths that one of three things is true of, in order. */
  function Those(paths: seq<Path>, flags: seq<bool>): seq<Path>
    requires |flags| == |paths|
  {
    if paths == [] then [] else
      var k := |paths| - 1;
      Those(paths[..k], flags[..k]) + if flags[k] then [paths[k]] else []
  }

  function WellFlags(ds: seq<Decision>, paths: seq<Path>, well: bool, skips: bool): (flags: seq<bool>)
    requires |ds| == |paths|
    ensures |flags| == |paths|
  {
    seq(|ds|, i requires 0 <= i < |ds| =>
      EndedWell(ds[i], paths[i]) == well && (well ==> Said(ds[i].run, paths[i]).skipped == skips))
  }

  /** What ended well is uploaded or skipped as its run says, all else has failed for the reason its
      run gives; each list is in the order of the paths. */
  lemma {:induction false} ListsMeaning(ds: seq<Decision>, paths: seq<Path>)
    requires |ds| == |paths|
    ensures var o := JudgeAll(ds, paths);
      && o.uploaded == Those(paths, WellFlags(ds, paths, true, false))
      && o.skipped == Those(paths, WellFlags(ds, paths, true, true))
      && PathsOf(o.failed) == Those(paths, WellFlags(ds, paths, false, false))
      && forall f | f in o.failed :: exists i | 0 <= i < |ds| :: paths[i] == f.0 && Explains(ds[i], f.0, f.1)
  {
    if paths != [] {
      var k := |paths| - 1;
      ListsMeaning(ds[..k], paths[..k]);
      FlagsPrefix(ds, paths, k);
      ListsStep(ds, paths, JudgeAll(ds[..k], paths[..k]));
    }
  }

  lemma FlagsPrefix(ds: seq<Decision>, paths: seq<Path>, k: nat)
    requires |ds| == |paths| && k <= |ds|
    ensures forall well, skips :: WellFlags(ds, paths, well, skips)[..k] == WellFlags(ds[..k], paths[..k], well, skips)
  {
  }

  lemma ListsStep(ds: seq<Decision>, paths: seq<Path>, o: Outcome)
    requires |ds| == |paths| > 0
    requires forall f | f in o.failed :: exists i | 0 <= i < |ds| - 1 :: paths[i] == f.0 && Explains(ds[i], f.0, f.1)
    ensures var k := |ds| - 1; var now := Judge(o, ds[k], paths[k]);
      && now.uploaded == o.uploaded + (if WellFlags(ds, paths, true, false)[k] then [paths[k]] else [])
      && now.skipped == o.skipped + (if WellFlags(ds, paths, true, true)[k] then [paths[k]] else [])
      && PathsOf(now.failed) == PathsOf(o.failed) + (if WellFlags(ds, paths, false, false)[k] then [paths[k]] else [])
      && forall f | f in now.failed :: exists i | 0 <= i < |ds| :: paths[i] == f.0 && Explains(ds[i], f.0, f.1)
  {
    var k := |ds| - 1;
    var now := Judge(o, ds[k], paths[k]);
    forall f | f in now.failed
      ensures exists i | 0 <= i < |ds| :: paths[i] == f.0 && Explains(ds[i], f.0, f.1)
    {
      if f in o.failed {
        var i :| 0 <= i < k && paths[i] == f.0 && Explains(ds[i], f.0, f.1);
      } else {
        assert f.0 == paths[k] && Explains(ds[k], f.0, f.1);
      }
    }
  }

  /** A path is reported as on the device exactly if a run that decided about it says so. */
  lemma {:induction false} OnDeviceMeaning(ds: seq<Decision>, paths: seq<Path>, path: Path)
    requires |ds| == |paths|
    ensures path in OnDevice(JudgeAll(ds, paths))
       <==> exists i | 0 <= i < |ds| :: paths[i] == path && Succeeded(ds[i], path)
  {
    if paths != [] {
      var k := |paths| - 1;
      OnDeviceMeaning(ds[..k], paths[..k], path);
      var o, now := JudgeAll(ds[..k], paths[..k]), JudgeAll(ds, paths);
      assert path in OnDevice(now) <==>
        path in OnDevice(o) || (paths[k] == path && Succeeded(ds[k], path));
      if path in OnDevice(o) {
        var i :| 0 <= i < k && paths[..k][i] == path && Succeeded(ds[..k][i], path);
        assert paths[i] == path && Succeeded(ds[i], path);
      }
      if i :| 0 <= i < k && paths[i] == path && Succeeded(ds[i], path) {
        assert paths[..k][i] == path && Succeeded(ds[..k][i], path);
      }
    }
  }

  /** The run ended well and gives the path's id. */
  predicate Reports(d: Decision, path: Path) {
    d.run.Exited? && d.run.code == 0 && Said(d.run, path).objectId.Some?
  }

  /** A path has an object id exactly if a run that decided about it reports one, */
  lemma {:induction false} IdsMeaning(ds: seq<Decision>, paths: seq<Path>, path: Path)
    requires |ds| == |paths|
    ensures path in JudgeAll(ds, paths).ids
       <==> exists i | 0 <= i < |ds| :: paths[i] == path && Reports(ds[i], path)
  {
    if paths != [] {
      var k := |paths| - 1;
      IdsMeaning(ds[..k], paths[..k], path);
      var o, now := JudgeAll(ds[..k], paths[..k]), JudgeAll(ds, paths);
      assert path in now.ids <==>
        path in o.ids || (paths[k] == path && Reports(ds[k], path));
      if path in o.ids {
        var i :| 0 <= i < k && paths[..k][i] == path && Reports(ds[..k][i], path);
        assert paths[i] == path && Reports(ds[i], path);
      }
      if i :| 0 <= i < k && paths[i] == path && Reports(ds[i], path) {
        assert paths[..k][i] == path && Reports(ds[..k][i], path);
      }
    }
  }

  /** and that is the last one reported. */
  lemma {:induction false} LastIdStays(ds: seq<Decision>, paths: seq<Path>, path: Path, i: nat)
    requires |ds| == |paths| && i < |ds| && paths[i] == path && Reports(ds[i], path)
    requires forall j | i < j < |ds| && paths[j] == path :: !Reports(ds[j], path)
    ensures path in JudgeAll(ds, paths).ids && Said(ds[i].run, path).objectId == Some(JudgeAll(ds, paths).ids[path])
  {
    var k := |paths| - 1;
    if i < k {
      assert ds[..k][i] == ds[i] && paths[..k][i] == paths[i];
      assert forall j | i < j < k :: paths[..k][j] == paths[j] && ds[..k][j] == ds[j];
      LastIdStays(ds[..k], paths[..k], path, i);
    }
    JudgeLast(ds, paths);
  }

  /** Nothing failed exactly if every decision is a success. */
  lemma {:induction false} NoFailures(ds: seq<Decision>, paths: seq<Path>)
    requires |ds| == |paths|
    ensures JudgeAll(ds, paths).failed == [] <==> forall i | 0 <= i < |ds| :: Succeeded(ds[i], paths[i])
  {
    if paths != [] {
      var k := |paths| - 1;
      NoFailures(ds[..k], paths[..k]);
      assert forall i | 0 <= i < k :: ds[..k][i] == ds[i] && paths[..k][i] == paths[i];
    }
  }

  // -- An honest tool ----------------------------------------------------------

  /** The tool exits with an error exactly if some file of the command line cannot be imported,
      and does not speak of errors otherwise. */
  ghost predicate HonestRun(run: Run, batch: seq<Path>, broken: set<Path>) {
    && run.Exited?
    && (run.code != 0 <==> exists p | p in batch :: p in broken)
    && (run.code == 0 ==> forall p | p in batch :: Said(run, p).error.None?)
  }

  /** The run of a batch and, if it broke, the runs for each file. */
  ghost predicate HonestBatch(runs: seq<Run>, batch: seq<Path>, n: nat, broken: set<Path>) {
    && HonestRun(RunAt(runs, n), batch, broken)
    && (Broke(RunAt(runs, n)) ==> forall i | 0 <= i < |batch| :: HonestRun(RunAt(runs, n + 1 + i), [batch[i]], broken))
  }

  /** All runs of one import are honest. */
  ghost predicate HonestRuns(runs: seq<Run>, size: nat, paths: seq<Path>, n: nat, broken: set<Path>)
    requires size > 0
    decreases |paths|
  {
    paths == [] ||
      var k := BatchSize(size, |paths|);
      && HonestBatch(runs, paths[..k], n, broken)
      && HonestRuns(runs, size, paths[k..], n + RunsOfBatch(runs, k, n), broken)
  }

  /** With an honest tool exactly the unimportable files fail, however files are batched. */
  lemma {:induction false} BatchingIsInvisible(runs: seq<Run>, size: nat, paths: seq<Path>, n: nat, broken: set<Path>, i: nat)
    requires size > 0 && HonestRuns(runs, size, paths, n, broken) && i < |paths|
    ensures Succeeded(DecisionAt(runs, size, |paths|, n, i), paths[i]) <==> paths[i] !in broken
    decreases |paths|
  {
    hide RunsOfBatch;
    var k := BatchSize(size, |paths|);
    if i >= k {
      BatchingIsInvisible(runs, size, paths[k..], n + RunsOfBatch(runs, k, n), broken, i - k);
    } else {
      var batch := paths[..k];
      assert batch[i] == paths[i] && batch[i] in batch && HonestBatch(runs, batch, n, broken);
      if Broke(RunAt(runs, n)) {
        assert HonestRun(RunAt(runs, n + 1 + i), [batch[i]], broken);
        assert [batch[i]][0] == batch[i];
      }
    }
  }

  /** How many of the commands of a run took effect: all, if it ended well. */
  function Commands(run: Run, total: nat): (k: nat)
    ensures k <= total
  {
    if run.Exited? && run.code == 0 then total else if run.executed < total then run.executed else total
  }

  // -- The device --------------------------------------------------------------

  class Zune {
    const runs: seq<Run>                         // of the tool, in order
    const batchSize: nat
    var ran: nat                                  // runs so far
    var objectIds: map<Path, ObjectId>
    const device: Device                          // with its playlists

    constructor (runs: seq<Run>, batchSize: int, device: Device)
      ensures this.batchSize == (if batchSize < 1 then 1 else batchSize)
      ensures this.runs == runs && this.device == device && ran == 0 && objectIds == map[]
    {
      this.runs, this.batchSize := runs, if batchSize < 1 then 1 else batchSize;
      ran, objectIds, this.device := 0, map[], device;
    }

    method Note(path: Path, run: Run)
      requires run.Exited?
      modifies this`objectIds
      ensures objectIds == match Said(run, path).objectId
                           case Some(id) => old(objectIds)[path := id]
                           case None => old(objectIds)
    {
      match Said(run, path).objectId {
        case Some(id) => objectIds := objectIds[path := id];
        case None =>
      }
    }

    method ImportOne(path: Path) returns (v: Verdict)
      modifies this`ran, this`objectIds
      ensures ran == old(ran) + 1
      ensures var d := Decision(true, RunAt(runs, old(ran)));
        && v == VerdictOf(d, path)
        && objectIds == (match ReportedId(d, path)
                         case Some(id) => old(objectIds)[path := id]
                         case None => old(objectIds))
    {
      var run := RunAt(runs, ran);
      ran := ran + 1;
      if run.TimedOut? {
        return Failed(TIMED_OUT);
      }
      if run.code != 0 {
        return Failed(run.lastLine);
      }
      Note(path, run);
      v := if Said(run, path).skipped then Skipped else Uploaded;
    }

    /** A path of a batch with this run: imported alone if the run broke. */
    method JudgePath(path: Path, run: Run, o: Outcome, ghost d: Decision) returns (r: Outcome)
      requires o.ids == objectIds
      requires d == if Broke(run) then Decision(true, RunAt(runs, ran)) else Decision(false, run)
      modifies this`ran, this`objectIds
      ensures ran == old(ran) + (if Broke(run) then 1 else 0) && r.ids == objectIds
      ensures r == Judge(o, d, path)
    {
      var v;
      if run.TimedOut? {
        v := Failed(TIMED_OUT);
      } else if run.code != 0 {
        v := ImportOne(path);
      } else {
        Note(path, run);
        v := if Said(run, path).error.Some? then Failed(Said(run, path).error.value)
             else if Said(run, path).skipped then Skipped
             else Uploaded;
      }
      r := o.(ids := objectIds);
      match v {
        case Uploaded => r := r.(uploaded := o.uploaded + [path]);
        case Skipped => r := r.(skipped := o.skipped + [path]);
        case Failed(error) => r := r.(failed := o.failed + [(path, error)]);
      }
    }

    /** The paths from start on in one run, retried path by path if the run breaks. */
    method ImportBatch(paths: seq<Path>, start: nat, end: nat, o: Outcome, ghost ds: seq<Decision>) returns (r: Outcome)
      requires start <= end <= |paths| == |ds| && o.ids == objectIds
      requires o == JudgeAll(ds[..start], paths[..start])
      requires IsBatch(runs, ds, start, end, ran)
      modifies this`ran, this`objectIds
      ensures r == JudgeAll(ds[..end], paths[..end]) && r.ids == objectIds
      ensures ran == old(ran) + RunsOfBatch(runs, end - start, old(ran))
    {
      hide Judge, JudgeAll, IsBatch;
      var run := RunAt(runs, ran);
      ran := ran + 1;
      r := o;
      for i := start to end
        invariant r == JudgeAll(ds[..i], paths[..i]) && r.ids == objectIds
        invariant ran == old(ran) + 1 + if Broke(run) then i - start else 0
      {
        JudgeNext(ds, paths, i);
        InBatchAt(runs, ds, start, end, old(ran), i);
        r := JudgePath(paths[i], run, r, ds[i]);
      }
    }

    /** import_tracks: every path is put in one list, in order, by the run that decides about it. */
    method ImportTracks(paths: seq<Path>) returns (o: Outcome)
      requires batchSize > 0
      modifies this`ran, this`objectIds
      ensures o == JudgeAll(Decisions(runs, batchSize, |paths|, old(ran)), paths) && o.ids == objectIds
      ensures Accounted(o) == multiset(paths)
    {
      hide JudgeAll, Decisions, Accounted, Remain, IsBatch;
      ghost var ds := Decisions(runs, batchSize, |paths|, ran);
      NothingJudged(runs, batchSize, paths, ran);
      objectIds := map[];
      o := NOTHING;
      var start := 0;
      while start < |paths|
        invariant start <= |paths| && o.ids == objectIds
        invariant o == JudgeAll(ds[..start], paths[..start])
        invariant Remain(runs, batchSize, ds, start, ran)
      {
        RemainStep(runs, batchSize, ds, start, ran);
        var end := start + BatchSize(batchSize, |paths| - start);
        o := ImportBatch(paths, start, end, o, ds);
        start := end;
      }
      assert ds[..start] == ds && paths[..start] == paths;
      Conserved(ds, paths);
    }

    /** One playlist: cleared and refilled by the commands of one run, or left alone without ids. */
    method BuildPlaylist(name: Name, ids: seq<ObjectId>) returns (error: Option<string>)
      requires device.Valid()
      modifies this`ran, device
      ensures device.Valid() && Built(name, ids, old(device.shelf), device.shelf, error.Some?)
      ensures ids == [] ==> error == None && ran == old(ran)
      ensures ids != [] ==> ran == old(ran) + 1
      ensures ids != [] && RunAt(runs, old(ran)).TimedOut? ==> error == Some("aft-mtp-cli timed out")
      ensures ids != [] && Broke(RunAt(runs, old(ran))) ==> error == Some(RunAt(runs, old(ran)).lastLine)
    {
      if ids == [] {
        return None;
      }
      var run := RunAt(runs, ran);
      ran := ran + 1;
      var done := Commands(run, 1 + |ids|);
      assert ids[..|ids|] == ids;
      var r := Ok(());
      if done > 0 {
        r := RebuildIn(device, name, ids[..done - 1]);
      }
      error := if run.TimedOut? then Some(TIMED_OUT)
               else if run.code != 0 then Some(run.lastLine)
               else if r.Err? then Some(FIRST_COMMAND)
               else None;
    }

    /** build_playlists: with names that read every playlist is settled, and no other is touched. */
    method BuildPlaylists(membership: seq<(Name, seq<ObjectId>)>) returns (errors: map<Name, string>)
      requires DistinctNames(membership) && device.Valid()
      modifies this`ran, device
      ensures device.Valid() && errors.Keys <= Names(membership)
      ensures AllNamesRead(membership) ==> AllSettled(membership, old(device.shelf), device.shelf, errors.Keys)
    {
      errors := map[];
      ghost var was := device.shelf;
      assert membership[..0] == [];
      for i := 0 to |membership|
        invariant device.Valid() && errors.Keys <= Names(membership[..i])
        invariant AllNamesRead(membership) ==> AllSettled(membership[..i], was, device.shelf, errors.Keys)
      {
        ghost var before, failed := device.shelf, errors.Keys;
        NameIsNew(membership, i);
        var error := BuildPlaylist(membership[i].0, membership[i].1);
        if error.Some? {
          errors := errors[membership[i].0 := error.value];
        }
        if AllNamesRead(membership) {
          SettledStep(membership, i, was, before, device.shelf, failed, errors.Keys, error.Some?);
        }
      }
      assert membership[..|membership|] == membership;
    }
  }

  predicate DistinctNames(membership: seq<(Name, seq<ObjectId>)>) {
    forall i, j | 0 <= i < j < |membership| :: membership[i].0 != membership[j].0
  }

  function Names(membership: seq<(Name, seq<ObjectId>)>): set<Name> {
    set m | m in membership :: m.0
  }

  /** Untouched, or the rebuild of some of the ids. */
  ghost predicate PartlyRebuilt(before: seq<ObjectId>, ids: seq<ObjectId>, after: seq<ObjectId>) {
    after == before || exists k | 0 <= k <= |ids| :: after == Canonical(ids[..k])
  }

  /** A playlist that should hold `ids`, after its run; `failed` tells of a reported error. */
  ghost predicate Settled(ids: seq<ObjectId>, before: seq<ObjectId>, after: seq<ObjectId>, failed: bool) {
    if failed then ids != [] && PartlyRebuilt(before, ids, after)
    else if ids != [] then after == Canonical(ids)
    else after == before
  }

  /** What is made of one playlist. */
  ghost predicate Built(name: Name, ids: seq<ObjectId>, was: Shelf, now: Shelf, failed: bool) {
    if failed then ids != [] && (now == was || exists k | 0 <= k <= |ids| :: Rebuilt(was, now, name, Canonical(ids[..k])))
    else if ids != [] then Rebuilt(was, now, name, Canonical(ids))
    else now == was
  }

  /** A playlist whose name reads is settled, and no other changes. */
  lemma BuiltMeaning(name: Name, ids: seq<ObjectId>, was: Shelf, now: Shelf, failed: bool)
    requires ShelfOk(was) && Built(name, ids, was, now, failed) && Reads(name)
    ensures Settled(ids, Listed(was, name), Listed(now, name), failed)
    ensures forall n | n != name :: Listed(now, n) == Listed(was, n)
  {
    if failed {
      if now != was {
        var k :| 0 <= k <= |ids| && Rebuilt(was, now, name, Canonical(ids[..k]));
        RebuiltMeaning(was, now, name, Canonical(ids[..k]));
      }
    } else if ids != [] {
      RebuiltMeaning(was, now, name, Canonical(ids));
    }
  }

  /** A name that does not read makes another playlist each time its run ends well. */
  lemma BuiltAnew(name: Name, ids: seq<ObjectId>, was: Shelf, now: Shelf)
    requires ShelfOk(was) && Built(name, ids, was, now, false) && ids != [] && !Reads(name)
    ensures |now| == |was| + 1 && now[|was|].tracks == Canonical(ids) && now[..|was|] == was
  {
    if At(was, name) < |was| {
      OnlyReadNames(was, name);
    }
  }

  ghost predicate AllNamesRead(membership: seq<(Name, seq<ObjectId>)>) {
    forall m | m in membership :: Reads(m.0)
  }

  ghost predicate AllSettled(membership: seq<(Name, seq<ObjectId>)>, was: Shelf, now: Shelf, failed: set<Name>) {
    && (forall n | n !in Names(membership) :: Listed(now, n) == Listed(was, n))
    && (forall m | m in membership :: Settled(m.1, Listed(was, m.0), Listed(now, m.0), m.0 in failed))
  }

  lemma SettledStep(membership: seq<(Name, seq<ObjectId>)>, i: nat, was: Shelf, before: Shelf, now: Shelf,
                    failed: set<Name>, failing: set<Name>, fails: bool)
    requires i < |membership| && DistinctNames(membership) && AllNamesRead(membership)
    requires ShelfOk(before) && AllSettled(membership[..i], was, before, failed) && failed <= Names(membership[..i])
    requires Built(membership[i].0, membership[i].1, before, now, fails)
    requires failing == if fails then failed + {membership[i].0} else failed
    ensures AllSettled(membership[..i + 1], was, now, failing)
  {
    NameIsNew(membership, i);
    BuiltMeaning(membership[i].0, membership[i].1, before, now, fails);
    forall m | m in membership[..i + 1]
      ensures Settled(m.1, Listed(was, m.0), Listed(now, m.0), m.0 in failing)
    {
      if m in membership[..i] {
        assert m.0 in Names(membership[..i]);
      }
    }
  }

  /** A settled playlist without an error holds what it should, except one that should be empty
      and was not. */
  lemma SettledRightIff(ids: seq<ObjectId>, before: seq<ObjectId>, after: seq<ObjectId>)
    requires Settled(ids, before, after, false)
    ensures IsCanonical(ids, after) <==> ids != [] || before == []
  {
    if ids != [] {
      CanonicalIsCanonical(ids);
    } else if before != [] {
      assert before[0] in after;
    }
  }

  lemma NameIsNew(membership: seq<(Name, seq<ObjectId>)>, i: nat)
    requires DistinctNames(membership) && i < |membership|
    ensures membership[i].0 !in Names(membership[..i])
    ensures Names(membership[..i + 1]) == Names(membership[..i]) + {membership[i].0}
  {
    assert membership[..i + 1] == membership[..i] + [membership[i]];
  }
}
