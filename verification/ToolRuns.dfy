/** What importing through tools/jellyfin-sync/jellyfin_sync/device.py does to the device: every run
    of the command line tool is a session that opens the library anew, imports the files of its
    command line one after the other, and ends at the first that fails. */
module ToolRuns {
  import opened Results
  import opened Sequences
  import opened AlbumIndex
  import opened Albums
  import I = Importing
  import Playlists

  type Path = I.Path

  /** How a run ends, whatever the device says: after at most so many commands, and by hanging if
      it does not exit. */
  datatype Fate = Fate(limit: nat, hangs: bool)

  /** One run of the tool: what it was asked to import, what it did, and what became of the device. */
  datatype Step = Step(asked: seq<Path>, was: State, did: seq<Imported>, run: I.Run, now: State)

  type Files = map<Path, Metadata>              // those that have any

  function MetadataOf(files: Files, paths: seq<Path>): (ms: seq<Metadata>)
    requires forall p | p in paths :: p in files
    ensures |ms| == |paths|
  {
    seq(|paths|, i requires 0 <= i < |paths| => files[paths[i]])
  }

  /** Where the first file without metadata is; the length if there is none. */
  function FirstWithout(files: Files, paths: seq<Path>): (n: nat)
    ensures n <= |paths| && forall i | 0 <= i < n :: paths[i] in files
  {
    if paths == [] || paths[0] !in files then 0 else 1 + FirstWithout(files, paths[1..])
  }

  /** A run over this file said that it was skipped. */
  predicate SkippedIn(asked: seq<Path>, did: seq<Imported>, path: Path) {
    exists i | 0 <= i < |asked| && i < |did| :: asked[i] == path && did[i].Skipped?
  }

  /** The commands of a run that took effect, */
  ghost predicate Did(files: Files, s: Step)
    requires StateOk(s.was) && StateOk(s.now)
  {
    && |s.did| == I.Commands(s.run, |s.asked|)
    && (forall p | p in s.asked[..|s.did|] :: p in files)
    && var ms := MetadataOf(files, s.asked[..|s.did|]);
       Told(s.was, ms, s.did) && FoundAfter(s.now, ms) && Identified(s.now.objects, ms, s.did)
  }

  /** and what a run says that ended well. */
  ghost predicate Tells(s: Step) {
    s.run.Exited? && s.run.code == 0 ==>
      && |s.did| == |s.asked|
      && forall p | p in s.asked ::
           && I.Said(s.run, p).objectId == Some(s.did[FirstAt(s.asked, p)].id)
           && (I.Said(s.run, p).skipped <==> SkippedIn(s.asked, s.did, p))
  }

  ghost predicate Happened(files: Files, s: Step) {
    StateOk(s.was) && StateOk(s.now) && Extends(s.was, s.now) && Did(files, s) && Tells(s)
  }

  /** Runs one after the other. */
  ghost predicate History(files: Files, h: seq<Step>) {
    && (forall j | 0 <= j < |h| :: Happened(files, h[j]))
    && forall j | 0 < j < |h| :: h[j].was == h[j - 1].now
  }

  lemma HistoryJoin(files: Files, a: seq<Step>, b: seq<Step>)
    requires History(files, a) && History(files, b) && (a != [] && b != [] ==> b[0].was == a[|a| - 1].now)
    ensures History(files, a + b) && RunsOf(a + b) == RunsOf(a) + RunsOf(b)
  {
    hide Happened;
    forall j | 0 <= j < |a + b|
      ensures Happened(files, (a + b)[j])
    {
    }
  }

  function RunsOf(h: seq<Step>): (runs: seq<I.Run>)
    ensures |runs| == |h|
  {
    seq(|h|, j requires 0 <= j < |h| => h[j].run)
  }

  lemma Grows(files: Files, s: Step)
    requires Happened(files, s)
    ensures Extends(s.was, s.now) && Extends(s.now, s.now)
  {
  }

  lemma {:induction false} OnlyGrows(files: Files, h: seq<Step>, i: nat, j: nat)
    requires History(files, h) && i < j < |h|
    ensures Extends(h[i].now, h[j].was)
    decreases j - i
  {
    hide Happened, Extends;
    Grows(files, h[i + 1]);
    if i + 1 < j {
      OnlyGrows(files, h, i + 1, j);
      ExtendsTransitive(h[i].now, h[i + 1].now, h[j].was);
    } else {
      Grows(files, h[i]);
    }
  }

  // -- The tool ----------------------------------------------------------------

  class Tool {
    const device: Device
    const support: Support
    const files: Files
    const fate: nat -> Fate                      // of each run
    const heard: Path -> Option<string>          // an error that the lines about a file are taken for
    var ran: nat

    constructor (device: Device, support: Support, files: Files, fate: nat -> Fate, heard: Path -> Option<string>)
      ensures this.device == device && this.support == support && this.files == files
      ensures this.fate == fate && this.heard == heard && ran == 0
    {
      this.device, this.support, this.files, this.fate, this.heard, ran := device, support, files, fate, heard, 0;
    }

    /** What the lines about a file say. */
    function ReportOn(asked: seq<Path>, did: seq<Imported>, path: Path): I.Report
      requires path in asked && |did| == |asked|
    {
      I.Report(Some(did[FirstAt(asked, path)].id), heard(path), SkippedIn(asked, did, path))
    }

    function Outcome(fate: Fate, asked: seq<Path>, did: seq<Imported>): (run: I.Run)
      requires |did| <= |asked|
      ensures I.Commands(run, |asked|) == |did|
      ensures run.Exited? && run.code == 0 ==> |did| == |asked|
      ensures run.Exited? && run.code == 0 ==>
        forall p | p in asked ::
          && I.Said(run, p).objectId == Some(did[FirstAt(asked, p)].id)
          && (I.Said(run, p).skipped <==> SkippedIn(asked, did, p))
    {
      if fate.hangs then I.TimedOut(|did|)
      else if |did| < |asked| then I.Exited(1, map[], "error", |did|)
      else I.Exited(0, map p | p in asked :: ReportOn(asked, did, p), "", |did|)
    }

    /** One run: the files with metadata, as far as it gets. */
    method Run(asked: seq<Path>) returns (run: I.Run, ghost s: Step)
      requires device.Valid()
      modifies this`ran, device
      ensures device.Valid()
      ensures s.asked == asked && s.run == run && s.was == old(device.Snapshot()) && s.now == device.Snapshot()
      ensures Happened(files, s)
    {
      hide StateOk, Extends, FoundAfter, Told, Identified, Outcome, AllFound, AllSkipped;
      var fate := fate(ran);
      ran := ran + 1;
      var upTo := FirstWithout(files, asked);
      upTo := if fate.limit < upTo then fate.limit else upTo;
      ghost var was := device.Snapshot();
      var did, error := ImportReopened(device, support, MetadataOf(files, asked[..upTo]));
      run := Outcome(fate, asked, did);
      s := Step(asked, was, did, run, device.Snapshot());
      ToldOf(was, MetadataOf(files, asked[..upTo]), did);
      assert MetadataOf(files, asked[..upTo])[..|did|] == MetadataOf(files, asked[..|did|]);
    }

    /** A batch, and again each of its files alone if that run breaks. */
    method ImportBatch(batch: seq<Path>) returns (runs: seq<I.Run>, ghost h: seq<Step>)
      requires device.Valid()
      modifies this`ran, device
      ensures device.Valid() && runs == RunsOf(h) && History(files, h) && IsBatch(h, batch)
      ensures h[0].was == old(device.Snapshot()) && h[|h| - 1].now == device.Snapshot()
    {
      hide Happened, StateOk;
      var run, s := Run(batch);
      runs, h := [run], [s];
      if I.Broke(run) {
        for i := 0 to |batch|
          invariant device.Valid() && |h| == i + 1 && runs == RunsOf(h) && History(files, h)
          invariant h[0] == s && h[i].now == device.Snapshot()
          invariant forall j | 0 < j <= i :: h[j].asked == [batch[j - 1]]
        {
          ghost var next;
          run, next := Run([batch[i]]);
          HistoryJoin(files, h, [next]);
          runs, h := runs + [run], h + [next];
        }
      }
    }

    /** All files, batch by batch. */
    method Import(paths: seq<Path>, size: nat) returns (runs: seq<I.Run>, ghost h: seq<Step>)
      requires device.Valid() && size > 0
      modifies this`ran, device
      ensures device.Valid() && runs == RunsOf(h) && History(files, h) && Scheduled(h, size, paths)
      ensures h != [] ==> h[0].was == old(device.Snapshot()) && h[|h| - 1].now == device.Snapshot()
      ensures h == [] ==> device.Snapshot() == old(device.Snapshot())
      decreases |paths|
    {
      hide Happened, StateOk;
      if paths == [] {
        return [], [];
      }
      ghost var first, rest;
      var now, later;
      now, first := ImportBatch(paths[..I.BatchSize(size, |paths|)]);
      later, rest := Import(paths[I.BatchSize(size, |paths|)..], size);
      HistoryJoin(files, first, rest);
      ScheduledFirst(first, rest, size, paths);
      runs, h := now + later, first + rest;
    }
  }

  /** What import_tracks returns when the tool is this one; see RetriedRightly. */
  method ImportTracks(tool: Tool, playlists: Playlists.Device, paths: seq<Path>, size: nat) returns (o: I.Outcome, ghost h: seq<Step>)
    requires tool.device.Valid() && size > 0
    modifies tool`ran, tool.device
    ensures tool.device.Valid() && History(tool.files, h) && Scheduled(h, size, paths)
    ensures h != [] ==> h[0].was == old(tool.device.Snapshot()) && h[|h| - 1].now == tool.device.Snapshot()
    ensures o == I.JudgeAll(I.Decisions(RunsOf(h), size, |paths|, 0), paths)
    ensures I.Accounted(o) == multiset(paths)
    ensures forall i | 0 <= i < |paths| :: RetryIsRight(tool.files, h, size, paths, i)
  {
    hide Scheduled, RetryIsRight, History, StateOk, I.JudgeAll, I.DecisionAt, I.Accounted;
    var runs;
    runs, h := tool.Import(paths, size);
    forall i | 0 <= i < |paths|
      ensures RetryIsRight(tool.files, h, size, paths, i)
    {
      RetriedSkipsIff(tool.files, h, size, paths, i);
    }
    var zune := new I.Zune(runs, size, playlists);
    o := zune.ImportTracks(paths);
  }

  lemma ScheduledFirst(first: seq<Step>, rest: seq<Step>, size: nat, paths: seq<Path>)
    requires size > 0 && paths != [] && IsBatch(first, paths[..I.BatchSize(size, |paths|)])
    requires Scheduled(rest, size, paths[I.BatchSize(size, |paths|)..])
    ensures Scheduled(first + rest, size, paths)
  {
    assert (first + rest)[..|first|] == first && (first + rest)[|first|..] == rest;
  }

  /** The runs of one batch. */
  ghost predicate IsBatch(h: seq<Step>, batch: seq<Path>) {
    && h != [] && h[0].asked == batch
    && |h| == I.RunsOfBatch(RunsOf(h), |batch|, 0)
    && forall i | 0 < i < |h| :: h[i].asked == [batch[i - 1]]
  }

  /** The runs of an import: those of the first batch, and so on. */
  ghost predicate Scheduled(h: seq<Step>, size: nat, paths: seq<Path>)
    requires size > 0
    decreases |paths|
  {
    if paths == [] then h == [] else
      var k := I.BatchSize(size, |paths|);
      h != [] &&
      var n := I.RunsOfBatch(RunsOf(h), k, 0);
      n <= |h| && IsBatch(h[..n], paths[..k]) && Scheduled(h[n..], size, paths[k..])
  }

  // -- What a run says -----------------------------------------------------------

  /** The same track came before on the command line. */
  predicate Repeated(files: Files, asked: seq<Path>, path: Path)
    requires forall p | p in asked :: p in files
  {
    path in asked && exists x | 0 <= x < |asked| && asked[x] == path :: Among(MetadataOf(files, asked[..x]), files[path])
  }

  /** A run that ends well reports `skipping` of a file exactly if the library it opened finds its
      track, or the run has just imported it. */
  lemma RunSkipsIff(files: Files, s: Step, path: Path)
    requires Happened(files, s) && s.run.Exited? && s.run.code == 0 && path in s.asked
    ensures forall p | p in s.asked :: p in files
    ensures I.Said(s.run, path).skipped <==> Finds(s.was, files[path]) || Repeated(files, s.asked, path)
  {
    hide Finds, Among, FoundAfter, Extends;
    assert s.asked[..|s.asked|] == s.asked;
    var ms := MetadataOf(files, s.asked);
    forall x | 0 <= x < |s.asked| && s.asked[x] == path
      ensures s.did[x].Skipped? <==> Finds(s.was, files[path]) || Among(MetadataOf(files, s.asked[..x]), files[path])
    {
      assert ms[..x] == MetadataOf(files, s.asked[..x]) && ms[x] == files[path];
    }
  }

  /** The id it reports is that of a track with the file's title and number, as the device keeps them. */
  lemma RunIdentifies(files: Files, s: Step, path: Path)
    requires Happened(files, s) && s.run.Exited? && s.run.code == 0 && path in s.asked
    ensures path in files && I.Said(s.run, path).objectId.Some?
    ensures Describes(Track(files[path].title, files[path].track, I.Said(s.run, path).objectId.value), s.now.objects)
  {
    hide Finds, Told, FoundAfter, Extends, Describes;
    assert s.asked[..|s.asked|] == s.asked;
    var n, ms := FirstAt(s.asked, path), MetadataOf(files, s.asked);
    assert Identified(s.now.objects, ms, s.did) && ms[n] == files[path];
  }

  // -- What is transferred again -------------------------------------------------

  /** The run of the batch that the i-th of `length` files is in, the n-th being that of the first
      batch, and the file's place in its batch. */
  function Place(runs: seq<I.Run>, size: nat, length: nat, n: nat, i: nat): (nat, nat)
    requires size > 0 && i < length
    decreases length
  {
    var k := I.BatchSize(size, length);
    if i < k then (n, i) else Place(runs, size, length - k, n + I.RunsOfBatch(runs, k, n), i - k)
  }

  lemma {:induction false} Shifted(runs: seq<I.Run>, size: nat, length: nat, m: nat, n: nat, i: nat)
    requires size > 0 && i < length && m <= |runs|
    ensures I.DecisionAt(runs, size, length, m + n, i) == I.DecisionAt(runs[m..], size, length, n, i)
    ensures var there := Place(runs[m..], size, length, n, i);
      Place(runs, size, length, m + n, i) == (m + there.0, there.1)
    decreases length
  {
    var k := I.BatchSize(size, length);
    ShiftedBatch(runs, m, n, i);
    if i >= k {
      Shifted(runs, size, length - k, m, n + I.RunsOfBatch(runs[m..], k, n), i - k);
    }
  }

  lemma ShiftedBatch(runs: seq<I.Run>, m: nat, n: nat, j: nat)
    requires m <= |runs|
    ensures I.RunAt(runs, m + n) == I.RunAt(runs[m..], n)
    ensures I.InBatch(runs, m + n, j) == I.InBatch(runs[m..], n, j)
  {
    assert I.RunAt(runs, m + n + 1 + j) == I.RunAt(runs[m..], n + 1 + j);
  }

  /** A file is decided about by the run of its batch, or by the one for it alone. */
  ghost predicate PlacedAt(h: seq<Step>, path: Path, d: I.Decision, at: (nat, nat)) {
    var (n, j) := at;
    && n < |h| && j < |h[n].asked| && h[n].asked[j] == path && d == I.InBatch(RunsOf(h), n, j)
    && (I.Broke(h[n].run) ==> n + 1 + j < |h| && h[n + 1 + j].asked == [path])
  }

  lemma {:induction false} Placed(h: seq<Step>, size: nat, paths: seq<Path>, i: nat)
    requires size > 0 && i < |paths| && Scheduled(h, size, paths)
    ensures PlacedAt(h, paths[i], I.DecisionAt(RunsOf(h), size, |paths|, 0, i), Place(RunsOf(h), size, |paths|, 0, i))
    decreases |paths|
  {
    hide PlacedAt, IsBatch, I.DecisionAt, Place;
    var k := I.BatchSize(size, |paths|);
    var m := I.RunsOfBatch(RunsOf(h), k, 0);
    if i < k {
      InFirstBatch(RunsOf(h), size, |paths|, i);
      PlacedFirst(h, m, paths[..k], i);
    } else {
      Placed(h[m..], size, paths[k..], i - k);
      ShiftedRest(h, size, |paths|, i);
      PlacedLater(h, m, paths[i], I.DecisionAt(RunsOf(h[m..]), size, |paths| - k, 0, i - k),
                  Place(RunsOf(h[m..]), size, |paths| - k, 0, i - k));
    }
  }

  lemma InFirstBatch(runs: seq<I.Run>, size: nat, length: nat, i: nat)
    requires size > 0 && i < I.BatchSize(size, length)
    ensures I.DecisionAt(runs, size, length, 0, i) == I.InBatch(runs, 0, i) && Place(runs, size, length, 0, i) == (0, i)
  {
  }

  lemma ShiftedRest(h: seq<Step>, size: nat, length: nat, i: nat)
    requires size > 0 && I.BatchSize(size, length) <= i < length
    requires I.RunsOfBatch(RunsOf(h), I.BatchSize(size, length), 0) <= |h|
    ensures var k := I.BatchSize(size, length);
      var m := I.RunsOfBatch(RunsOf(h), k, 0);
      var there := Place(RunsOf(h[m..]), size, length - k, 0, i - k);
      && I.DecisionAt(RunsOf(h), size, length, 0, i) == I.DecisionAt(RunsOf(h[m..]), size, length - k, 0, i - k)
      && Place(RunsOf(h), size, length, 0, i) == (m + there.0, there.1)
  {
    var k := I.BatchSize(size, length);
    var m := I.RunsOfBatch(RunsOf(h), k, 0);
    assert RunsOf(h[m..]) == RunsOf(h)[m..];
    Shifted(RunsOf(h), size, length - k, m, 0, i - k);
  }

  lemma PlacedFirst(h: seq<Step>, m: nat, batch: seq<Path>, i: nat)
    requires m <= |h| && IsBatch(h[..m], batch) && i < |batch|
    ensures PlacedAt(h, batch[i], I.InBatch(RunsOf(h), 0, i), (0, i))
  {
    assert h[..m][0] == h[0] && RunsOf(h[..m])[0] == h[0].run;
    if I.Broke(h[0].run) {
      assert h[..m][1 + i] == h[1 + i];
    }
  }

  lemma PlacedLater(h: seq<Step>, m: nat, path: Path, d: I.Decision, at: (nat, nat))
    requires m <= |h| && PlacedAt(h[m..], path, d, at)
    ensures PlacedAt(h, path, d, (m + at.0, at.1))
  {
    assert RunsOf(h[m..]) == RunsOf(h)[m..];
    ShiftedBatch(RunsOf(h), m, at.0, at.1);
    assert h[m..][at.0] == h[m + at.0];
  }

  /** What a run for one file says, if it ends well. */
  lemma RetryTells(files: Files, retry: Step, path: Path)
    requires Happened(files, retry) && retry.asked == [path] && retry.run.Exited? && retry.run.code == 0
    ensures path in files && |retry.did| == 1
    ensures I.Said(retry.run, path).skipped <==> retry.did[0].Skipped?
    ensures retry.did[0].Skipped? <==> Finds(retry.was, files[path])
  {
    assert retry.asked[..1] == [path] && [path][0] == path;
    var ms := MetadataOf(files, [path]);
    assert Told(retry.was, ms, retry.did) && ms[..0] == [];
    assert !Among([], ms[0]);
    assert SkippedIn([path], retry.did, path) <==> retry.did[0].Skipped?;
  }

  /** A file its batch's run had imported before that run broke, and whose own run ended well. */
  ghost predicate ImportedBefore(h: seq<Step>, d: I.Decision, at: (nat, nat), path: Path) {
    var (n, j) := at;
    n < |h| && I.Broke(h[n].run) && j < |h[n].did| && n + 1 + j < |h| && I.Succeeded(d, path)
  }

  /** The files a run imported have artists and albums that read back. */
  ghost predicate KeysRead(files: Files, s: Step) {
    |s.did| <= |s.asked| && forall p | p in s.asked[..|s.did|] && p in files :: KeyReads(files[p])
  }

  /** What the retry of an imported file reports: `skipping` exactly if the library it opened found the
      track, which takes artist, album, title and number to have survived, and no more where no album
      was made under names that do not. Otherwise it is transferred a second time. */
  ghost predicate RetriedRightly(files: Files, h: seq<Step>, d: I.Decision, at: (nat, nat), path: Path)
    requires at.0 + 1 + at.1 < |h| && StateOk(h[at.0 + 1 + at.1].was)
  {
    var first, retry, skipped := h[at.0], h[at.0 + 1 + at.1], I.VerdictOf(d, path).Skipped?;
    && path in files && retry.asked == [path] && |retry.did| == 1 && (retry.did[0].Skipped? <==> skipped)
    && (skipped <==> Finds(retry.was, files[path]))
    && (skipped ==> Reads(files[path]))
    && (KeysRead(files, first) && Reads(files[path]) ==> skipped)
  }

  ghost predicate RetryIsRight(files: Files, h: seq<Step>, size: nat, paths: seq<Path>, i: nat)
    requires size > 0 && i < |paths|
  {
    var d, at := I.DecisionAt(RunsOf(h), size, |paths|, 0, i), Place(RunsOf(h), size, |paths|, 0, i);
    ImportedBefore(h, d, at, paths[i]) ==>
      StateOk(h[at.0 + 1 + at.1].was) && RetriedRightly(files, h, d, at, paths[i])
  }

  lemma RetriedSkipsIff(files: Files, h: seq<Step>, size: nat, paths: seq<Path>, i: nat)
    requires size > 0 && i < |paths| && History(files, h) && Scheduled(h, size, paths)
    ensures RetryIsRight(files, h, size, paths, i)
  {
    hide Finds, Reads, KeysRead, Scheduled, StateOk, Extends, Did, Tells, I.DecisionAt, Place;
    var d, at := I.DecisionAt(RunsOf(h), size, |paths|, 0, i), Place(RunsOf(h), size, |paths|, 0, i);
    Placed(h, size, paths, i);
    if ImportedBefore(h, d, at, paths[i]) {
      assert Happened(files, h[at.0 + 1 + at.1]);
      RetriedSkips(files, h, at.0, at.1, paths[i]);
    }
  }

  lemma RetriedSkips(files: Files, h: seq<Step>, n: nat, j: nat, path: Path)
    requires History(files, h) && n + 1 + j < |h| && j < |h[n].did| && j < |h[n].asked| && h[n].asked[j] == path
    requires h[n + 1 + j].asked == [path] && h[n + 1 + j].run.Exited? && h[n + 1 + j].run.code == 0
    ensures var retry := h[n + 1 + j];
      && path in files && |retry.did| == 1 && (retry.did[0].Skipped? <==> I.Said(retry.run, path).skipped)
      && (retry.did[0].Skipped? <==> Finds(retry.was, files[path]))
      && (retry.did[0].Skipped? ==> Reads(files[path]))
      && (KeysRead(files, h[n]) && Reads(files[path]) ==> retry.did[0].Skipped?)
  {
    var first, retry := h[n], h[n + 1 + j];
    assert Happened(files, first) && Happened(files, retry);
    RetryTells(files, retry, path);
    if Finds(retry.was, files[path]) {
      FoundReads(retry.was, files[path]);
    }
    if KeysRead(files, first) && Reads(files[path]) {
      FoundAfterRun(files, first, j);
      OnlyGrows(files, h, n, n + 1 + j);
      FindsStays(first.now, retry.was, files[path]);
    }
  }

  lemma FoundAfterRun(files: Files, s: Step, j: nat)
    requires Happened(files, s) && j < |s.did| && j < |s.asked| && KeysRead(files, s)
    ensures s.asked[j] in files && (Reads(files[s.asked[j]]) ==> Finds(s.now, files[s.asked[j]]))
  {
    var done := s.asked[..|s.did|];
    var ms := MetadataOf(files, done);
    assert done[j] in done && ms[j] == files[s.asked[j]] && ms[j] in ms;
    forall m | m in ms
      ensures KeyReads(m)
    {
      var x :| 0 <= x < |ms| && ms[x] == m;
      assert done[x] in done;
    }
  }

  /** A broken batch costs no second transfer if and only if artist, album, title and number of every
      file it had imported survive the way to the device and back: all their runs report `skipping`. */
  lemma NothingTwiceIff(files: Files, h: seq<Step>, batch: seq<Path>)
    requires History(files, h) && IsBatch(h, batch) && I.Broke(h[0].run)
    requires forall j | 0 <= j < |h[0].did| :: I.Succeeded(I.InBatch(RunsOf(h), 0, j), batch[j])
    ensures forall p | p in batch[..|h[0].did|] :: p in files
    ensures forall i | 0 < i <= |h[0].did| :: |h[i].did| == 1
    ensures (forall i | 0 < i <= |h[0].did| :: h[i].did[0].Skipped?)
       <==> (forall p | p in batch[..|h[0].did|] :: Reads(files[p]))
  {
    hide Finds, Reads, StateOk, Extends, Did, Tells;
    DidFiles(files, h[0]);
    var done := batch[..|h[0].did|];
    forall i | 0 < i <= |done|
      ensures |h[i].did| == 1 && (h[i].did[0].Skipped? ==> Reads(files[batch[i - 1]]))
      ensures KeysRead(files, h[0]) && Reads(files[batch[i - 1]]) ==> h[i].did[0].Skipped?
    {
      RetriedOne(files, h, batch, i);
    }
    if forall i | 0 < i <= |done| :: h[i].did[0].Skipped? {
      forall p | p in done
        ensures Reads(files[p])
      {
        var x :| 0 <= x < |done| && done[x] == p;
        assert h[x + 1].did[0].Skipped?;
      }
    }
    if forall p | p in done :: Reads(files[p]) {
      AllRead(files, h[0]);
      forall i | 0 < i <= |done|
        ensures h[i].did[0].Skipped?
      {
        assert done[i - 1] in done;
      }
    }
  }

  lemma RetriedOne(files: Files, h: seq<Step>, batch: seq<Path>, i: nat)
    requires History(files, h) && IsBatch(h, batch) && I.Broke(h[0].run) && 0 < i <= |h[0].did| <= |batch|
    requires I.Succeeded(I.InBatch(RunsOf(h), 0, i - 1), batch[i - 1])
    ensures batch[i - 1] in files && |h[i].did| == 1 && (h[i].did[0].Skipped? ==> Reads(files[batch[i - 1]]))
    ensures KeysRead(files, h[0]) && Reads(files[batch[i - 1]]) ==> h[i].did[0].Skipped?
  {
    RetriedSkips(files, h, 0, i - 1, batch[i - 1]);
  }

  lemma AllRead(files: Files, s: Step)
    requires Happened(files, s) && forall p | p in s.asked[..|s.did|] && p in files :: Reads(files[p])
    ensures KeysRead(files, s)
  {
    DidFiles(files, s);
    hide KeyReads;
    forall p | p in s.asked[..|s.did|]
      ensures KeyReads(files[p])
    {
      KeyOfRead(files[p]);
    }
  }

  lemma DidFiles(files: Files, s: Step)
    requires Happened(files, s)
    ensures |s.did| <= |s.asked| && forall p | p in s.asked[..|s.did|] :: p in files
  {
  }

  lemma KeyOfRead(m: Metadata)
    ensures Reads(m) ==> KeyReads(m)
  {
  }
}
