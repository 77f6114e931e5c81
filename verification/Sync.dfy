/** One synchronisation run, from tools/jellyfin-sync/jellyfin_sync/sync.py: what a run adds to
    the state and to the device's playlists. Downloading, transcoding and tagging are parameters. */
module Sync {
  import opened Results
  import opened ObjectIds
  import opened Sequences
  import opened Playlists
  import opened Importing
  import opened SyncState

  datatype Track = Track(id: TrackId, description: string, playlists: set<Name>)

  datatype Prepared = Prepared(track: Track, path: Path, source: string)

  predicate DistinctIds(tracks: seq<Track>) {
    forall i, j | 0 <= i < j < |tracks| :: tracks[i].id != tracks[j].id
  }

  // -- Collecting --------------------------------------------------------------

  function Ids(tracks: seq<Track>): (ids: seq<TrackId>)
    ensures |ids| == |tracks|
  {
    seq(|tracks|, i requires 0 <= i < |tracks| => tracks[i].id)
  }

  /** The first track with an id. */
  function First(found: seq<Track>, id: TrackId): (k: nat)
    ensures k <= |found| && (k < |found| ==> found[k].id == id)
    ensures forall i | 0 <= i < k :: found[i].id != id
  {
    assert forall i | 0 <= i < |found| :: Ids(found)[i] == found[i].id;
    FirstAt(Ids(found), id)
  }

  /** Every playlist that any track with this id is in. */
  function PlaylistsOf(found: seq<Track>, id: TrackId): set<Name> {
    if found == [] then {} else
      var t := found[|found| - 1];
      PlaylistsOf(found[..|found| - 1], id) + if t.id == id then t.playlists else {}
  }

  lemma {:induction false} PlaylistsOfMeaning(found: seq<Track>, id: TrackId, name: Name)
    ensures name in PlaylistsOf(found, id) <==> exists t | t in found :: t.id == id && name in t.playlists
  {
    if found != [] {
      var k := |found| - 1;
      PlaylistsOfMeaning(found[..k], id, name);
      assert forall t :: t in found <==> t in found[..k] || t == found[k];
    }
  }

  /** Described as found first, in all playlists it was found in. */
  ghost predicate MergedFrom(found: seq<Track>, m: Track) {
    var k := First(found, m.id);
    k < |found| && m.description == found[k].description && m.playlists == PlaylistsOf(found, m.id)
  }

  ghost predicate AllCovered(found: seq<Track>, merged: seq<Track>) {
    forall t | t in found :: First(merged, t.id) < |merged|
  }

  ghost predicate AllMerged(found: seq<Track>, merged: seq<Track>) {
    forall i | 0 <= i < |merged| :: MergedFrom(found, merged[i])
  }

  ghost predicate InOrder(found: seq<Track>, merged: seq<Track>) {
    forall i, j | 0 <= i < j < |merged| :: First(found, merged[i].id) < First(found, merged[j].id)
  }

  /** Each id found is there once, in the order found. */
  ghost predicate IsMerged(found: seq<Track>, merged: seq<Track>) {
    AllCovered(found, merged) && AllMerged(found, merged) && InOrder(found, merged)
  }

  lemma FirstSnoc(found: seq<Track>, t: Track, id: TrackId)
    ensures First(found + [t], id) ==
      if First(found, id) < |found| then First(found, id) else if t.id == id then |found| else |found| + 1
  {
    assert Ids(found + [t]) == Ids(found) + [t.id];
    FirstAtSnoc(Ids(found), t.id, id);
  }

  /** A merged track stays right when another one is found, and takes the playlists of its own. */
  lemma MergedFromSnoc(found: seq<Track>, t: Track, m: Track)
    requires MergedFrom(found, m)
    ensures First(found + [t], m.id) == First(found, m.id)
    ensures MergedFrom(found + [t], if m.id == t.id then m.(playlists := m.playlists + t.playlists) else m)
  {
    FirstSnoc(found, t, m.id);
    assert (found + [t])[..|found|] == found;
    assert (found + [t])[First(found, m.id)] == found[First(found, m.id)];
  }

  /** The first of its id is right as it is. */
  lemma {:induction false} NewIsMerged(found: seq<Track>, t: Track)
    requires First(found, t.id) == |found|
    ensures First(found + [t], t.id) == |found| && MergedFrom(found + [t], t)
  {
    FirstSnoc(found, t, t.id);
    NoPlaylists(found, t.id);
    assert (found + [t])[..|found|] == found;
  }

  lemma {:induction false} NoPlaylists(found: seq<Track>, id: TrackId)
    requires forall t | t in found :: t.id != id
    ensures PlaylistsOf(found, id) == {}
  {
    if found != [] {
      NoPlaylists(found[..|found| - 1], id);
    }
  }

  lemma OrderKept(found: seq<Track>, t: Track, merged: seq<Track>)
    requires AllMerged(found, merged) && InOrder(found, merged)
    ensures InOrder(found + [t], merged)
  {
    forall i, j | 0 <= i < j < |merged|
      ensures First(found + [t], merged[i].id) < First(found + [t], merged[j].id)
    {
      MergedFromSnoc(found, t, merged[i]);
      MergedFromSnoc(found, t, merged[j]);
    }
  }

  lemma CoverAppend(found: seq<Track>, merged: seq<Track>, t: Track)
    requires AllCovered(found, merged)
    ensures AllCovered(found + [t], merged + [t])
  {
    forall u | u in found + [t]
      ensures First(merged + [t], u.id) < |merged + [t]|
    {
      FirstSnoc(merged, t, u.id);
    }
  }

  lemma MergedAppend(found: seq<Track>, merged: seq<Track>, t: Track)
    requires AllMerged(found, merged) && First(found, t.id) == |found|
    ensures AllMerged(found + [t], merged + [t])
  {
    NewIsMerged(found, t);
    forall i | 0 <= i < |merged|
      ensures MergedFrom(found + [t], merged[i])
    {
      MergedFromSnoc(found, t, merged[i]);
      assert found[First(found, merged[i].id)] in found;
    }
  }

  lemma InOrderSnoc(all: seq<Track>, merged: seq<Track>, t: Track)
    requires InOrder(all, merged)
    requires forall i | 0 <= i < |merged| :: First(all, merged[i].id) < First(all, t.id)
    ensures InOrder(all, merged + [t])
  {
  }

  lemma OrderAppend(found: seq<Track>, merged: seq<Track>, t: Track)
    requires AllMerged(found, merged) && InOrder(found, merged) && First(found, t.id) == |found|
    ensures InOrder(found + [t], merged + [t])
  {
    OrderKept(found, t, merged);
    NewIsMerged(found, t);
    forall i | 0 <= i < |merged|
      ensures First(found + [t], merged[i].id) < |found|
    {
      MergedFromSnoc(found, t, merged[i]);
    }
    InOrderSnoc(found + [t], merged, t);
  }

  /** Nothing is new that is not new to the merged list. */
  lemma NewToAll(found: seq<Track>, merged: seq<Track>, id: TrackId)
    requires AllCovered(found, merged) && First(merged, id) == |merged|
    ensures First(found, id) == |found|
  {
  }

  /** First depends on the ids alone. */
  lemma SameFirst(a: seq<Track>, b: seq<Track>, id: TrackId)
    requires |a| == |b| && forall i | 0 <= i < |a| :: a[i].id == b[i].id
    ensures First(a, id) == First(b, id)
  {
    assert Ids(a) == Ids(b);
  }

  function Absorb(merged: seq<Track>, k: nat, t: Track): seq<Track>
    requires k < |merged|
  {
    merged[k := merged[k].(playlists := merged[k].playlists + t.playlists)]
  }

  lemma CoverUpdate(found: seq<Track>, merged: seq<Track>, t: Track, k: nat)
    requires AllCovered(found, merged) && k < |merged| && merged[k].id == t.id
    ensures AllCovered(found + [t], Absorb(merged, k, t))
  {
    forall u | u in found + [t]
      ensures First(Absorb(merged, k, t), u.id) < |merged|
    {
      SameFirst(merged, Absorb(merged, k, t), u.id);
    }
  }

  lemma MergedUpdate(found: seq<Track>, merged: seq<Track>, t: Track, k: nat)
    requires AllMerged(found, merged) && InOrder(found, merged) && k < |merged| && merged[k].id == t.id
    ensures AllMerged(found + [t], Absorb(merged, k, t)) && InOrder(found + [t], Absorb(merged, k, t))
  {
    var now := Absorb(merged, k, t);
    forall i | 0 <= i < |now|
      ensures MergedFrom(found + [t], now[i])
    {
      MergedFromSnoc(found, t, merged[i]);
    }
    OrderKept(found, t, merged);
  }

  /** collect: each track once, by id, in every playlist that it was found in. */
  method Collect(found: seq<Track>) returns (merged: seq<Track>)
    ensures IsMerged(found, merged) && DistinctIds(merged)
    ensures forall m, name | m in merged ::
      name in m.playlists <==> exists t | t in found :: t.id == m.id && name in t.playlists
  {
    merged := Merge(found);
    forall m, name | m in merged
      ensures name in m.playlists <==> exists t | t in found :: t.id == m.id && name in t.playlists
    {
      var i :| 0 <= i < |merged| && merged[i] == m;
      assert MergedFrom(found, merged[i]);
      PlaylistsOfMeaning(found, m.id, name);
    }
  }

  method Merge(found: seq<Track>) returns (merged: seq<Track>)
    ensures IsMerged(found, merged) && DistinctIds(merged)
  {
    merged := [];
    for i := 0 to |found|
      invariant IsMerged(found[..i], merged)
    {
      var t := found[i];
      assert found[..i + 1] == found[..i] + [t];
      var k := First(merged, t.id);
      if k < |merged| {
        CoverUpdate(found[..i], merged, t, k);
        MergedUpdate(found[..i], merged, t, k);
        merged := Absorb(merged, k, t);
      } else {
        NewToAll(found[..i], merged, t.id);
        CoverAppend(found[..i], merged, t);
        MergedAppend(found[..i], merged, t);
        OrderAppend(found[..i], merged, t);
        merged := merged + [t];
      }
    }
    assert found[..|found|] == found;
  }

  // -- What a run uploads --------------------------------------------------------

  /** The tracks the device is not known to have; all of them when forced. */
  function Pending(b: Bucket, tracks: seq<Track>, force: bool): seq<Track> {
    if tracks == [] then []
    else Pending(b, tracks[..|tracks| - 1], force)
         + if force || tracks[|tracks| - 1].id !in b.tracks then [tracks[|tracks| - 1]] else []
  }

  /** A slice up to `limit`, which counts from the end when negative. */
  function Limited(tracks: seq<Track>, limit: Option<int>): seq<Track> {
    match limit
    case None => tracks
    case Some(n) =>
      if n >= |tracks| then tracks
      else if n >= 0 then tracks[..n]
      else if |tracks| + n > 0 then tracks[..|tracks| + n] else []
  }

  /** Those that remain are the first ones: n of them at most, or all but the last -n. */
  lemma LimitedMeaning(tracks: seq<Track>, n: int)
    ensures Limited(tracks, None) == tracks && Limited(tracks, Some(n)) <= tracks
    ensures n >= 0 ==> |Limited(tracks, Some(n))| == if n <= |tracks| then n else |tracks|
    ensures n < 0 ==> |Limited(tracks, Some(n))| == if -n <= |tracks| then |tracks| + n else 0
  {
  }

  /** What preparing a track comes to: a staged file, or an exception after that file was written.
      A track without an entry failed before. */
  datatype Preparation = Ready(path: Path, source: string) | Broken(path: Path)

  type Staging = map<TrackId, Preparation>

  predicate IsReady(staging: Staging, id: TrackId) {
    id in staging && staging[id].Ready?
  }

  function Prepare(staging: Staging, pending: seq<Track>): seq<Prepared> {
    if pending == [] then [] else
      var t := pending[|pending| - 1];
      Prepare(staging, pending[..|pending| - 1])
      + if IsReady(staging, t.id) then [Prepared(t, staging[t.id].path, staging[t.id].source)] else []
  }

  /** The track whose audio a staged file holds once all are prepared: the last that wrote it. */
  function Holder(staging: Staging, pending: seq<Track>, path: Path): Option<Track> {
    if pending == [] then None else
      var t := pending[|pending| - 1];
      if t.id in staging && staging[t.id].path == path then Some(t)
      else Holder(staging, pending[..|pending| - 1], path)
  }

  function Paths(ps: seq<Prepared>): (r: seq<Path>)
    ensures |r| == |ps|
  {
    seq(|ps|, i requires 0 <= i < |ps| => ps[i].path)
  }

  /** by_path: of several items staged under one path the last remains. */
  function ByPath(ps: seq<Prepared>): (m: map<Path, Prepared>)
    ensures forall x | x in ps :: x.path in m
  {
    if ps == [] then map[] else ByPath(ps[..|ps| - 1])[ps[|ps| - 1].path := ps[|ps| - 1]]
  }

  function EntryOf(item: Prepared, ids: map<Path, ObjectId>): Entry {
    Entry(item.track.description, item.path, item.source, if item.path in ids then Some(ids[item.path]) else None)
  }

  /** The state after recording the paths. */
  function RecordAll(b: Bucket, items: map<Path, Prepared>, ids: map<Path, ObjectId>, paths: seq<Path>): Bucket
    requires forall p | p in paths :: p in items
  {
    if paths == [] then b else
      var item := items[paths[|paths| - 1]];
      Recorded(RecordAll(b, items, ids, paths[..|paths| - 1]), item.track.id, EntryOf(item, ids))
  }

  predicate DistinctTracks(ps: seq<Prepared>) {
    forall i, j | 0 <= i < j < |ps| :: ps[i].track.id != ps[j].track.id
  }

  lemma {:induction false} ByPathMeaning(ps: seq<Prepared>)
    ensures forall p :: p in ByPath(ps) <==> exists i | 0 <= i < |ps| :: ps[i].path == p
    ensures forall p | p in ByPath(ps) :: ByPath(ps)[p] in ps && ByPath(ps)[p].path == p
  {
    if ps != [] {
      var front := ps[..|ps| - 1];
      ByPathMeaning(front);
      forall p
        ensures p in ByPath(ps) <==> exists i | 0 <= i < |ps| :: ps[i].path == p
      {
        if i :| 0 <= i < |ps| && ps[i].path == p {
          assert i < |front| ==> front[i].path == p;
        }
        if p in ByPath(front) {
          var i :| 0 <= i < |front| && front[i].path == p;
          assert ps[i].path == p;
        }
        assert ps[|ps| - 1].path == p ==> p in ByPath(ps);
      }
    }
  }

  /** Recording adds exactly the tracks of the paths, and forgets no object id. */
  lemma {:induction false} RecordAllMeaning(b: Bucket, items: map<Path, Prepared>, ids: map<Path, ObjectId>, paths: seq<Path>, id: TrackId)
    requires forall p | p in paths :: p in items
    ensures var after := RecordAll(b, items, ids, paths);
      && after.playlists == b.playlists
      && (id in after.tracks <==> id in b.tracks || exists p | p in paths :: items[p].track.id == id)
      && (KnownId(b, id).Some? ==> KnownId(after, id).Some?)
  {
    if paths != [] {
      var k := |paths| - 1;
      RecordAllMeaning(b, items, ids, paths[..k], id);
      var item := items[paths[k]];
      RecordedMeaning(RecordAll(b, items, ids, paths[..k]), item.track.id, EntryOf(item, ids));
      assert forall p :: p in paths <==> p in paths[..k] || p == paths[k];
    }
  }

  /** The entry tells what was prepared. */
  predicate Tells(entry: Entry, item: Prepared) {
    entry.description == item.track.description && entry.filename == item.path && entry.source == item.source
  }

  /** Every entry is that of an item recorded now, or as it was. */
  lemma {:induction false} RecordAllEntries(b: Bucket, items: map<Path, Prepared>, ids: map<Path, ObjectId>, paths: seq<Path>, id: TrackId)
    requires forall p | p in paths :: p in items
    requires id in RecordAll(b, items, ids, paths).tracks
    ensures var entry := RecordAll(b, items, ids, paths).tracks[id];
      if exists p | p in paths :: items[p].track.id == id
      then exists p | p in paths :: items[p].track.id == id && Tells(entry, items[p])
      else id in b.tracks && entry == b.tracks[id]
  {
    if paths != [] {
      var k := |paths| - 1;
      var item, before := items[paths[k]], RecordAll(b, items, ids, paths[..k]);
      RecordedMeaning(before, item.track.id, EntryOf(item, ids));
      assert forall p :: p in paths <==> p in paths[..k] || p == paths[k];
      if item.track.id == id {
        assert Tells(RecordAll(b, items, ids, paths).tracks[id], items[paths[k]]);
      } else {
        RecordAllEntries(b, items, ids, paths[..k], id);
      }
    }
  }

  /** A recorded track has the id reported for its path, or else the one known before. */
  lemma {:induction false} RecordAllIds(b: Bucket, items: map<Path, Prepared>, ids: map<Path, ObjectId>, paths: seq<Path>, at: Path)
    requires at in paths && forall p | p in paths :: p in items && items[p].path == p
    requires forall p, q | p in items && q in items && items[p].track.id == items[q].track.id :: p == q
    ensures KnownId(RecordAll(b, items, ids, paths), items[at].track.id)
         == if at in ids then Some(ids[at]) else KnownId(b, items[at].track.id)
  {
    var k := |paths| - 1;
    var id, front := items[at].track.id, RecordAll(b, items, ids, paths[..k]);
    RecordedMeaning(front, items[paths[k]].track.id, EntryOf(items[paths[k]], ids));
    if at in paths[..k] {
      RecordAllIds(b, items, ids, paths[..k], at);
    } else {
      OthersKeepIds(b, items, ids, paths[..k], id);
    }
  }

  lemma {:induction false} OthersKeepIds(b: Bucket, items: map<Path, Prepared>, ids: map<Path, ObjectId>, paths: seq<Path>, id: TrackId)
    requires forall p | p in paths :: p in items && items[p].track.id != id
    ensures KnownId(RecordAll(b, items, ids, paths), id) == KnownId(b, id)
  {
    if paths != [] {
      var k := |paths| - 1;
      OthersKeepIds(b, items, ids, paths[..k], id);
      RecordedMeaning(RecordAll(b, items, ids, paths[..k]), items[paths[k]].track.id, EntryOf(items[paths[k]], ids));
    }
  }

  /** The state after an upload with these decisions. */
  function AfterUpload(b: Bucket, ps: seq<Prepared>, ds: seq<Decision>): Bucket
    requires |ds| == |ps|
  {
    var o := JudgeAll(ds, Paths(ps));
    AllByPath(ps, ds);
    RecordAll(b, ByPath(ps), o.ids, OnDevice(o))
  }

  lemma AllByPath(ps: seq<Prepared>, ds: seq<Decision>)
    requires |ds| == |ps|
    ensures forall p | p in OnDevice(JudgeAll(ds, Paths(ps))) :: p in ByPath(ps)
  {
    ByPathMeaning(ps);
    forall p | p in OnDevice(JudgeAll(ds, Paths(ps)))
      ensures p in ByPath(ps)
    {
      OnDeviceMeaning(ds, Paths(ps), p);
      var i :| 0 <= i < |ds| && Paths(ps)[i] == p && Succeeded(ds[i], p);
      assert ps[i].path == p;
    }
  }

  /** The item found for a path that was uploaded or skipped is this track's. */
  ghost predicate OwnerSucceeded(ps: seq<Prepared>, ds: seq<Decision>, id: TrackId)
    requires |ds| == |ps|
  {
    exists i | 0 <= i < |ps| :: Succeeded(ds[i], ps[i].path) && ByPath(ps)[ps[i].path].track.id == id
  }

  /** Recorded are exactly the tracks last prepared under a path that succeeded, whoever shares it. */
  lemma OwnersRecorded(b: Bucket, ps: seq<Prepared>, ds: seq<Decision>, id: TrackId)
    requires |ds| == |ps|
    ensures id in AfterUpload(b, ps, ds).tracks <==> id in b.tracks || OwnerSucceeded(ps, ds, id)
  {
    var o := JudgeAll(ds, Paths(ps));
    AllByPath(ps, ds);
    RecordAllMeaning(b, ByPath(ps), o.ids, OnDevice(o), id);
    if p :| p in OnDevice(o) && ByPath(ps)[p].track.id == id {
      OnDeviceMeaning(ds, Paths(ps), p);
      var i :| 0 <= i < |ds| && Paths(ps)[i] == p && Succeeded(ds[i], p);
      assert Succeeded(ds[i], ps[i].path) && ByPath(ps)[ps[i].path].track.id == id;
    }
    if OwnerSucceeded(ps, ds, id) {
      var i :| 0 <= i < |ps| && Succeeded(ds[i], ps[i].path) && ByPath(ps)[ps[i].path].track.id == id;
      OnDeviceMeaning(ds, Paths(ps), ps[i].path);
      assert Paths(ps)[i] == ps[i].path;
    }
  }

  /** What is recorded of a track is what was prepared as such, or what was recorded before. */
  lemma RecordedAsPrepared(b: Bucket, ps: seq<Prepared>, ds: seq<Decision>, id: TrackId)
    requires |ds| == |ps| && id in AfterUpload(b, ps, ds).tracks
    ensures var entry := AfterUpload(b, ps, ds).tracks[id];
      if OwnerSucceeded(ps, ds, id) then exists x | x in ps :: x.track.id == id && Tells(entry, x)
      else id in b.tracks && entry == b.tracks[id]
  {
    hide Tells;
    var o, items := JudgeAll(ds, Paths(ps)), ByPath(ps);
    AllByPath(ps, ds);
    ByPathMeaning(ps);
    RecordAllEntries(b, items, o.ids, OnDevice(o), id);
    if p :| p in OnDevice(o) && items[p].track.id == id {
      OwnerByPath(ps, ds, p);
    }
    if OwnerSucceeded(ps, ds, id) {
      var i :| 0 <= i < |ps| && Succeeded(ds[i], ps[i].path) && items[ps[i].path].track.id == id;
      OnDeviceMeaning(ds, Paths(ps), ps[i].path);
      assert Paths(ps)[i] == ps[i].path;
    }
  }

  lemma {:induction false} OwnerByPath(ps: seq<Prepared>, ds: seq<Decision>, p: Path)
    requires |ds| == |ps| && p in OnDevice(JudgeAll(ds, Paths(ps))) && p in ByPath(ps)
    ensures OwnerSucceeded(ps, ds, ByPath(ps)[p].track.id)
  {
    OnDeviceMeaning(ds, Paths(ps), p);
    var i :| 0 <= i < |ds| && Paths(ps)[i] == p && Succeeded(ds[i], p);
    assert Succeeded(ds[i], ps[i].path) && ByPath(ps)[ps[i].path].track.id == ByPath(ps)[p].track.id;
  }

  // -- Whose audio reaches the device ----------------------------------------

  /** A path was uploaded or skipped, and its file held this track. */
  ghost predicate Landed(staging: Staging, pending: seq<Track>, ds: seq<Decision>, id: TrackId)
    requires |ds| == |Prepare(staging, pending)|
  {
    var ps := Prepare(staging, pending);
    exists i | 0 <= i < |ps| :: Succeeded(ds[i], ps[i].path) && Holds(staging, pending, ps[i].path, id)
  }

  predicate Holds(staging: Staging, pending: seq<Track>, path: Path, id: TrackId) {
    Holder(staging, pending, path).Some? && Holder(staging, pending, path).value.id == id
  }

  /** No file was overwritten for good by a track whose preparation then failed. */
  ghost predicate Unspoiled(staging: Staging, pending: seq<Track>) {
    forall p | p in ByPath(Prepare(staging, pending)) ::
      Holder(staging, pending, p).Some? && IsReady(staging, Holder(staging, pending, p).value.id)
  }

  /** A file that holds a prepared track holds the one by_path finds. */
  lemma {:induction false} HolderIsOwner(staging: Staging, pending: seq<Track>, path: Path)
    requires path in ByPath(Prepare(staging, pending))
    ensures Holder(staging, pending, path).Some? && Holder(staging, pending, path).value.id in staging
    ensures IsReady(staging, Holder(staging, pending, path).value.id) ==>
      ByPath(Prepare(staging, pending))[path].track == Holder(staging, pending, path).value
  {
    var k := |pending| - 1;
    var front, t := Prepare(staging, pending[..k]), pending[k];
    if IsReady(staging, t.id) {
      var all := Prepare(staging, pending);
      assert all[..|all| - 1] == front;
    } else {
      assert front + [] == front;
    }
    if !(t.id in staging && staging[t.id].path == path) {
      HolderIsOwner(staging, pending[..k], path);
    }
  }

  lemma {:induction false} PreparedAreReady(staging: Staging, pending: seq<Track>)
    ensures forall x | x in Prepare(staging, pending) ::
      x.track in pending && IsReady(staging, x.track.id) && x.path == staging[x.track.id].path
    ensures forall t | t in pending && IsReady(staging, t.id) ::
      Prepared(t, staging[t.id].path, staging[t.id].source) in Prepare(staging, pending)
  {
    if pending != [] {
      var k := |pending| - 1;
      PreparedAreReady(staging, pending[..k]);
      assert forall t :: t in pending <==> t in pending[..k] || t == pending[k];
    }
  }

  /** The state gains exactly the tracks whose audio was uploaded or found on the device. */
  ghost predicate RecordsExactly(b: Bucket, staging: Staging, pending: seq<Track>, ds: seq<Decision>)
    requires |ds| == |Prepare(staging, pending)|
  {
    forall id :: id in AfterUpload(b, Prepare(staging, pending), ds).tracks
            <==> id in b.tracks || Landed(staging, pending, ds, id)
  }

  lemma OwnersLand(staging: Staging, pending: seq<Track>, ds: seq<Decision>, id: TrackId)
    requires |ds| == |Prepare(staging, pending)| && Unspoiled(staging, pending)
    ensures OwnerSucceeded(Prepare(staging, pending), ds, id) <==> Landed(staging, pending, ds, id)
  {
    var ps := Prepare(staging, pending);
    forall i | 0 <= i < |ps|
      ensures ByPath(ps)[ps[i].path].track.id == id <==> Holds(staging, pending, ps[i].path, id)
    {
      HolderIsOwner(staging, pending, ps[i].path);
    }
  }

  /** A file overwritten for good: the track it holds goes to the device unrecorded. */
  lemma SpoiledMisleads(staging: Staging, pending: seq<Track>, path: Path) returns (ds: seq<Decision>)
    requires path in ByPath(Prepare(staging, pending)) && Holder(staging, pending, path).Some?
    requires !IsReady(staging, Holder(staging, pending, path).value.id)
    ensures |ds| == |Prepare(staging, pending)| && !RecordsExactly(EMPTY, staging, pending, ds)
  {
    var ps, id := Prepare(staging, pending), Holder(staging, pending, path).value.id;
    ds := seq(|ps|, k => Decision(false, Exited(0, map[], "", 1)));
    ByPathMeaning(ps);
    var i :| 0 <= i < |ps| && ps[i].path == path;
    assert Succeeded(ds[i], ps[i].path) && Holds(staging, pending, ps[i].path, id);
    UnreadyIsNoOwner(staging, pending, ds, id);
    OwnersRecorded(EMPTY, ps, ds, id);
    assert !(id in AfterUpload(EMPTY, ps, ds).tracks <==> Landed(staging, pending, ds, id));
  }

  lemma UnreadyIsNoOwner(staging: Staging, pending: seq<Track>, ds: seq<Decision>, id: TrackId)
    requires |ds| == |Prepare(staging, pending)| && !IsReady(staging, id)
    ensures !OwnerSucceeded(Prepare(staging, pending), ds, id)
  {
    var ps := Prepare(staging, pending);
    ByPathMeaning(ps);
    PreparedAreReady(staging, pending);
    forall p | p in ByPath(ps)
      ensures ByPath(ps)[p].track.id != id
    {
      assert ByPath(ps)[p] in ps;
    }
  }

  /** Tracks are recorded exactly as their audio reaches the device, whatever the tool does, whatever
      was known before and whoever shares a path, if and only if no file was overwritten for good by
      a track whose preparation then failed. */
  lemma RecordsExactlyIff(staging: Staging, pending: seq<Track>)
    ensures (forall b: Bucket, ds: seq<Decision> | |ds| == |Prepare(staging, pending)| :: RecordsExactly(b, staging, pending, ds))
       <==> Unspoiled(staging, pending)
  {
    if Unspoiled(staging, pending) {
      forall b: Bucket, ds: seq<Decision> | |ds| == |Prepare(staging, pending)|
        ensures RecordsExactly(b, staging, pending, ds)
      {
        forall id: TrackId
          ensures id in AfterUpload(b, Prepare(staging, pending), ds).tracks
             <==> id in b.tracks || Landed(staging, pending, ds, id)
        {
          OwnersRecorded(b, Prepare(staging, pending), ds, id);
          OwnersLand(staging, pending, ds, id);
        }
      }
    } else {
      var p :| p in ByPath(Prepare(staging, pending))
            && !(Holder(staging, pending, p).Some? && IsReady(staging, Holder(staging, pending, p).value.id));
      HolderIsOwner(staging, pending, p);
      var ds := SpoiledMisleads(staging, pending, p);
    }
  }

  lemma {:induction false} PendingMeaning(b: Bucket, tracks: seq<Track>, force: bool, t: Track)
    ensures t in Pending(b, tracks, force) <==> t in tracks && (force || t.id !in b.tracks)
  {
    if tracks != [] {
      var k := |tracks| - 1;
      PendingMeaning(b, tracks[..k], force, t);
      assert t in tracks <==> t in tracks[..k] || t == tracks[k];
    }
  }

  /** And in the order of the tracks. */
  lemma {:induction false} PendingInOrder(b: Bucket, tracks: seq<Track>, force: bool)
    requires DistinctIds(tracks)
    ensures InOrder(tracks, Pending(b, tracks, force))
  {
    hide InOrder, Pending, First;
    if tracks == [] {
      NothingPending(b, force);
    } else {
      var k := |tracks| - 1;
      var front, pending := tracks[..k], Pending(b, tracks[..k], force);
      PendingInOrder(b, front, force);
      forall i | 0 <= i < |pending|
        ensures First(tracks, pending[i].id) == First(front, pending[i].id) < k
      {
        PendingMeaning(b, front, force, pending[i]);
        FirstOfFront(tracks, pending[i]);
      }
      LastIsLast(tracks);
      PendingStep(b, tracks, force);
      SameOrder(front, tracks, pending);
      InOrderSnoc(tracks, pending, tracks[k]);
    }
  }

  lemma NothingPending(b: Bucket, force: bool)
    ensures InOrder([], Pending(b, [], force))
  {
  }

  lemma PendingStep(b: Bucket, tracks: seq<Track>, force: bool)
    requires tracks != []
    ensures var k := |tracks| - 1;
      Pending(b, tracks, force) == Pending(b, tracks[..k], force)
      || Pending(b, tracks, force) == Pending(b, tracks[..k], force) + [tracks[k]]
  {
  }

  lemma SameOrder(a: seq<Track>, b: seq<Track>, ts: seq<Track>)
    requires InOrder(a, ts) && forall i | 0 <= i < |ts| :: First(b, ts[i].id) == First(a, ts[i].id)
    ensures InOrder(b, ts)
  {
  }

  lemma FirstOfFront(tracks: seq<Track>, t: Track)
    requires tracks != [] && t in tracks[..|tracks| - 1]
    ensures First(tracks, t.id) == First(tracks[..|tracks| - 1], t.id) < |tracks| - 1
  {
    var front := tracks[..|tracks| - 1];
    FirstSnoc(front, tracks[|tracks| - 1], t.id);
    assert tracks == front + [tracks[|tracks| - 1]];
  }

  lemma LastIsLast(tracks: seq<Track>)
    requires DistinctIds(tracks) && tracks != []
    ensures First(tracks, tracks[|tracks| - 1].id) == |tracks| - 1
  {
  }

  /** What the next run has to do is exactly what was not known before and was not last prepared
      under a path that succeeded now. */
  lemma NextPending(b: Bucket, tracks: seq<Track>, ps: seq<Prepared>, ds: seq<Decision>, t: Track)
    requires |ds| == |ps|
    ensures t in Pending(AfterUpload(b, ps, ds), tracks, false)
       <==> t in tracks && t.id !in b.tracks && !OwnerSucceeded(ps, ds, t.id)
  {
    PendingMeaning(AfterUpload(b, ps, ds), tracks, false, t);
    OwnersRecorded(b, ps, ds, t.id);
  }

  /** No run forgets a track or an object id. */
  lemma NothingForgotten(b: Bucket, ps: seq<Prepared>, ds: seq<Decision>, id: TrackId)
    requires |ds| == |ps|
    ensures id in b.tracks ==> id in AfterUpload(b, ps, ds).tracks
    ensures KnownId(b, id).Some? ==> KnownId(AfterUpload(b, ps, ds), id).Some?
  {
    var o := JudgeAll(ds, Paths(ps));
    AllByPath(ps, ds);
    RecordAllMeaning(b, ByPath(ps), o.ids, OnDevice(o), id);
  }

  // -- Tracks that share a path ------------------------------------------------

  /** Prepared without fail under this path, and not known to be on the device. */
  predicate Waits(known: set<TrackId>, staging: Staging, path: Path, t: Track) {
    t.id !in known && IsReady(staging, t.id) && staging[t.id].path == path
  }

  function Waiting(known: set<TrackId>, staging: Staging, path: Path, tracks: seq<Track>): nat {
    if tracks == [] then 0
    else Waiting(known, staging, path, tracks[..|tracks| - 1])
         + if Waits(known, staging, path, tracks[|tracks| - 1]) then 1 else 0
  }

  lemma {:induction false} SomeWait(known: set<TrackId>, staging: Staging, path: Path, tracks: seq<Track>)
    ensures Waiting(known, staging, path, tracks) == 0 <==> forall t | t in tracks :: !Waits(known, staging, path, t)
  {
    if tracks != [] {
      SomeWait(known, staging, path, tracks[..|tracks| - 1]);
      assert forall t :: t in tracks <==> t in tracks[..|tracks| - 1] || t == tracks[|tracks| - 1];
    }
  }

  /** If all but w wait as before, one less does. */
  lemma {:induction false} OneLess(known: set<TrackId>, now: set<TrackId>, staging: Staging, path: Path, tracks: seq<Track>, w: Track)
    requires DistinctIds(tracks) && Waits(known, staging, path, w)
    requires forall t | t in tracks :: Waits(now, staging, path, t) <==> Waits(known, staging, path, t) && t.id != w.id
    ensures Waiting(now, staging, path, tracks) + (if exists t | t in tracks :: t.id == w.id then 1 else 0)
         == Waiting(known, staging, path, tracks)
  {
    if tracks != [] {
      var k := |tracks| - 1;
      OneLess(known, now, staging, path, tracks[..k], w);
      assert forall t :: t in tracks <==> t in tracks[..k] || t == tracks[k];
      forall t | t in tracks[..k]
        ensures t.id != tracks[k].id
      {
        var i :| 0 <= i < k && tracks[i] == t;
      }
    }
  }

  ghost predicate AllSucceed(ps: seq<Prepared>, ds: seq<Decision>) {
    |ds| == |ps| && forall i | 0 <= i < |ps| :: Succeeded(ds[i], ps[i].path)
  }

  /** What a run prepares that may do everything. */
  function Everything(b: Bucket, tracks: seq<Track>, staging: Staging): seq<Prepared> {
    Prepare(staging, Pending(b, tracks, false))
  }

  lemma OwnerWaits(b: Bucket, tracks: seq<Track>, staging: Staging, path: Path)
    requires path in ByPath(Everything(b, tracks, staging))
    ensures var w := ByPath(Everything(b, tracks, staging))[path].track;
      w in tracks && Waits(b.tracks.Keys, staging, path, w)
  {
    var ps := Everything(b, tracks, staging);
    ByPathMeaning(ps);
    PreparedAreReady(staging, Pending(b, tracks, false));
    PendingMeaning(b, tracks, false, ByPath(ps)[path].track);
  }

  lemma OwnersKnown(ps: seq<Prepared>, ds: seq<Decision>, b: Bucket, id: TrackId)
    requires AllSucceed(ps, ds)
    ensures id in AfterUpload(b, ps, ds).tracks
       <==> id in b.tracks || exists p | p in ByPath(ps) :: ByPath(ps)[p].track.id == id
  {
    OwnersRecorded(b, ps, ds, id);
    if p :| p in ByPath(ps) && ByPath(ps)[p].track.id == id {
      ByPathMeaning(ps);
      var i :| 0 <= i < |ps| && ps[i].path == p;
      assert Succeeded(ds[i], ps[i].path) && ByPath(ps)[ps[i].path].track.id == id;
    }
  }

  /** After a run in which nothing fails a track waits unless by_path finds it. */
  lemma StillWaits(b: Bucket, tracks: seq<Track>, staging: Staging, ds: seq<Decision>, path: Path, t: Track)
    requires AllSucceed(Everything(b, tracks, staging), ds)
    ensures var ps := Everything(b, tracks, staging);
      Waits(AfterUpload(b, ps, ds).tracks.Keys, staging, path, t)
      <==> Waits(b.tracks.Keys, staging, path, t) && !(path in ByPath(ps) && ByPath(ps)[path].track.id == t.id)
  {
    var ps := Everything(b, tracks, staging);
    OwnersKnown(ps, ds, b, t.id);
    if Waits(b.tracks.Keys, staging, path, t) {
      if p :| p in ByPath(ps) && ByPath(ps)[p].track.id == t.id {
        OwnerWaits(b, tracks, staging, p);
        assert p == path;
      }
    }
  }

  /** Nobody waits under a path nothing was prepared for. */
  lemma NobodyWaits(b: Bucket, tracks: seq<Track>, staging: Staging, path: Path)
    requires path !in ByPath(Everything(b, tracks, staging))
    ensures forall t | t in tracks :: !Waits(b.tracks.Keys, staging, path, t)
  {
    PreparedAreReady(staging, Pending(b, tracks, false));
    forall t | t in tracks
      ensures !Waits(b.tracks.Keys, staging, path, t)
    {
      PendingMeaning(b, tracks, false, t);
    }
  }

  /** A run in which nothing fails records one track of each path. */
  lemma RunRecordsOne(b: Bucket, tracks: seq<Track>, staging: Staging, ds: seq<Decision>, path: Path)
    requires DistinctIds(tracks) && AllSucceed(Everything(b, tracks, staging), ds)
    ensures var n := Waiting(b.tracks.Keys, staging, path, tracks);
      Waiting(AfterUpload(b, Everything(b, tracks, staging), ds).tracks.Keys, staging, path, tracks)
      == if n == 0 then 0 else n - 1
  {
    var ps := Everything(b, tracks, staging);
    var known, now := b.tracks.Keys, AfterUpload(b, ps, ds).tracks.Keys;
    forall t | t in tracks
      ensures Waits(now, staging, path, t)
         <==> Waits(known, staging, path, t) && !(path in ByPath(ps) && ByPath(ps)[path].track.id == t.id)
    {
      StillWaits(b, tracks, staging, ds, path, t);
    }
    if path in ByPath(ps) {
      OwnerWaits(b, tracks, staging, path);
      OneLess(known, now, staging, path, tracks, ByPath(ps)[path].track);
    } else {
      NobodyWaits(b, tracks, staging, path);
      SomeWait(known, staging, path, tracks);
      SomeWait(now, staging, path, tracks);
    }
  }

  /** Runs over the same tracks, one after the other, in which nothing fails. */
  ghost predicate GoodRuns(b: Bucket, tracks: seq<Track>, staging: Staging, runs: seq<seq<Decision>>)
    decreases |runs|
  {
    runs == [] ||
      var ps := Everything(b, tracks, staging);
      AllSucceed(ps, runs[0]) && GoodRuns(AfterUpload(b, ps, runs[0]), tracks, staging, runs[1..])
  }

  ghost function AfterRuns(b: Bucket, tracks: seq<Track>, staging: Staging, runs: seq<seq<Decision>>): Bucket
    requires GoodRuns(b, tracks, staging, runs)
    decreases |runs|
  {
    if runs == [] then b
    else AfterRuns(AfterUpload(b, Everything(b, tracks, staging), runs[0]), tracks, staging, runs[1..])
  }

  lemma {:induction false} EachRunRecordsOne(b: Bucket, tracks: seq<Track>, staging: Staging, runs: seq<seq<Decision>>, path: Path)
    requires DistinctIds(tracks) && GoodRuns(b, tracks, staging, runs)
    ensures var n := Waiting(b.tracks.Keys, staging, path, tracks);
      Waiting(AfterRuns(b, tracks, staging, runs).tracks.Keys, staging, path, tracks)
      == if n <= |runs| then 0 else n - |runs|
    decreases |runs|
  {
    if runs != [] {
      RunRecordsOne(b, tracks, staging, runs[0], path);
      EachRunRecordsOne(AfterUpload(b, Everything(b, tracks, staging), runs[0]), tracks, staging, runs[1..], path);
    }
  }

  ghost predicate ShareAtMost(known: set<TrackId>, staging: Staging, tracks: seq<Track>, n: nat) {
    forall path :: Waiting(known, staging, path, tracks) <= n
  }

  ghost predicate AllKnown(known: set<TrackId>, staging: Staging, tracks: seq<Track>) {
    forall t | t in tracks && IsReady(staging, t.id) :: t.id in known
  }

  /** How many runs it takes: after n runs without failures every track that can be prepared is
      recorded if and only if no more than n unknown ones share a path. */
  lemma RunsNeeded(b: Bucket, tracks: seq<Track>, staging: Staging, runs: seq<seq<Decision>>)
    requires DistinctIds(tracks) && GoodRuns(b, tracks, staging, runs)
    ensures AllKnown(AfterRuns(b, tracks, staging, runs).tracks.Keys, staging, tracks)
       <==> ShareAtMost(b.tracks.Keys, staging, tracks, |runs|)
  {
    var now := AfterRuns(b, tracks, staging, runs).tracks.Keys;
    if AllKnown(now, staging, tracks) {
      forall path
        ensures Waiting(b.tracks.Keys, staging, path, tracks) <= |runs|
      {
        NoneLeftIff(b, tracks, staging, runs, path);
      }
    }
    if ShareAtMost(b.tracks.Keys, staging, tracks, |runs|) {
      forall t | t in tracks && IsReady(staging, t.id)
        ensures t.id in now
      {
        NoneLeftIff(b, tracks, staging, runs, staging[t.id].path);
        assert !Waits(now, staging, staging[t.id].path, t);
      }
    }
  }

  lemma NoneLeftIff(b: Bucket, tracks: seq<Track>, staging: Staging, runs: seq<seq<Decision>>, path: Path)
    requires DistinctIds(tracks) && GoodRuns(b, tracks, staging, runs)
    ensures Waiting(b.tracks.Keys, staging, path, tracks) <= |runs|
       <==> forall t | t in tracks :: !Waits(AfterRuns(b, tracks, staging, runs).tracks.Keys, staging, path, t)
  {
    EachRunRecordsOne(b, tracks, staging, runs, path);
    SomeWait(AfterRuns(b, tracks, staging, runs).tracks.Keys, staging, path, tracks);
  }

  // -- Playlists ---------------------------------------------------------------

  /** The members of a playlist that have an id, in the order of the tracks. */
  function Members<T>(tracks: seq<Track>, idOf: map<TrackId, T>, name: Name): seq<T> {
    if tracks == [] then [] else
      var t := tracks[|tracks| - 1];
      Members(tracks[..|tracks| - 1], idOf, name)
      + if name in t.playlists && t.id in idOf then [idOf[t.id]] else []
  }

  lemma {:induction false} MembersConcat<T>(a: seq<Track>, b: seq<Track>, idOf: map<TrackId, T>, name: Name)
    ensures Members(a + b, idOf, name) == Members(a, idOf, name) + Members(b, idOf, name)
    decreases |b|
  {
    if b == [] {
      assert a + b == a;
    } else {
      var k := |b| - 1;
      MembersConcat(a, b[..k], idOf, name);
      assert (a + b)[|a + b| - 1] == b[k] && (a + b)[..|a + b| - 1] == a + b[..k];
    }
  }

  /** The ids of the tracks in the playlist, one after the other: a track's known object, */
  lemma KnownMembers(t: Track, b: Bucket, name: Name)
    ensures Members([t], KnownIds(b), name)
         == if name in t.playlists && t.id in b.tracks && b.tracks[t.id].objectId.Some? then [b.tracks[t.id].objectId.value] else []
  {
    assert [t][..0] == [];
  }

  /** or its own id. */
  lemma OwnMembers(t: Track, tracks: seq<Track>, name: Name)
    requires t in tracks
    ensures Members([t], OwnIds(tracks), name) == if name in t.playlists then [t.id] else []
  {
    assert [t][..0] == [];
  }

  function Get<T>(m: map<Name, seq<T>>, name: Name): seq<T> {
    if name in m then m[name] else []
  }

  function OrElse<T>(found: seq<T>, before: seq<T>): seq<T> {
    if found != [] then found else before
  }

  /** One list for each playlist that has such members. */
  method Gather<T>(tracks: seq<Track>, idOf: map<TrackId, T>) returns (m: map<Name, seq<T>>)
    ensures forall n :: Get(m, n) == Members(tracks, idOf, n)
    ensures forall n | n in m :: m[n] != []
  {
    m := map[];
    for i := 0 to |tracks|
      invariant forall n :: Get(m, n) == Members(tracks[..i], idOf, n)
      invariant forall n | n in m :: m[n] != []
    {
      m := GatherOne(m, tracks[i], idOf);
      assert tracks[..i + 1][..i] == tracks[..i];
    }
    assert tracks[..|tracks|] == tracks;
  }

  method GatherOne<T>(m: map<Name, seq<T>>, t: Track, idOf: map<TrackId, T>) returns (r: map<Name, seq<T>>)
    requires forall n | n in m :: m[n] != []
    ensures forall n :: Get(r, n) == Get(m, n) + if n in t.playlists && t.id in idOf then [idOf[t.id]] else []
    ensures forall n | n in r :: r[n] != []
  {
    r := m;
    if t.id !in idOf {
      return;
    }
    var left := t.playlists;
    while left != {}
      invariant left <= t.playlists
      invariant forall n :: Get(r, n) == Get(m, n) + if n in t.playlists - left then [idOf[t.id]] else []
      invariant forall n | n in r :: r[n] != []
    {
      var n :| n in left;
      r := r[n := Get(r, n) + [idOf[t.id]]];
      left := left - {n};
    }
  }

  /** The items of a membership, in some order. */
  method Items(m: map<Name, seq<ObjectId>>) returns (q: seq<(Name, seq<ObjectId>)>)
    ensures DistinctNames(q) && Names(q) == m.Keys && forall x | x in q :: m[x.0] == x.1
  {
    q := [];
    var left := m.Keys;
    while left != {}
      invariant left <= m.Keys && DistinctNames(q) && Names(q) == m.Keys - left
      invariant forall x | x in q :: x.0 in m && m[x.0] == x.1
    {
      var n :| n in left;
      assert forall i | 0 <= i < |q| :: q[i] in q && q[i].0 in Names(q);
      NamesSnoc(q, (n, m[n]));
      q := q + [(n, m[n])];
      left := left - {n};
    }
  }

  lemma NamesSnoc(q: seq<(Name, seq<ObjectId>)>, x: (Name, seq<ObjectId>))
    ensures Names(q + [x]) == Names(q) + {x.0}
  {
    assert forall y :: y in q + [x] <==> y in q || y == x;
    assert x in q + [x];
  }

  /** The object ids known for tracks. */
  function KnownIds(b: Bucket): map<TrackId, ObjectId> {
    map id | id in b.tracks && b.tracks[id].objectId.Some? :: b.tracks[id].objectId.value
  }

  function OwnIds(tracks: seq<Track>): map<TrackId, TrackId> {
    map t | t in tracks :: t.id := t.id
  }

  // -- A run -------------------------------------------------------------------

  datatype Options = Options(limit: Option<int>, force: bool, dryRun: bool, prepareOnly: bool) {
    predicate OnlyLooks() {
      dryRun || prepareOnly
    }
  }

  function Todo(b: Bucket, tracks: seq<Track>, options: Options): seq<Track> {
    Limited(Pending(b, tracks, options.force), options.limit)
  }

  /** The items a run uploads. */
  function Work(b: Bucket, tracks: seq<Track>, options: Options, staging: Staging): seq<Prepared> {
    if options.OnlyLooks() then [] else Prepare(staging, Todo(b, tracks, options))
  }

  /** Whether a run gets as far as the device's playlists. */
  predicate ReachesPlaylists(b: Bucket, tracks: seq<Track>, options: Options, staging: Staging) {
    !options.OnlyLooks() && tracks != [] && (Todo(b, tracks, options) == [] || Work(b, tracks, options, staging) != [])
  }

  lemma {:induction false} PendingDistinct(b: Bucket, tracks: seq<Track>, force: bool)
    requires DistinctIds(tracks)
    ensures DistinctIds(Pending(b, tracks, force))
  {
    if tracks != [] {
      var k := |tracks| - 1;
      PendingDistinct(b, tracks[..k], force);
      forall t | t in Pending(b, tracks[..k], force)
        ensures t.id != tracks[k].id
      {
        PendingMeaning(b, tracks[..k], force, t);
      }
    }
  }

  lemma {:induction false} PrepareDistinct(staging: Staging, pending: seq<Track>)
    requires DistinctIds(pending)
    ensures DistinctTracks(Prepare(staging, pending)) && forall p | p in Prepare(staging, pending) :: p.track in pending
  {
    if pending != [] {
      var k := |pending| - 1;
      PrepareDistinct(staging, pending[..k]);
      forall p | p in Prepare(staging, pending[..k])
        ensures p.track in pending && p.track.id != pending[k].id
      {
        assert p.track in pending[..k];
      }
    }
  }

  /** A run never uploads a track twice. */
  lemma WorkIsDistinct(b: Bucket, tracks: seq<Track>, options: Options, staging: Staging)
    requires DistinctIds(tracks)
    ensures DistinctTracks(Work(b, tracks, options, staging))
  {
    PendingDistinct(b, tracks, options.force);
    PrepareDistinct(staging, Todo(b, tracks, options));
  }

  /** The playlists that are built have names that read. */
  ghost predicate NamesRead(tracks: seq<Track>, idOf: map<TrackId, ObjectId>) {
    forall n | Members(tracks, idOf, n) != [] :: Reads(n)
  }

  /** Then each playlist is settled. */
  ghost predicate Rebuilds(tracks: seq<Track>, idOf: map<TrackId, ObjectId>, was: Shelf, now: Shelf, failed: set<Name>) {
    NamesRead(tracks, idOf) ==> forall n :: Settled(Members(tracks, idOf, n), Listed(was, n), Listed(now, n), n in failed)
  }

  lemma AllRebuilt(membership: map<Name, seq<ObjectId>>, items: seq<(Name, seq<ObjectId>)>, was: Shelf, now: Shelf, failed: set<Name>)
    requires Names(items) == membership.Keys && failed <= Names(items)
    requires forall x | x in items :: membership[x.0] == x.1
    requires forall n | n in membership :: membership[n] != []
    requires AllNamesRead(items) ==> AllSettled(items, was, now, failed)
    requires forall n | Get(membership, n) != [] :: Reads(n)
    ensures forall n :: Settled(Get(membership, n), Listed(was, n), Listed(now, n), n in failed)
  {
    forall x | x in items
      ensures Reads(x.0)
    {
      assert Get(membership, x.0) != [];
    }
    forall n
      ensures Settled(Get(membership, n), Listed(was, n), Listed(now, n), n in failed)
    {
      if n in membership {
        assert n in Names(items);
        var m :| m in items && m.0 == n;
      } else {
        assert n !in Names(items);
      }
    }
  }

  class Syncer {
    const zune: Zune
    const state: State

    constructor (zune: Zune, state: State)
      ensures this.zune == zune && this.state == state
    {
      this.zune, this.state := zune, state;
    }

    /** sync_playlists: with names that read, every playlist holds the tracks known to be on the device
        or its run failed; one that lost its last such track is left as it was. */
    method SyncPlaylists(tracks: seq<Track>) returns (code: int, ghost failed: set<Name>)
      requires zune.device.Valid()
      modifies zune`ran, zune.device
      ensures zune.device.Valid() && code == (if failed == {} then 0 else 1)
      ensures Rebuilds(tracks, KnownIds(state.Bucket()), old(zune.device.shelf), zune.device.shelf, failed)
    {
      var membership := Gather(tracks, KnownIds(state.Bucket()));
      if membership == map[] {
        return 0, {};
      }
      var items := Items(membership);
      var errors := zune.BuildPlaylists(items);
      code, failed := if errors == map[] then 0 else 1, errors.Keys;
      if NamesRead(tracks, KnownIds(state.Bucket())) {
        AllRebuilt(membership, items, old(zune.device.shelf), zune.device.shelf, failed);
      }
    }

    /** _record_playlists: the memberships found replace those recorded; others stay. */
    method RecordPlaylists(tracks: seq<Track>)
      modifies state`devices
      ensures forall d | d != state.device :: BucketOf(state.devices, d) == BucketOf(old(state.devices), d)
      ensures state.Bucket().tracks == old(state.Bucket()).tracks
      ensures forall n :: Get(state.Bucket().playlists, n)
                       == OrElse(Members(tracks, OwnIds(tracks), n), Get(old(state.Bucket()).playlists, n))
    {
      var membership := Gather(tracks, OwnIds(tracks));
      var left := membership.Keys;
      while left != {}
        invariant left <= membership.Keys
        invariant forall d | d != state.device :: BucketOf(state.devices, d) == BucketOf(old(state.devices), d)
        invariant state.Bucket().tracks == old(state.Bucket()).tracks
        invariant forall n :: Get(state.Bucket().playlists, n)
                           == if n in membership && n !in left then membership[n] else Get(old(state.Bucket()).playlists, n)
      {
        var n :| n in left;
        state.RecordPlaylist(n, membership[n]);
        left := left - {n};
      }
      assert forall n :: n in membership <==> Get(membership, n) != [];
    }

    method RecordItem(item: Prepared, ids: map<Path, ObjectId>)
      modifies state`devices
      ensures forall d | d != state.device :: BucketOf(state.devices, d) == BucketOf(old(state.devices), d)
      ensures state.Bucket() == Recorded(old(state.Bucket()), item.track.id, EntryOf(item, ids))
    {
      var id := if item.path in ids then Some(ids[item.path]) else None;
      state.Record(item.track.id, item.track.description, item.path, item.source, id);
    }

    /** Recording what was uploaded or found on the device. */
    method RecordTracks(ps: seq<Prepared>, o: Outcome, ghost ds: seq<Decision>)
      requires |ds| == |ps| && o == JudgeAll(ds, Paths(ps))
      modifies state`devices
      ensures forall d | d != state.device :: BucketOf(state.devices, d) == BucketOf(old(state.devices), d)
      ensures state.Bucket() == AfterUpload(old(state.Bucket()), ps, ds)
    {
      var items, paths := ByPath(ps), OnDevice(o);
      AllByPath(ps, ds);
      for i := 0 to |paths|
        invariant forall d | d != state.device :: BucketOf(state.devices, d) == BucketOf(old(state.devices), d)
        invariant state.Bucket() == RecordAll(old(state.Bucket()), items, o.ids, paths[..i])
      {
        RecordNext(old(state.Bucket()), items, o.ids, paths, i);
        RecordItem(items[paths[i]], o.ids);
      }
      assert paths[..|paths|] == paths;
    }

    /** The second half of a run: import, record, rebuild the playlists. */
    method Upload(prepared: seq<Prepared>, tracks: seq<Track>) returns (code: int, ghost ds: seq<Decision>, ghost failed: set<Name>)
      requires zune.batchSize > 0 && zune.device.Valid()
      modifies state`devices, zune, zune.device
      ensures zune.device.Valid()
      ensures forall d | d != state.device :: BucketOf(state.devices, d) == BucketOf(old(state.devices), d)
      ensures ds == Decisions(zune.runs, zune.batchSize, |prepared|, old(zune.ran))
      ensures state.Bucket().tracks == AfterUpload(old(state.Bucket()), prepared, ds).tracks
      ensures forall n :: Get(state.Bucket().playlists, n)
                       == OrElse(Members(tracks, OwnIds(tracks), n), Get(old(state.Bucket()).playlists, n))
      ensures code == (if AllSucceed(prepared, ds) then 0 else 1)
      ensures Rebuilds(tracks, KnownIds(state.Bucket()), old(zune.device.shelf), zune.device.shelf, failed)
    {
      ds := Decisions(zune.runs, zune.batchSize, |prepared|, zune.ran);
      var o := zune.ImportTracks(Paths(prepared));
      NoFailures(ds, Paths(prepared));
      UploadKeepsPlaylists(state.Bucket(), prepared, ds);
      RecordTracks(prepared, o, ds);
      RecordPlaylists(tracks);
      var ignored;
      ignored, failed := SyncPlaylists(tracks);
      code := if o.failed == [] then 0 else 1;
    }

    /** run: the selected device gains what was uploaded or skipped, other devices keep their
        records, the memberships found are recorded, and the playlists are rebuilt from the ids
        known afterwards, as far as their names read. The exit code tells of a failed upload; without uploads, of a failed
        playlist or of nothing having been prepared. */
    method Run(serial: Serial, tracks: seq<Track>, options: Options, staging: Staging)
      returns (code: int, ghost ds: seq<Decision>, ghost failed: set<Name>)
      requires zune.batchSize > 0 && zune.device.Valid()
      modifies state, zune, zune.device
      ensures zune.device.Valid()
      ensures state.device == if options.OnlyLooks() || serial == "" then UNKNOWN_DEVICE else serial
      ensures forall d | d != state.device :: BucketOf(state.devices, d) == BucketOf(old(state.devices), d)
      ensures var b := BucketOf(old(state.devices), state.device);
        var ps := Work(b, tracks, options, staging);
        && ds == Decisions(zune.runs, zune.batchSize, |ps|, old(zune.ran))
        && state.Bucket().tracks == AfterUpload(b, ps, ds).tracks
        && (forall n :: Get(state.Bucket().playlists, n)
                     == if RecordsMembers(b, tracks, options, staging)
                        then OrElse(Members(tracks, OwnIds(tracks), n), Get(b.playlists, n)) else Get(b.playlists, n))
        && code == (if Fails(b, tracks, options, staging, ds, failed) then 1 else 0)
        && (if ReachesPlaylists(b, tracks, options, staging)
            then Rebuilds(tracks, KnownIds(state.Bucket()), old(zune.device.shelf), zune.device.shelf, failed)
            else zune.device.shelf == old(zune.device.shelf) && failed == {})
    {
      state.SelectDevice(if options.OnlyLooks() then UNKNOWN_DEVICE else serial);
      ghost var b := state.Bucket();
      code, ds, failed := 0, [], {};
      NothingToUpload(b);
      if tracks == [] {
        return;
      }
      var pending := Todo(state.Bucket(), tracks, options);
      if pending == [] {
        RecordPlaylists(tracks);
        if !options.OnlyLooks() {
          code, failed := SyncPlaylists(tracks);
        }
        return;
      }
      if options.dryRun {
        return;
      }
      var prepared := Prepare(staging, pending);
      if prepared == [] {
        code := 1;
        return;
      }
      if options.prepareOnly {
        return;
      }
      code, ds, failed := Upload(prepared, tracks);
    }
  }

  /** Whether a run exits with an error. */
  ghost predicate Fails(b: Bucket, tracks: seq<Track>, options: Options, staging: Staging, ds: seq<Decision>, failed: set<Name>) {
    var ps := Work(b, tracks, options, staging);
    if ps != [] then !AllSucceed(ps, ds)
    else if Todo(b, tracks, options) == [] then failed != {}
    else !options.dryRun && Prepare(staging, Todo(b, tracks, options)) == []
  }

  /** That is, if an upload failed; if nothing was pending and a playlist failed; or if it was to prepare
      something and every pending track failed to be. */
  lemma FailsIff(b: Bucket, tracks: seq<Track>, options: Options, staging: Staging, ds: seq<Decision>, failed: set<Name>)
    requires |ds| == |Work(b, tracks, options, staging)|
    ensures var ps, todo := Work(b, tracks, options, staging), Todo(b, tracks, options);
      Fails(b, tracks, options, staging, ds, failed) <==>
        || (exists i | 0 <= i < |ps| :: VerdictOf(ds[i], ps[i].path).Failed?)
        || (todo == [] && failed != {})
        || (todo != [] && !options.dryRun && forall t | t in todo :: !(t.id in staging && staging[t.id].Ready?))
  {
    var todo := Todo(b, tracks, options);
    var made := Prepare(staging, todo);
    PreparedAreReady(staging, todo);
    if made != [] {
      assert made[0] in made;
    }
  }

  /** Whether a run records memberships. */
  predicate RecordsMembers(b: Bucket, tracks: seq<Track>, options: Options, staging: Staging) {
    tracks != [] && (Todo(b, tracks, options) == [] || Work(b, tracks, options, staging) != [])
  }

  lemma NothingToUpload(b: Bucket)
    ensures AfterUpload(b, [], []) == b
  {
  }

  lemma UploadKeepsPlaylists(b: Bucket, ps: seq<Prepared>, ds: seq<Decision>)
    requires |ds| == |ps|
    ensures AfterUpload(b, ps, ds).playlists == b.playlists
  {
    AllByPath(ps, ds);
    RecordAllMeaning(b, ByPath(ps), JudgeAll(ds, Paths(ps)).ids, OnDevice(JudgeAll(ds, Paths(ps))), "");
  }

  lemma RecordNext(b: Bucket, items: map<Path, Prepared>, ids: map<Path, ObjectId>, paths: seq<Path>, i: nat)
    requires i < |paths| && forall p | p in paths :: p in items
    ensures RecordAll(b, items, ids, paths[..i + 1])
         == Recorded(RecordAll(b, items, ids, paths[..i]), items[paths[i]].track.id, EntryOf(items[paths[i]], ids))
  {
    assert paths[..i + 1][..i] == paths[..i];
  }
}
