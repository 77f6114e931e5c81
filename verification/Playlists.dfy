/** Playlists of mtp/metadata/Library.cpp and their rebuilding from cli/Session.cpp and
    tools/jellyfin-sync/jellyfin_sync/device.py. */
module Playlists {
  import opened Bytes
  import opened Results
  import opened ObjectIds
  import opened Sequences
  import Lists = PropertyLists
  import Strings = MtpStrings

  type Name = bytes

  // -- Order-preserving de-duplication ---------------------------------------

  /** One add: null ids and repetitions change nothing. */
  function AddOnce(tracks: seq<ObjectId>, id: ObjectId): seq<ObjectId> {
    if id == NO_OBJECT || id in tracks then tracks else tracks + [id]
  }

  function AddAll(tracks: seq<ObjectId>, ids: seq<ObjectId>): seq<ObjectId>
    decreases |ids|
  {
    if ids == [] then tracks else AddAll(AddOnce(tracks, ids[0]), ids[1..])
  }

  /** The playlist a rebuild from ids should produce. */
  function Canonical(ids: seq<ObjectId>): seq<ObjectId> {
    AddAll([], ids)
  }

  predicate NoRepeats(s: seq<ObjectId>) {
    forall i, j | 0 <= i < j < |s| :: s[i] != s[j]
  }

  /** Each non-null id of ids once, in the order of first occurrence. */
  ghost predicate IsCanonical(ids: seq<ObjectId>, s: seq<ObjectId>) {
    && (forall id :: id in s <==> id in ids && id != NO_OBJECT)
    && forall i, j | 0 <= i < j < |s| :: FirstAt(ids, s[i]) < FirstAt(ids, s[j])
  }

  lemma {:induction false} AddAllSnoc(tracks: seq<ObjectId>, ids: seq<ObjectId>, last: ObjectId)
    ensures AddAll(tracks, ids + [last]) == AddOnce(AddAll(tracks, ids), last)
    decreases |ids|
  {
    if ids == [] {
      assert ids + [last] == [last];
      assert AddAll(tracks, [last]) == AddAll(AddOnce(tracks, last), [][..]);
    } else {
      AddAllSnoc(AddOnce(tracks, ids[0]), ids[1..], last);
      assert (ids + [last])[0] == ids[0] && (ids + [last])[1..] == ids[1..] + [last];
    }
  }

  lemma {:induction false} CanonicalIsCanonical(ids: seq<ObjectId>)
    ensures IsCanonical(ids, Canonical(ids))
    decreases |ids|
  {
    if ids != [] {
      var front, last := ids[..|ids| - 1], ids[|ids| - 1];
      assert ids == front + [last];
      CanonicalIsCanonical(front);
      AddAllSnoc([], front, last);
      CanonicalStep(front, last, Canonical(front));
    }
  }

  lemma CanonicalStep(front: seq<ObjectId>, last: ObjectId, s: seq<ObjectId>)
    requires IsCanonical(front, s)
    ensures IsCanonical(front + [last], AddOnce(s, last))
  {
    var ids, now := front + [last], AddOnce(s, last);
    forall id
      ensures id in now <==> id in ids && id != NO_OBJECT
    {
    }
    forall i, j | 0 <= i < j < |now|
      ensures FirstAt(ids, now[i]) < FirstAt(ids, now[j])
    {
      FirstAtSnoc(front, last, now[i]);
      FirstAtSnoc(front, last, now[j]);
      assert now[i] == s[i] && s[i] in s;
      if j < |s| {
        assert now[j] == s[j] && s[j] in s;
      }
    }
  }

  lemma Ordered(ids: seq<ObjectId>, s: seq<ObjectId>, i: nat, j: nat)
    requires IsCanonical(ids, s) && i < j < |s|
    ensures FirstAt(ids, s[i]) < FirstAt(ids, s[j])
  {
  }

  lemma CanonicalHasNoRepeats(ids: seq<ObjectId>, s: seq<ObjectId>)
    requires IsCanonical(ids, s)
    ensures NoRepeats(s)
  {
    forall i, j | 0 <= i < j < |s|
      ensures s[i] != s[j]
    {
      assert FirstAt(ids, s[i]) < FirstAt(ids, s[j]);
    }
  }

  /** The description has one solution. */
  lemma {:induction false} CanonicalUnique(ids: seq<ObjectId>, a: seq<ObjectId>, b: seq<ObjectId>)
    requires IsCanonical(ids, a) && IsCanonical(ids, b)
    ensures a == b
  {
    forall i | 0 <= i < |a| && i < |b|
      ensures a[i] == b[i]
    {
      SameAt(ids, a, b, i);
    }
    NotLonger(ids, a, b);
    NotLonger(ids, b, a);
  }

  lemma {:induction false} SameAt(ids: seq<ObjectId>, a: seq<ObjectId>, b: seq<ObjectId>, i: nat)
    requires IsCanonical(ids, a) && IsCanonical(ids, b) && i < |a| && i < |b|
    ensures a[i] == b[i]
    decreases i
  {
    forall k | 0 <= k < i
      ensures a[k] == b[k]
    {
      SameAt(ids, a, b, k);
    }
    NotAfter(ids, a, b, i);
    NotAfter(ids, b, a, i);
    assert a[i] in a && b[i] in b;
    assert ids[FirstAt(ids, a[i])] == a[i] && ids[FirstAt(ids, b[i])] == b[i];
  }

  lemma NotAfter(ids: seq<ObjectId>, a: seq<ObjectId>, b: seq<ObjectId>, i: nat)
    requires IsCanonical(ids, a) && IsCanonical(ids, b) && i < |a| && i < |b|
    requires forall k | 0 <= k < i :: a[k] == b[k]
    ensures FirstAt(ids, a[i]) <= FirstAt(ids, b[i])
  {
    CanonicalHasNoRepeats(ids, b);
    assert b[i] in b;
    var n :| 0 <= n < |a| && a[n] == b[i];
    if n > i {
      Ordered(ids, a, i, n);
    }
  }

  lemma NotLonger(ids: seq<ObjectId>, a: seq<ObjectId>, b: seq<ObjectId>)
    requires IsCanonical(ids, a) && IsCanonical(ids, b)
    requires forall i | 0 <= i < |a| && i < |b| :: a[i] == b[i]
    ensures |b| <= |a|
  {
    if |a| < |b| {
      var x := b[|a|];
      assert x in b;
      var i :| 0 <= i < |a| && a[i] == x;
      Ordered(ids, b, i, |a|);
    }
  }

  /** Rebuilding from the result of a rebuild changes nothing. */
  lemma CanonicalIdempotent(ids: seq<ObjectId>)
    ensures NoRepeats(Canonical(ids)) && Canonical(Canonical(ids)) == Canonical(ids)
  {
    var s := Canonical(ids);
    CanonicalIsCanonical(ids);
    CanonicalIsCanonical(s);
    CanonicalHasNoRepeats(ids, s);
    forall i | 0 <= i < |s|
      ensures FirstAt(s, s[i]) == i
    {
      assert s[i] in s && s[FirstAt(s, s[i])] == s[i];
    }
    assert IsCanonical(s, s);
    CanonicalUnique(s, Canonical(s), s);
  }

  // -- The device ------------------------------------------------------------

  /** A playlist as a session reads it. */
  datatype Listing = Listing(id: ObjectId, name: Name, tracks: seq<ObjectId>)

  type Shelf = seq<Listing>                    // in the order the device lists them

  function Ids(shelf: Shelf): (ids: seq<ObjectId>)
    ensures |ids| == |shelf|
  {
    seq(|shelf|, i requires 0 <= i < |shelf| => shelf[i].id)
  }

  function NamesOn(shelf: Shelf): (names: seq<Name>)
    ensures |names| == |shelf|
  {
    seq(|shelf|, i requires 0 <= i < |shelf| => shelf[i].name)
  }

  ghost predicate ShelfOk(shelf: Shelf) {
    NoRepeats(Ids(shelf)) && forall l | l in shelf :: Strings.WellFormed(l.name)
  }

  /** The playlist a session opened now finds under a name; the length if there is none. Those
      without a name are not loaded. */
  function At(shelf: Shelf, name: Name): (n: nat)
    ensures n <= |shelf| && (n < |shelf| ==> shelf[n].name == name)
  {
    assert forall i | 0 <= i < |shelf| :: NamesOn(shelf)[i] == shelf[i].name;
    if name == [] then |shelf| else FirstAt(NamesOn(shelf), name)
  }

  /** Its tracks, none if there is no such playlist. */
  function Listed(shelf: Shelf, name: Name): seq<ObjectId> {
    if At(shelf, name) < |shelf| then shelf[At(shelf, name)].tracks else []
  }

  function WithTracks(shelf: Shelf, id: ObjectId, tracks: seq<ObjectId>): (now: Shelf)
    ensures |now| == |shelf|
  {
    seq(|shelf|, i requires 0 <= i < |shelf| => if shelf[i].id == id then shelf[i].(tracks := tracks) else shelf[i])
  }

  lemma WithTracksOk(shelf: Shelf, id: ObjectId, tracks: seq<ObjectId>)
    requires ShelfOk(shelf)
    ensures ShelfOk(WithTracks(shelf, id, tracks)) && Ids(WithTracks(shelf, id, tracks)) == Ids(shelf)
  {
    assert Ids(WithTracks(shelf, id, tracks)) == Ids(shelf);
    forall i | 0 <= i < |shelf|
      ensures Strings.WellFormed(WithTracks(shelf, id, tracks)[i].name)
    {
      assert shelf[i] in shelf;
    }
  }

  lemma AddedOk(shelf: Shelf, l: Listing)
    requires ShelfOk(shelf) && l.id !in Ids(shelf) && Strings.WellFormed(l.name)
    ensures ShelfOk(shelf + [l]) && Ids(shelf + [l]) == Ids(shelf) + [l.id]
  {
    assert Ids(shelf + [l]) == Ids(shelf) + [l.id];
    assert forall i | 0 <= i < |shelf| :: Ids(shelf)[i] in Ids(shelf);
  }

  lemma WithTracksTwice(shelf: Shelf, id: ObjectId, first: seq<ObjectId>, second: seq<ObjectId>)
    ensures WithTracks(WithTracks(shelf, id, first), id, second) == WithTracks(shelf, id, second)
  {
  }

  lemma WithTracksSame(shelf: Shelf, id: ObjectId, tracks: seq<ObjectId>)
    requires forall l | l in shelf && l.id == id :: l.tracks == tracks
    ensures WithTracks(shelf, id, tracks) == shelf
  {
    assert forall i | 0 <= i < |shelf| :: shelf[i] in shelf;
  }

  lemma WithTracksOfNew(shelf: Shelf, l: Listing, tracks: seq<ObjectId>)
    requires l.id !in Ids(shelf)
    ensures WithTracks(shelf + [l], l.id, tracks) == shelf + [l.(tracks := tracks)]
  {
    assert forall i | 0 <= i < |shelf| :: Ids(shelf)[i] == shelf[i].id;
  }

  lemma WithTracksAt(shelf: Shelf, n: nat, tracks: seq<ObjectId>)
    requires NoRepeats(Ids(shelf)) && n < |shelf|
    ensures WithTracks(shelf, shelf[n].id, tracks) == shelf[n := shelf[n].(tracks := tracks)]
  {
    forall i | 0 <= i < |shelf| && i != n
      ensures shelf[i].id != shelf[n].id
    {
      assert Ids(shelf)[i] == shelf[i].id && Ids(shelf)[n] == shelf[n].id;
    }
  }

  datatype PlaylistError = NotSupported | TooBig | Refused

  class Device {
    var shelf: Shelf
    var next: nat                               // ids from here on are unused
    const supported: bool                       // _playlistsSupported
    const filenameSupported: bool               // _playlistFilenameSupported
    const refuses: seq<Lists.Property> -> bool

    constructor (supported: bool, filenameSupported: bool, refuses: seq<Lists.Property> -> bool)
      ensures Valid() && shelf == [] && this.supported == supported && this.filenameSupported == filenameSupported
    {
      this.supported, this.filenameSupported, this.refuses := supported, filenameSupported, refuses;
      shelf, next := [], 1;
    }

    ghost predicate Valid()
      reads this
    {
      ShelfOk(shelf) && forall id | id in Ids(shelf) :: id < next
    }

    /** SendObjectPropList: as the album device takes them; `ps` is the list that `data` encodes. The
        playlist has the name the device reads. */
    method Send(data: bytes, ps: seq<Lists.Property>) returns (r: Result<ObjectId, PlaylistError>)
      requires Valid() && |ps| < 0x1_0000_0000 && Lists.EncodeList(ps) == Ok(data)
      modifies this
      ensures Valid() && (r.Err? ==> r.error == Refused && shelf == old(shelf))
      ensures r.Ok? ==> Lists.AllCounted(ps) && r.value !in Ids(old(shelf))
      ensures r.Ok? ==> shelf == old(shelf) + [Listing(r.value, Lists.TextFor(Lists.Entries(data), Lists.NAME), [])]
    {
      hide Lists.EncodeList, Lists.Entries, Lists.TextFor, Strings.WellFormed;
      var id := if next == NO_OBJECT then next + 1 else next;
      if !Lists.AllCounted(ps) || refuses(ps) || id > 0xffff_ffff {
        return Err(Refused);
      }
      var playlist := Listing(id, Lists.TextFor(Lists.Entries(data), Lists.NAME), []);
      Lists.TextForWellFormed(data, Lists.NAME);
      AddedOk(shelf, playlist);
      next := id + 1;
      shelf := shelf + [playlist];
      r := Ok(id);
    }

    method SetObjectReferences(id: ObjectId, handles: seq<ObjectId>)
      requires Valid()
      modifies this`shelf
      ensures Valid() && shelf == WithTracks(old(shelf), id, handles) && Ids(shelf) == Ids(old(shelf))
    {
      WithTracksOk(shelf, id, handles);
      shelf := WithTracks(shelf, id, handles);
    }
  }

  // -- The library -----------------------------------------------------------

  class Playlist {
    const id: ObjectId
    const name: Name
    var tracks: seq<ObjectId>

    constructor (id: ObjectId, name: Name, tracks: seq<ObjectId>)
      ensures this.id == id && this.name == name && this.tracks == tracks
    {
      this.id, this.name, this.tracks := id, name, tracks;
    }
  }

  class Library {
    const device: Device
    var playlists: map<Name, Playlist>

    constructor (device: Device)
      requires device.Valid()
      ensures Valid() && this.device == device && playlists == map[]
    {
      this.device, playlists := device, map[];
    }

    /** Different names are different playlists, which are objects of the device. */
    ghost predicate Valid()
      reads this, device
    {
      && device.Valid()
      && (forall m, n | m in playlists && n in playlists && playlists[m].id == playlists[n].id :: m == n)
      && (forall n | n in playlists :: playlists[n].id in Ids(device.shelf))
    }

    /** The cached list is the device's. */
    predicate Synced(name: Name)
      requires name in playlists
      reads this, device, playlists[name]
    {
      forall l | l in device.shelf && l.id == playlists[name].id :: l.tracks == playlists[name].tracks
    }

    /** LoadPlaylists: of several with one name the first is kept. */
    method Load()
      requires Valid() && playlists == map[]
      modifies this
      ensures Valid() && forall n | n in playlists :: fresh(playlists[n])
      ensures forall n :: n in playlists <==> At(device.shelf, n) < |device.shelf|
      ensures forall n | n in playlists :: playlists[n].id == device.shelf[At(device.shelf, n)].id
    {
      hide At, ShelfOk;
      for i := 0 to |device.shelf|
        invariant forall n | n in playlists :: fresh(playlists[n])
        invariant forall n :: n in playlists <==> At(device.shelf, n) < i
        invariant forall n | n in playlists :: playlists[n].id == device.shelf[At(device.shelf, n)].id
      {
        var l := device.shelf[i];
        AtMeaning(device.shelf, i);
        if l.name != [] && l.name !in playlists {
          var playlist := new Playlist(l.id, l.name, l.tracks);
          playlists := playlists[l.name := playlist];
        }
      }
      LoadedDistinct(device.shelf);
    }

    method WritePlaylistRefs(playlist: Playlist)
      requires device.Valid()
      modifies device`shelf
      ensures device.Valid() && device.shelf == WithTracks(old(device.shelf), playlist.id, playlist.tracks)
      ensures Ids(device.shelf) == Ids(old(device.shelf))
    {
      device.SetObjectReferences(playlist.id, playlist.tracks);
    }

    /** The existing playlist of that name, or a new empty one, which the device lists last under the
        name it reads; an exception on devices without playlists, for a name too long, or if the
        device refuses it. */
    method CreatePlaylist(name: Name) returns (r: Result<Playlist, PlaylistError>)
      requires Valid()
      modifies this, device
      ensures Valid() && (r.Ok? ==> device.supported)
      ensures device.supported && name in old(playlists) ==> r.Ok?
      ensures r == Err(TooBig) <==> device.supported && name !in old(playlists)
                                    && Lists.EncodeList(Lists.PlaylistList(name, device.filenameSupported)).Err?
      ensures r.Err? ==> playlists == old(playlists) && device.shelf == old(device.shelf)
      ensures r.Ok? ==> name in playlists && playlists[name] == r.value
      ensures r.Ok? ==>
        if name in old(playlists)
        then playlists == old(playlists) && device.shelf == old(device.shelf)
        else fresh(r.value) && r.value.id !in Ids(old(device.shelf)) && r.value.tracks == []
             && playlists == old(playlists)[name := r.value]
             && device.shelf == old(device.shelf) + [Listing(r.value.id, Strings.Recoded(name), [])]
    {
      hide ShelfOk, Lists.EncodeList, Lists.AllCounted, Lists.Entries, Lists.Texts, Strings.Recoded, Strings.WellFormed;
      if !device.supported {
        return Err(NotSupported);
      }
      if name in playlists {
        return Ok(playlists[name]);
      }
      var list := Lists.CreatePlaylistList(name, device.filenameSupported);
      if list.Err? {
        return Err(TooBig);
      }
      var id :- device.Send(list.value, Lists.PlaylistList(name, device.filenameSupported));
      Lists.PlaylistSays(name, device.filenameSupported);
      ghost var n := Listing(id, Strings.Recoded(name), []);
      assert device.shelf == old(device.shelf) + [n];
      Strings.RecodedIff(name);
      AddedOk(old(device.shelf), n);
      var playlist := new Playlist(id, name, []);
      playlists := playlists[name := playlist];
      r := Ok(playlist);
    }

    method ClearPlaylist(playlist: Playlist)
      requires device.Valid()
      modifies playlist, device`shelf
      ensures device.Valid() && playlist.tracks == [] && device.shelf == WithTracks(old(device.shelf), playlist.id, [])
      ensures Ids(device.shelf) == Ids(old(device.shelf))
    {
      playlist.tracks := [];
      WritePlaylistRefs(playlist);
    }

    method AddToPlaylist(playlist: Playlist, trackId: ObjectId)
      requires device.Valid()
      modifies playlist, device`shelf
      ensures device.Valid() && playlist.tracks == AddOnce(old(playlist.tracks), trackId)
      ensures device.shelf == if playlist.tracks == old(playlist.tracks) then old(device.shelf)
                              else WithTracks(old(device.shelf), playlist.id, playlist.tracks)
      ensures Ids(device.shelf) == Ids(old(device.shelf))
    {
      if trackId == NO_OBJECT {
        return;
      }
      if trackId in playlist.tracks {
        return;
      }
      playlist.tracks := playlist.tracks + [trackId];
      WritePlaylistRefs(playlist);
    }

    /** zune-playlist-clear, then zune-playlist-add-id for each id: whatever the playlist held,
        in the cache or on the device, both end as the canonical list, equal after every
        command; every other playlist keeps its tracks. */
    method Rebuild(name: Name, ids: seq<ObjectId>) returns (r: Result<(), PlaylistError>)
      requires Valid()
      modifies this, device, if name in playlists then {playlists[name]} else {}
      ensures Valid() && (r.Ok? ==> device.supported) && (device.supported && name in old(playlists) ==> r.Ok?)
      ensures r.Err? ==> playlists == old(playlists) && device.shelf == old(device.shelf)
      ensures r.Err? && name in playlists ==> playlists[name].tracks == old(playlists[name].tracks)
      ensures r.Ok? ==>
        && name in playlists && playlists.Keys == old(playlists).Keys + {name}
        && (forall n | n in old(playlists) :: playlists[n] == old(playlists)[n])
        && playlists[name].tracks == Canonical(ids)
      ensures r.Ok? ==>
        if name in old(playlists) then device.shelf == WithTracks(old(device.shelf), playlists[name].id, Canonical(ids))
        else fresh(playlists[name]) && playlists[name].id !in Ids(old(device.shelf))
             && device.shelf == old(device.shelf) + [Listing(playlists[name].id, Strings.Recoded(name), Canonical(ids))]
    {
      hide ShelfOk, Canonical, WithTracks, Lists.EncodeList, Lists.PlaylistList, Strings.Recoded;
      ghost var was := device.shelf;
      var playlist :- CreatePlaylist(name);
      Refill(playlist, ids);
      if name !in old(playlists) {
        WithTracksOfNew(was, Listing(playlist.id, Strings.Recoded(name), []), Canonical(ids));
      }
      r := Ok(());
    }

    method Refill(playlist: Playlist, ids: seq<ObjectId>)
      requires device.Valid()
      modifies playlist, device`shelf
      ensures device.Valid() && playlist.tracks == Canonical(ids)
      ensures device.shelf == WithTracks(old(device.shelf), playlist.id, Canonical(ids))
      ensures Ids(device.shelf) == Ids(old(device.shelf))
    {
      ClearPlaylist(playlist);
      var i := 0;
      while i < |ids|
        invariant 0 <= i <= |ids| && device.Valid()
        invariant playlist.tracks == Canonical(ids[..i])
        invariant device.shelf == WithTracks(old(device.shelf), playlist.id, playlist.tracks)
        invariant Ids(device.shelf) == Ids(old(device.shelf))
      {
        AddAllSnoc([], ids[..i], ids[i]);
        assert ids[..i + 1] == ids[..i] + [ids[i]];
        WithTracksTwice(old(device.shelf), playlist.id, playlist.tracks, Canonical(ids[..i + 1]));
        AddToPlaylist(playlist, ids[i]);
        i := i + 1;
      }
      assert ids[..i] == ids;
    }

    /** Doing it again changes neither the cache nor the device. */
    method RebuildTwice(name: Name, ids: seq<ObjectId>) returns (r: Result<(), PlaylistError>)
      requires Valid() && name in playlists && playlists[name].tracks == Canonical(ids) && Synced(name)
      modifies this, device, playlists[name]
      ensures playlists == old(playlists) && device.shelf == old(device.shelf)
      ensures playlists[name].tracks == old(playlists[name].tracks)
    {
      WithTracksSame(device.shelf, playlists[name].id, Canonical(ids));
      r := Rebuild(name, ids);
      assert playlists == old(playlists);
    }
  }

  lemma AtMeaning(shelf: Shelf, i: nat)
    requires i < |shelf|
    ensures forall n :: At(shelf, n) == i ==> n == shelf[i].name
    ensures At(shelf, shelf[i].name) <= i || shelf[i].name == []
    ensures At(shelf, []) == |shelf|
  {
    assert NamesOn(shelf)[i] == shelf[i].name;
  }

  lemma LoadedDistinct(shelf: Shelf)
    requires ShelfOk(shelf)
    ensures forall m, n | At(shelf, m) < |shelf| && At(shelf, n) < |shelf| :: shelf[At(shelf, m)].id == shelf[At(shelf, n)].id ==> m == n
    ensures forall n | At(shelf, n) < |shelf| :: shelf[At(shelf, n)].id in Ids(shelf)
  {
    assert forall i | 0 <= i < |shelf| :: Ids(shelf)[i] == shelf[i].id;
  }

  // -- Sessions --------------------------------------------------------------

  /** A name that survives the way to the device and back, and that a session loads. */
  predicate Reads(name: Name) {
    name != [] && Strings.WellFormed(name)
  }

  /** What a rebuild in a session of its own makes of the playlists. */
  ghost predicate Rebuilt(was: Shelf, now: Shelf, name: Name, tracks: seq<ObjectId>) {
    var n := At(was, name);
    if n < |was| then now == was[n := was[n].(tracks := tracks)]
    else |now| == |was| + 1 && now[..|was|] == was && now[|was|].name == Strings.Recoded(name) && now[|was|].tracks == tracks
  }

  /** A rebuild in a session opened now. */
  method RebuildIn(device: Device, name: Name, ids: seq<ObjectId>) returns (r: Result<(), PlaylistError>)
    requires device.Valid()
    modifies device
    ensures device.Valid() && if r.Ok? then device.supported else device.shelf == old(device.shelf)
    ensures r.Ok? ==> Rebuilt(old(device.shelf), device.shelf, name, Canonical(ids))
    ensures device.supported && At(old(device.shelf), name) < |old(device.shelf)| ==> r.Ok?
  {
    var library := new Library(device);
    library.Load();
    if At(device.shelf, name) < |device.shelf| {
      WithTracksAt(device.shelf, At(device.shelf, name), Canonical(ids));
    }
    r := library.Rebuild(name, ids);
  }

  lemma AtPrefix(was: Shelf, now: Shelf, name: Name)
    requires |now| == |was| + 1 && now[..|was|] == was
    ensures At(now, name) == if At(was, name) < |was| then At(was, name)
                             else if name != [] && now[|was|].name == name then |was| else |was| + 1
  {
    assert NamesOn(now) == NamesOn(was) + [now[|was|].name];
    FirstAtSnoc(NamesOn(was), now[|was|].name, name);
  }

  lemma OnlyReadNames(shelf: Shelf, name: Name)
    requires ShelfOk(shelf) && At(shelf, name) < |shelf|
    ensures Reads(name)
  {
    assert shelf[At(shelf, name)] in shelf;
  }

  /** The rebuilt playlist is found, with its tracks, if and only if its name reads; only a name that
      does not can become another playlist's. */
  lemma RebuiltMeaning(was: Shelf, now: Shelf, name: Name, tracks: seq<ObjectId>)
    requires ShelfOk(was) && Rebuilt(was, now, name, tracks)
    ensures At(now, name) < |now| <==> Reads(name)
    ensures Reads(name) ==> Listed(now, name) == tracks
    ensures forall n | n != name && (Reads(name) || n != Strings.Recoded(name)) :: Listed(now, n) == Listed(was, n)
  {
    if At(was, name) < |was| {
      OnlyReadNames(was, name);
      assert NamesOn(now) == NamesOn(was);
    } else {
      Strings.RecodedIff(name);
      forall n
        ensures Listed(now, n) == if At(was, n) == |was| && n != [] && n == Strings.Recoded(name) then tracks else Listed(was, n)
        ensures At(now, n) < |now| <==> At(was, n) < |was| || (n != [] && n == Strings.Recoded(name))
      {
        AtPrefix(was, now, n);
      }
    }
  }

  /** Rebuilding a playlist again, in a session opened later, changes nothing if its name reads, and
      makes one more playlist if not. */
  method RebuildNextSession(device: Device, name: Name, ids: seq<ObjectId>)
    returns (first: Result<(), PlaylistError>, second: Result<(), PlaylistError>, ghost between: Shelf)
    requires device.Valid()
    modifies device
    ensures device.Valid() && (first.Ok? && second.Ok? ==> (|device.shelf| == |between| <==> Reads(name)))
    ensures first.Ok? && Reads(name) ==> second.Ok? && device.shelf == between
  {
    first := RebuildIn(device, name, ids);
    between := device.shelf;
    if first.Ok? {
      RebuiltMeaning(old(device.shelf), between, name, Canonical(ids));
    }
    second := RebuildIn(device, name, ids);
  }
}
