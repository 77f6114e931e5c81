/** Artists, albums and tracks of mtp/metadata/Library.cpp, and importing from cli/Session.cpp:
    the cached references and track index follow the device. Names go to the device as property
    lists and come back as the strings these read as. */
module Albums {
  import opened Bytes
  import opened Results
  import opened ObjectIds
  import opened MtpStrings
  import opened AlbumIndex
  import Lists = PropertyLists

  type Properties = seq<Lists.Property>

  datatype ImportError =
    | TooBig       // a string does not fit its count
    | Refused      // by the device
    | Broken       // half-way through

  /** What a list is sent for, and where folders and tracks go. */
  datatype Format = Association(parent: ObjectId) | ArtistFormat | AlbumFormat | AudioFormat(folder: ObjectId)

  /** The artist of a new object: by name, or by the id of an artist object. */
  function ArtistOf(es: Properties, objects: map<ObjectId, Object>): Option<Name> {
    var ids := Lists.Numbers(es, Lists.ARTIST_ID);
    if ids == [] then Some(Lists.TextFor(es, Lists.ARTIST))
    else if ids[0] in objects && objects[ids[0]].ArtistObject? then Some(objects[ids[0]].name)
    else None
  }

  /** The object a device makes of the entries it reads, if it knows the artist. */
  function ObjectFrom(format: Format, es: Properties, objects: map<ObjectId, Object>): Option<Object> {
    var name, filename, indices :=
      Lists.TextFor(es, Lists.NAME), Lists.TextFor(es, Lists.OBJECT_FILENAME), Lists.Numbers(es, Lists.TRACK);
    match format
    case Association(parent) => Some(Folder(parent, filename))
    case ArtistFormat => Some(ArtistObject(name, filename))
    case AlbumFormat =>
      (match ArtistOf(es, objects)
       case Some(artist) => Some(AlbumObject(artist, name, filename, Lists.TextFor(es, Lists.DATE_AUTHORED)))
       case None => None)
    case AudioFormat(folder) =>
      (match ArtistOf(es, objects)
       case Some(artist) => Some(TrackObject(folder, artist, name, if indices == [] then 0 else indices[0] % 0x1_0000,
                                             Lists.TextFor(es, Lists.GENRE), filename))
       case None => None)
  }

  /** Where storing a track can break off, once its object is made. */
  datatype Step = SendingData | SettingCover | SettingReferences

  class Device {
    var objects: map<ObjectId, Object>
    var refs: map<ObjectId, seq<ObjectId>>       // of albums
    var listed: seq<ObjectId>                    // albums, in the order they are listed
    var covers: map<ObjectId, seq<int>>
    var next: nat                                // ids from here on are unused
    const refuses: Properties -> bool
    const breaks: (ObjectId, Step) -> bool

    constructor (refuses: Properties -> bool, breaks: (ObjectId, Step) -> bool)
      ensures Valid() && objects == map[] && refs == map[] && listed == []
      ensures this.refuses == refuses && this.breaks == breaks
    {
      this.refuses, this.breaks := refuses, breaks;
      objects, refs, listed, covers, next := map[], map[], [], map[], 1;
    }

    function Snapshot(): State
      reads this
    {
      State(objects, refs, listed, covers)
    }

    ghost predicate Valid()
      reads this
    {
      && StateOk(Snapshot())
      && (forall id | id in objects :: id < next)
    }

    /** A property list with a string whose count is not that of its units cannot be read; others
        may be refused for reasons of the device's own. */
    predicate Accepts(ps: Properties) {
      Lists.AllCounted(ps) && !refuses(ps)
    }

    /** A new object under a new id, while there are any. */
    method Create(object_: Object) returns (r: Result<ObjectId, ImportError>)
      requires Valid() && ObjectOk(object_)
      modifies this`objects, this`next
      ensures Valid()
      ensures r.Err? ==> objects == old(objects)
      ensures r.Ok? ==> r.value !in old(objects) && r.value != NO_OBJECT && r.value !in refs
      ensures r.Ok? ==> objects == old(objects)[r.value := object_]
    {
      var id := if next == NO_OBJECT then next + 1 else next;
      if id > 0xffff_ffff {
        return Err(Refused);
      }
      ObjectAdded(Snapshot(), id, object_);
      next := id + 1;
      objects := objects[id := object_];
      r := Ok(id);
    }

    /** SendObjectPropList for anything but an album: `ps` is the list that `data` encodes. The
        object is what the device reads. */
    method Send(format: Format, data: bytes, ps: Properties) returns (r: Result<ObjectId, ImportError>)
      requires Valid() && |ps| < 0x1_0000_0000 && Lists.EncodeList(ps) == Ok(data)
      modifies this`objects, this`next
      ensures Valid()
      ensures r.Err? ==> objects == old(objects)
      ensures r.Ok? ==> Accepts(ps) && r.value !in old(objects) && r.value != NO_OBJECT && r.value !in refs
      ensures r.Ok? ==> ObjectFrom(format, Lists.Entries(data), old(objects)).Some?
      ensures r.Ok? ==> objects == old(objects)[r.value := ObjectFrom(format, Lists.Entries(data), old(objects)).value]
    {
      hide ObjectFrom, Lists.EncodeList, Lists.Entries, ObjectOk;
      if !Accepts(ps) {
        return Err(Refused);
      }
      var object_ := ObjectFrom(format, Lists.Entries(data), objects);
      if object_.None? {
        return Err(Refused);
      }
      ObjectFromOk(format, data, Snapshot());
      r := Create(object_.value);
    }

    /** A new album refers to nothing and is listed last. */
    method SendAlbum(data: bytes, ps: Properties) returns (r: Result<ObjectId, ImportError>)
      requires Valid() && |ps| < 0x1_0000_0000 && Lists.EncodeList(ps) == Ok(data)
      modifies this`objects, this`next, this`refs, this`listed
      ensures Valid()
      ensures r.Err? ==> objects == old(objects) && refs == old(refs) && listed == old(listed)
      ensures r.Ok? ==> Accepts(ps) && r.value !in old(objects) && r.value != NO_OBJECT && r.value !in old(refs)
      ensures r.Ok? ==> ObjectFrom(AlbumFormat, Lists.Entries(data), old(objects)).Some?
      ensures r.Ok? ==>
        Snapshot() == WithAlbum(old(Snapshot()), r.value, ObjectFrom(AlbumFormat, Lists.Entries(data), old(objects)).value)
    {
      hide StateOk, Lists.EncodeList, Lists.Entries, ArtistOf;
      r := Send(AlbumFormat, data, ps);
      if r.Ok? {
        AlbumListed(Snapshot(), r.value);
        refs := refs[r.value := []];
        listed := listed + [r.value];
      }
    }

    method SetCover(album: ObjectId, cover: seq<int>)
      requires Valid()
      modifies this`covers
      ensures Valid() && covers == old(covers)[album := cover]
    {
      covers := covers[album := cover];
    }

    method SetObjectReferences(album: ObjectId, handles: seq<ObjectId>)
      requires Valid() && album in refs
      requires forall t | t in handles :: t in objects && objects[t].TrackObject?
      modifies this`refs
      ensures Valid() && refs == old(refs)[album := handles]
    {
      refs := refs[album := handles];
    }
  }

  // -- What the device makes of the lists ---------------------------------------

  lemma ObjectFromOk(format: Format, data: bytes, s: State)
    requires StateOk(s) && ObjectFrom(format, Lists.Entries(data), s.objects).Some?
    ensures ObjectOk(ObjectFrom(format, Lists.Entries(data), s.objects).value)
    ensures format.AlbumFormat? ==> ObjectFrom(format, Lists.Entries(data), s.objects).value.AlbumObject?
  {
    hide WellFormed, Lists.TextFor, Lists.Numbers, Lists.Entries;
    Lists.TextForWellFormed(data, Lists.NAME);
    Lists.TextForWellFormed(data, Lists.ARTIST);
    Lists.TextForWellFormed(data, Lists.OBJECT_FILENAME);
  }

  function WithAlbum(s: State, id: ObjectId, object_: Object): State {
    s.(objects := s.objects[id := object_], refs := s.refs[id := []], listed := s.listed + [id])
  }

  // -- Cached albums ---------------------------------------------------------

  datatype Artist = Artist(id: ObjectId, musicFolder: ObjectId, name: Name)

  /** The artist has no object, or one of this name. */
  predicate ArtistRight(artist: Artist, objects: map<ObjectId, Object>) {
    artist.id == NO_OBJECT || IsArtist(objects, artist.id, artist.name)
  }

  predicate IsArtist(objects: map<ObjectId, Object>, id: ObjectId, name: Name) {
    id in objects && objects[id].ArtistObject? && objects[id].name == Recoded(name)
  }

  predicate HasFolder(objects: map<ObjectId, Object>, parent: ObjectId, name: Name) {
    exists o | o in objects :: objects[o] == Folder(parent, name)
  }

  /** The object made of a folder's list, */
  lemma FolderFrom(parent: ObjectId, es: Properties, objects: map<ObjectId, Object>, name: Name)
    requires Lists.SaysFolder(es, name)
    ensures ObjectFrom(Association(parent), es, objects) == Some(Folder(parent, Recoded(name)))
  {
  }

  /** an artist's, */
  lemma ArtistFrom(es: Properties, objects: map<ObjectId, Object>, name: Name)
    requires Lists.SaysArtist(es, name)
    ensures ObjectFrom(ArtistFormat, es, objects)
         == Some(ArtistObject(Recoded(name), Recoded(name + [0x2e, 0x61, 0x72, 0x74])))
  {
  }

  /** an album's */
  lemma AlbumFrom(es: Properties, s: State, artist: Artist, supported: bool, name: Name, year: int, dates: bool, date: Name)
    requires StateOk(s) && ArtistRight(artist, s.objects)
    requires Lists.SaysAlbum(es, Lists.Artist(supported, artist.id, artist.name), name, year, dates, date)
    ensures var o := ObjectFrom(AlbumFormat, es, s.objects);
      o.Some? ==> o.value == NewAlbumObject(artist.name, name, if year != 0 && dates then date else [])
  {
    hide WellFormed, ArtistOf, Lists.Texts, Lists.Numbers, Lists.SaysBy, ArtistRight, StateOk;
    ArtistReceived(es, s, artist, supported);
    EmptyRecoded();
  }

  lemma ArtistReceived(es: Properties, s: State, artist: Artist, supported: bool)
    requires StateOk(s) && ArtistRight(artist, s.objects)
    requires Lists.SaysBy(es, Lists.Artist(supported, artist.id, artist.name))
    ensures ArtistOf(es, s.objects).Some? ==> ArtistOf(es, s.objects).value == Recoded(artist.name)
  {
  }

  /** and a track's. */
  lemma TrackFrom(folder: ObjectId, es: Properties, s: State, artist: Artist, supported: bool, m: Metadata)
    requires StateOk(s) && ArtistRight(artist, s.objects) && artist.name == AlbumKey(m).0
    requires Lists.SaysTrack(es, Lists.Artist(supported, artist.id, artist.name), m.title, m.track, m.genre, m.filename)
    ensures var o := ObjectFrom(AudioFormat(folder), es, s.objects); o.Some? ==> o.value == NewTrackObject(folder, m)
  {
    hide WellFormed, ArtistOf, Lists.Texts, Lists.Numbers, Lists.SaysBy, ArtistRight, StateOk, AlbumKey;
    ArtistReceived(es, s, artist, supported);
    EmptyRecoded();
  }

  lemma EmptyRecoded()
    ensures Recoded([]) == []
  {
    RecodedIff([]);
  }

  /** An album as the device keeps it. */
  function NewAlbumObject(artist: Name, name: Name, date: Name): Object {
    AlbumObject(Recoded(artist), Recoded(name), Recoded(Lists.AlbumFile(artist, name)), Recoded(date))
  }

  /** A file's track as the device keeps it. */
  function NewTrackObject(folder: ObjectId, m: Metadata): Object {
    TrackObject(folder, Recoded(AlbumKey(m).0), Recoded(m.title), Stored(m.track), Recoded(m.genre), Recoded(m.filename))
  }

  datatype Album = Album(id: ObjectId, musicFolder: ObjectId, name: Name,
                         refsLoaded: bool, refs: set<ObjectId>, tracks: seq<Track>)

  /** Loaded references are the device's, and the index lists exactly those tracks. */
  ghost predicate Follows(album: Album, device: State) {
    && album.id in device.refs
    && (if album.refsLoaded
        then album.refs == Elements(device.refs[album.id]) && Faithful(album.tracks, device.refs[album.id], device.objects)
        else album.refs == {} && album.tracks == [])
  }

  ghost predicate AllFollow(albums: map<Key, Album>, device: State) {
    forall k | k in albums :: Follows(albums[k], device)
  }

  predicate Distinct(albums: map<Key, Album>) {
    forall k, l | k in albums && l in albums && albums[k].id == albums[l].id :: k == l
  }

  /** Every cached album follows the device; distinct keys are distinct objects. */
  ghost predicate Agrees(albums: map<Key, Album>, device: State) {
    AllFollow(albums, device) && Distinct(albums)
  }

  /** The same album later: its track list has grown at the end. */
  predicate Later(before: Album, after: Album) {
    && after.id == before.id && after.musicFolder == before.musicFolder
    && (before.refsLoaded ==> after.refsLoaded && before.tracks <= after.tracks)
  }

  predicate AllLater(before: map<Key, Album>, after: map<Key, Album>) {
    forall k | k in before :: k in after && Later(before[k], after[k])
  }

  lemma LaterTransitive(a: map<Key, Album>, b: map<Key, Album>, c: map<Key, Album>)
    requires AllLater(a, b) && AllLater(b, c)
    ensures AllLater(a, c)
  {
    forall k | k in a
      ensures k in c && Later(a[k], c[k])
    {
      assert Later(a[k], b[k]) && Later(b[k], c[k]);
    }
  }

  /** The references of an album, none if there is no such album. */
  function RefsOf(key: Key, albums: map<Key, Album>, refs: map<ObjectId, seq<ObjectId>>): seq<ObjectId> {
    if key in albums && albums[key].id in refs then refs[albums[key].id] else []
  }

  /** The tracks of an album whose references are loaded have ids and are the device's. */
  lemma LoadedTracks(album: Album, device: State)
    requires Follows(album, device) && StateOk(device)
    ensures NoNullIds(album.tracks) && TracksOk(device.refs[album.id], device.objects)
  {
    forall t | t in device.refs[album.id]
      ensures t in device.objects && t != NO_OBJECT && ObjectOk(device.objects[t])
    {
    }
    if album.refsLoaded {
      EntriesNotNull(album.tracks, device.refs[album.id], device.objects);
    }
  }

  lemma AgreesUpdate(albums: map<Key, Album>, device: State, key: Key, album: Album)
    requires Distinct(albums) && Follows(album, device)
    requires if key in albums then album.id == albums[key].id else forall k | k in albums :: albums[k].id != album.id
    requires forall k | k in albums && k != key :: Follows(albums[k], device)
    ensures Agrees(albums[key := album], device)
  {
  }

  /** Albums keep following a device that gains objects and references of other albums. */
  lemma FollowsGrows(album: Album, before: State, after: State)
    requires Follows(album, before) && Grown(before.objects, after.objects)
    requires album.id in after.refs && after.refs[album.id] == before.refs[album.id]
    ensures Follows(album, after)
  {
    if album.refsLoaded {
      FaithfulGrows(album.tracks, before.refs[album.id], before.objects, after.objects);
    }
  }

  lemma AllFollowGrow(albums: map<Key, Album>, before: State, after: State, except: set<ObjectId>)
    requires AllFollow(albums, before) && Grown(before.objects, after.objects)
    requires forall a | a in before.refs && a !in except :: a in after.refs && after.refs[a] == before.refs[a]
    ensures forall k | k in albums && albums[k].id !in except :: Follows(albums[k], after)
  {
    forall k | k in albums && albums[k].id !in except
      ensures Follows(albums[k], after)
    {
      FollowsGrows(albums[k], before, after);
    }
  }

  /** A new album under a new key. */
  lemma AlbumAdded(albums: map<Key, Album>, before: State, after: State, key: Key, album: Album)
    requires Agrees(albums, before) && key !in albums && Grown(before.objects, after.objects)
    requires album.id !in before.refs && after.refs == before.refs[album.id := []]
    requires !album.refsLoaded && album.refs == {} && album.tracks == []
    ensures Agrees(albums[key := album], after)
  {
    AllFollowGrow(albums, before, after, {});
    forall k | k in albums
      ensures albums[k].id != album.id
    {
      assert Follows(albums[k], before);
    }
    AgreesUpdate(albums, after, key, album);
  }

  function WithTrack(album: Album, t: Track): Album {
    album.(refs := album.refs + {t.id}, tracks := album.tracks + [t])
  }

  /** The new handles are the album's references and the added track. */
  lemma HandlesFaithful(album: Album, handles: seq<ObjectId>, t: Track, device: State)
    requires Follows(album, device) && album.refsLoaded && Describes(t, device.objects)
    requires Elements(handles) == album.refs + {t.id}
    ensures forall x | x in handles :: x in device.refs[album.id] || x == t.id
    ensures Faithful(album.tracks + [t], handles, device.objects)
  {
    FaithfulSnoc(album.tracks, device.refs[album.id], device.objects, t, handles);
    assert forall x :: x in handles <==> x in Elements(handles);
    assert forall x :: x in device.refs[album.id] <==> x in Elements(device.refs[album.id]);
  }

  /** Adding a track to an album and to its references on the device keeps all albums right. */
  lemma AddedAgrees(albums: map<Key, Album>, device: State, key: Key, handles: seq<ObjectId>, t: Track)
    requires Agrees(albums, device) && key in albums && albums[key].refsLoaded && Describes(t, device.objects)
    requires Elements(handles) == albums[key].refs + {t.id}
    ensures var album, after := WithTrack(albums[key], t), device.(refs := device.refs[albums[key].id := handles]);
      && Agrees(albums[key := album], after) && Follows(album, after)
      && (forall x | x in handles :: x in device.refs[album.id] || x == t.id)
      && Elements(handles) == Elements(device.refs[album.id]) + {t.id}
  {
    var album, after := WithTrack(albums[key], t), device.(refs := device.refs[albums[key].id := handles]);
    HandlesFaithful(albums[key], handles, t, device);
    AllFollowGrow(albums, device, after, {album.id});
    AgreesUpdate(albums, after, key, album);
  }

  /** The elements of a set in some order. */
  method ToSeq(s: set<ObjectId>) returns (q: seq<ObjectId>)
    ensures Elements(q) == s
  {
    q := [];
    var left := s;
    while left != {}
      invariant left <= s && Elements(q) == s - left
      decreases left
    {
      var x :| x in left;
      assert Elements(q + [x]) == Elements(q) + {x};
      q := q + [x];
      left := left - {x};
    }
  }

  lemma Overwrite<K, V>(m: map<K, V>, key: K, first: V, second: V)
    ensures m[key := first][key := second] == m[key := second]
  {
  }

  // -- What is recorded in a session -------------------------------------------

  /** The track is found by name and number. */
  predicate Recorded(albums: map<Key, Album>, m: Metadata) {
    && AlbumKey(m) in albums && albums[AlbumKey(m)].refsLoaded
    && FindTrack(albums[AlbumKey(m)].tracks, m.title, m.track) != NO_OBJECT
  }

  ghost predicate AllRecorded(albums: map<Key, Album>, ms: seq<Metadata>) {
    forall m | m in ms :: Recorded(albums, m)
  }

  /** Recorded files stay recorded. */
  lemma RecordedStays(before: map<Key, Album>, after: map<Key, Album>, device: State, ms: seq<Metadata>)
    requires AllFollow(before, device) && StateOk(device) && AllLater(before, after) && AllRecorded(before, ms)
    ensures AllRecorded(after, ms)
  {
    forall m | m in ms
      ensures Recorded(after, m)
    {
      assert Recorded(before, m);
      LoadedTracks(before[AlbumKey(m)], device);
      FindTrackPrefix(before[AlbumKey(m)].tracks, after[AlbumKey(m)].tracks, m.title, m.track);
    }
  }

  datatype Imported = New(id: ObjectId) | Skipped(id: ObjectId)

  /** An imported file is recorded. */
  lemma ImportRecords(before: map<Key, Album>, m: Metadata, album: Album, known: seq<Track>, r: Imported)
    requires album.refsLoaded && r.id != NO_OBJECT && NoNullIds(known)
    requires r.Skipped? <==> FindTrack(known, m.title, m.track) != NO_OBJECT
    requires album.tracks == known + (if r.New? then [Track(m.title, m.track, r.id)] else [])
    ensures Recorded(before[AlbumKey(m) := album], m)
  {
    if r.New? {
      FindTrackSnoc(known, Track(m.title, m.track, r.id), m.title, m.track);
    } else {
      assert known + [] == known;
    }
  }

  // -- Sessions ----------------------------------------------------------------

  /** The object of a cached album, the null id if there is none. */
  function IdAt(albums: map<Key, Album>, key: Key): ObjectId {
    if key in albums then albums[key].id else NO_OBJECT
  }

  /** The library has the albums that a session opened now would find. */
  ghost predicate Mirrors(albums: map<Key, Album>, device: State)
    requires StateOk(device)
  {
    forall k {:trigger AlbumUnder(device, k)} :: IdAt(albums, k) == AlbumUnder(device, k)
  }

  lemma MirrorsKept(albums: map<Key, Album>, before: State, after: State, now: map<Key, Album>)
    requires StateOk(before) && StateOk(after) && Mirrors(albums, before)
    requires after.listed == before.listed && Grown(before.objects, after.objects)
    requires forall k :: IdAt(now, k) == IdAt(albums, k)
    ensures Mirrors(now, after)
  {
    forall k
      ensures IdAt(now, k) == AlbumUnder(after, k)
    {
      SameFirst(before.listed, before.objects, after.objects, k);
      assert IdAt(albums, k) == AlbumUnder(before, k);
    }
  }

  /** More objects, or covers, change nothing for the albums. */
  lemma MoreObjects(albums: map<Key, Album>, before: State, after: State)
    requires StateOk(before) && StateOk(after) && Agrees(albums, before)
    requires Grown(before.objects, after.objects) && after.refs == before.refs && after.listed == before.listed
    ensures Agrees(albums, after) && (Mirrors(albums, before) ==> Mirrors(albums, after))
  {
    AllFollowGrow(albums, before, after, {});
    if Mirrors(albums, before) {
      MirrorsKept(albums, before, after, albums);
    }
  }

  lemma TrackMirrors(albums: map<Key, Album>, before: State, after: State, key: Key, t: Track)
    requires StateOk(before) && StateOk(after) && key in albums
    requires after.objects == before.objects && after.listed == before.listed
    ensures Mirrors(albums, before) ==> Mirrors(albums[key := WithTrack(albums[key], t)], after)
  {
    if Mirrors(albums, before) {
      MirrorsKept(albums, before, after, albums[key := WithTrack(albums[key], t)]);
    }
  }

  /** A new album under names that read back is found under its key. */
  lemma NewAlbumMirrors(albums: map<Key, Album>, before: State, key: Key, album: Album, object_: Object)
    requires StateOk(before) && Mirrors(albums, before) && key !in albums
    requires object_.AlbumObject? && KeyOf(object_) == key
    requires album.id !in before.objects && album.id != NO_OBJECT && StateOk(WithAlbum(before, album.id, object_))
    ensures Mirrors(albums[key := album], WithAlbum(before, album.id, object_))
  {
    var after := WithAlbum(before, album.id, object_);
    ReferencesOk(before);
    ReferencesOk(after);
    forall k
      ensures IdAt(albums[key := album], k) == AlbumUnder(after, k)
    {
      assert IdAt(albums, k) == AlbumUnder(before, k);
      NewAlbumUnder(before.listed, before.objects, album.id, object_, k);
    }
  }

  lemma NewAlbumUnder(listed: seq<ObjectId>, was: map<ObjectId, Object>, id: ObjectId, object_: Object, k: Key)
    requires ListOk(listed, was) && id !in was && object_.AlbumObject? && ListOk(listed + [id], was[id := object_])
    ensures FirstUnder(listed + [id], was[id := object_], k)
         == if FirstUnder(listed, was, k) != NO_OBJECT then FirstUnder(listed, was, k)
            else if KeyOf(object_) == k then id else NO_OBJECT
  {
    SameFirst(listed, was, was[id := object_], k);
    FirstUnderSnoc(listed, id, was[id := object_], k);
  }

  /** What is recorded under an album of the library is found by the next session if and only if it
      reads. */
  lemma RecordedFoundIff(albums: map<Key, Album>, device: State, m: Metadata)
    requires StateOk(device) && AllFollow(albums, device) && Mirrors(albums, device) && Recorded(albums, m)
    ensures Finds(device, m) <==> Reads(m)
  {
    var album := albums[AlbumKey(m)];
    assert AlbumUnder(device, AlbumKey(m)) == IdAt(albums, AlbumKey(m)) == album.id;
    KeysRead(device, AlbumKey(m));
    LoadedTracks(album, device);
    FindTrackMeaning(album.tracks, m.title, m.track);
    var t := Track(m.title, m.track, FindTrack(album.tracks, m.title, m.track));
    OnDeviceIfReadsBack(album.tracks, device.refs[album.id], device.objects, t);
  }

  /** A library that knows nothing but what a session opened now would find. */
  ghost predicate Clean(albums: map<Key, Album>, device: State)
    requires StateOk(device)
  {
    Mirrors(albums, device) && forall k | k in albums :: AllReadBack(albums[k].tracks)
  }

  /** Such a library finds a file exactly if a session opened now does. */
  lemma CleanFinds(albums: map<Key, Album>, device: State, m: Metadata, known: seq<Track>)
    requires StateOk(device) && Clean(albums, device) && AllFollow(albums, device)
    requires Faithful(known, RefsOf(AlbumKey(m), albums, device.refs), device.objects) && AllReadBack(known)
    ensures FindTrack(known, m.title, m.track) != NO_OBJECT <==> Finds(device, m)
  {
    var key := AlbumKey(m);
    assert AlbumUnder(device, key) == IdAt(albums, key);
    RefsOk(albums, device, key);
    RightWhenAllReadBack(known, RefsOf(key, albums, device.refs), device.objects, m.title, m.track);
  }

  lemma RefsOk(albums: map<Key, Album>, device: State, key: Key)
    requires StateOk(device) && AllFollow(albums, device)
    ensures TracksOk(RefsOf(key, albums, device.refs), device.objects)
    ensures key in albums ==> albums[key].id in device.refs && albums[key].id != NO_OBJECT
  {
    if key in albums {
      assert Follows(albums[key], device);
      LoadedTracks(albums[key], device);
    }
  }

  // -- The library -----------------------------------------------------------

  /** Artists are filed under their names, and those of all albums are. */
  ghost predicate ArtistsKnown(artists: map<Name, Artist>, albums: map<Key, Album>, objects: map<ObjectId, Object>) {
    && (forall n | n in artists :: artists[n].name == n && ArtistRight(artists[n], objects))
    && (forall k | k in albums :: k.0 in artists)
  }

  /** The object has this artist and this name, as the device keeps them; without an artist it is
      filed as of an unknown one. */
  predicate FiledUnder(k: Key, o: Object) {
    && o.AlbumObject? && o.name == Recoded(k.1)
    && (o.artist == Recoded(k.0) || (o.artist == [] && k.0 == UNKNOWN_ARTIST))
  }

  /** Albums are filed under artist and name of their objects. */
  ghost predicate AllFiled(albums: map<Key, Album>, objects: map<ObjectId, Object>) {
    forall k | k in albums :: albums[k].id in objects && FiledUnder(k, objects[albums[k].id])
  }

  /** Neither changes when objects are added. */
  lemma KnownGrows(artists: map<Name, Artist>, albums: map<Key, Album>, before: map<ObjectId, Object>, after: map<ObjectId, Object>)
    requires Grown(before, after)
    ensures ArtistsKnown(artists, albums, before) ==> ArtistsKnown(artists, albums, after)
    ensures AllFiled(albums, before) ==> AllFiled(albums, after)
  {
  }

  /** Nor when an album gains a track. */
  lemma KeptFiled(artists: map<Name, Artist>, albums: map<Key, Album>, key: Key, album: Album, objects: map<ObjectId, Object>)
    requires key in albums && album.id == albums[key].id
    ensures ArtistsKnown(artists, albums, objects) ==> ArtistsKnown(artists, albums[key := album], objects)
    ensures AllFiled(albums, objects) ==> AllFiled(albums[key := album], objects)
  {
  }

  lemma FiledIfRead(k: Key, o: Object)
    requires o.AlbumObject? && ObjectOk(o) && KeyOf(o) == k
    ensures FiledUnder(k, o)
  {
    RecodedIff(o.artist);
    RecodedIff(o.name);
  }

  /** A file's track is in the album of its artist and its name. */
  ghost predicate InItsAlbum(albums: map<Key, Album>, s: State, m: Metadata, id: ObjectId) {
    var k := (if m.artist == [] then UNKNOWN_ARTIST else m.artist, if m.album == [] then UNKNOWN_ALBUM else m.album);
    && k in albums && albums[k].id in s.objects && FiledUnder(k, s.objects[albums[k].id])
    && albums[k].id in s.refs && id in s.refs[albums[k].id]
  }

  /** Every listed album is there, under its artist and its name. */
  ghost predicate AlbumsLoaded(albums: map<Key, Album>, s: State) {
    forall a | a in s.listed ::
      && a in s.objects && s.objects[a].AlbumObject?
      && (if s.objects[a].artist == [] then UNKNOWN_ARTIST else s.objects[a].artist, s.objects[a].name) in albums
  }

  /** The artist objects among these have been loaded. */
  ghost predicate ArtistsLoaded(artists: map<Name, Artist>, objects: map<ObjectId, Object>, ids: set<ObjectId>) {
    forall id | id in ids && id in objects && objects[id].ArtistObject? ::
      objects[id].name in artists && artists[objects[id].name].id != NO_OBJECT
  }

  ghost predicate ArtistsSoFar(artists: map<Name, Artist>, objects: map<ObjectId, Object>, left: set<ObjectId>) {
    && ArtistsLoaded(artists, objects, objects.Keys - left)
    && forall n | n in artists :: artists[n].name == n && artists[n].id != NO_OBJECT && IsArtist(objects, artists[n].id, n)
  }

  lemma ArtistNext(artists: map<Name, Artist>, s: State, left: set<ObjectId>, id: ObjectId, folder: ObjectId)
    requires StateOk(s) && id in left && id in s.objects && ArtistsSoFar(artists, s.objects, left)
    ensures var o := s.objects[id];
      ArtistsSoFar(if o.ArtistObject? && o.name !in artists then artists[o.name := Artist(id, folder, o.name)] else artists,
                   s.objects, left - {id})
  {
    var o := s.objects[id];
    RecodedIff(o.name);
    var now := if o.ArtistObject? && o.name !in artists then artists[o.name := Artist(id, folder, o.name)] else artists;
    forall x | x in s.objects.Keys - (left - {id}) && s.objects[x].ArtistObject?
      ensures s.objects[x].name in now && now[s.objects[x].name].id != NO_OBJECT
    {
      assert x == id || x in s.objects.Keys - left;
    }
  }

  /** What the device supports, and where its music is. */
  datatype Support = Support(artists: bool, covers: bool, dates: bool, musicFolder: ObjectId)

  /** What a list says of the artist. */
  function Named(support: Support, artist: Artist): Lists.Artist {
    Lists.Artist(support.artists, artist.id, artist.name)
  }

  /** An artist with its folder, and its object if the device has such. */
  ghost predicate MadeArtist(support: Support, artist: Artist, name: Name, objects: map<ObjectId, Object>) {
    && artist.name == name
    && artist.musicFolder in objects && objects[artist.musicFolder] == Folder(support.musicFolder, Recoded(name))
    && (if support.artists then IsArtist(objects, artist.id, name) else artist.id == NO_OBJECT)
  }

  /** The properties of the file's album. */
  function AlbumProperties(support: Support, artist: Artist, m: Metadata): Properties {
    Lists.AlbumList(Named(support, artist), AlbumKey(m).1, m.year, support.dates, m.date)
  }

  /** A file's album, made for this artist. */
  ghost predicate MadeAlbum(support: Support, album: Album, artist: Artist, m: Metadata, objects: map<ObjectId, Object>) {
    && album.id in objects && !album.refsLoaded && album.tracks == []
    && objects[album.id] == NewAlbumObject(AlbumKey(m).0, AlbumKey(m).1, if m.year != 0 && support.dates then m.date else [])
    && album.musicFolder in objects && objects[album.musicFolder] == Folder(artist.musicFolder, Recoded(AlbumKey(m).1))
  }

  lemma AlbumReceived(support: Support, artist: Artist, m: Metadata, data: bytes, s: State)
    requires StateOk(s) && ArtistRight(artist, s.objects) && artist.name == AlbumKey(m).0
    requires |AlbumProperties(support, artist, m)| <= 4 && Lists.EncodeList(AlbumProperties(support, artist, m)) == Ok(data)
    requires Lists.AllCounted(AlbumProperties(support, artist, m))
    ensures var o := ObjectFrom(AlbumFormat, Lists.Entries(data), s.objects);
      o.Some? ==> o.value == NewAlbumObject(AlbumKey(m).0, AlbumKey(m).1, if m.year != 0 && support.dates then m.date else [])
  {
    hide StateOk, ObjectFrom, NewAlbumObject, Lists.EncodeList, Lists.Entries, Lists.AllCounted, Lists.SaysAlbum, Lists.AlbumOk, Lists.AlbumList;
    Lists.AlbumSays(Named(support, artist), AlbumKey(m).1, m.year, support.dates, m.date);
    AlbumFrom(Lists.Entries(data), s, artist, support.artists, AlbumKey(m).1, m.year, support.dates, m.date);
  }

  class Library {
    const device: Device
    const support: Support
    var artists: map<Name, Artist>
    var albums: map<Key, Album>

    constructor (device: Device, support: Support)
      requires device.Valid()
      ensures Valid() && this.device == device && this.support == support && artists == map[] && albums == map[]
    {
      this.device, this.support := device, support;
      artists, albums := map[], map[];
    }

    /** The cached albums agree with the device, and their artists are known. */
    ghost predicate Valid()
      reads this, device
    {
      && device.Valid() && Agrees(albums, device.Snapshot())
      && ArtistsKnown(artists, albums, device.objects) && AllFiled(albums, device.objects)
    }

    /** Loading artists and albums when the library is made: the first album the device lists under a
        key is kept. */
    method Load()
      requires Valid() && artists == map[] && albums == map[]
      modifies this`artists, this`albums
      ensures Valid() && Clean(albums, device.Snapshot()) && AlbumsLoaded(albums, device.Snapshot())
      ensures support.artists ==> ArtistsLoaded(artists, device.objects, device.objects.Keys)
    {
      LoadArtists();
      ghost var loaded := artists;
      var i := 0;
      while i < |device.listed|
        invariant 0 <= i <= |device.listed|
        invariant LoadedSoFar(albums, device.Snapshot(), i)
        invariant ArtistsKnown(artists, albums, device.objects)
        invariant forall n | n in loaded :: n in artists && artists[n] == loaded[n]
      {
        LoadOne(i);
        i := i + 1;
      }
      assert device.listed[..i] == device.listed;
      LoadedAll(albums, device.Snapshot());
      EachLoaded(albums, device.Snapshot());
    }

    /** The artist objects, one under each name. */
    method LoadArtists()
      requires Valid() && artists == map[] && albums == map[]
      modifies this`artists
      ensures ArtistsKnown(artists, albums, device.objects)
      ensures if support.artists then ArtistsLoaded(artists, device.objects, device.objects.Keys) else artists == map[]
    {
      if !support.artists {
        return;
      }
      var left := device.objects.Keys;
      while left != {}
        invariant left <= device.objects.Keys
        invariant ArtistsSoFar(artists, device.objects, left)
        decreases left
      {
        var id :| id in left;
        ArtistNext(artists, device.Snapshot(), left, id, support.musicFolder);
        left := left - {id};
        if device.objects[id].ArtistObject? && device.objects[id].name !in artists {
          artists := artists[device.objects[id].name := Artist(id, support.musicFolder, device.objects[id].name)];
        }
      }
    }

    method LoadOne(i: nat)
      requires device.Valid() && i < |device.listed| && LoadedSoFar(albums, device.Snapshot(), i)
      requires ArtistsKnown(artists, albums, device.objects)
      modifies this`artists, this`albums
      ensures LoadedSoFar(albums, device.Snapshot(), i + 1)
      ensures ArtistsKnown(artists, albums, device.objects)
      ensures forall n | n in old(artists) :: n in artists && artists[n] == old(artists)[n]
    {
      var id := device.listed[i];
      var key := KeyOf(device.objects[id]);
      if key.0 !in artists {
        artists := artists[key.0 := Artist(NO_OBJECT, support.musicFolder, key.0)];
      }
      var album := Album(id, support.musicFolder, key.1, false, {}, []);
      LoadedNext(albums, device.Snapshot(), i, album);
      if key !in albums {
        albums := albums[key := album];
      }
    }

    /** GetOrCreate: a folder of that name in that place, as the device keeps it; a new one only if
        there is none. */
    method GetOrCreate(parent: ObjectId, name: Name) returns (r: Result<ObjectId, ImportError>)
      requires device.Valid()
      modifies device`objects, device`next
      ensures device.Valid() && Grown(old(device.objects), device.objects)
      ensures r.Ok? ==> r.value in device.objects && device.objects[r.value] == Folder(parent, Recoded(name))
      ensures if HasFolder(old(device.objects), parent, name) then r.Ok? && device.objects == old(device.objects)
              else r.Ok? ==> r.value !in old(device.objects)
    {
      hide StateOk, HasFolder;
      var found := FindFolder(parent, name);
      if found.Some? {
        return Ok(found.value);
      }
      r := CreateDirectory(parent, name);
    }

    /** One of the folders of that name. */
    method FindFolder(parent: ObjectId, name: Name) returns (r: Option<ObjectId>)
      requires device.Valid()
      ensures r.Some? <==> HasFolder(device.objects, parent, name)
      ensures r.Some? ==> r.value in device.objects && device.objects[r.value] == Folder(parent, Recoded(name))
    {
      var found := set o | o in device.objects && device.objects[o] == Folder(parent, name);
      if found == {} {
        assert forall o | o in device.objects :: device.objects[o] == Folder(parent, name) ==> o in found;
        return None;
      }
      var id :| id in found;
      RecodedIff(name);
      assert ObjectOk(device.objects[id]);
      r := Some(id);
    }

    method CreateDirectory(parent: ObjectId, name: Name) returns (r: Result<ObjectId, ImportError>)
      requires device.Valid()
      modifies device`objects, device`next
      ensures device.Valid() && Grown(old(device.objects), device.objects)
      ensures r.Err? ==> device.objects == old(device.objects)
      ensures r.Ok? ==> r.value !in old(device.objects)
      ensures r.Ok? ==> device.objects == old(device.objects)[r.value := Folder(parent, Recoded(name))]
    {
      hide Lists.EncodeList, Lists.Entries, Lists.TextOk, Lists.SaysFolder, ObjectFrom, StateOk, ObjectOk;
      var list := Lists.CreateFolderList(name);
      if list.Err? {
        return Err(TooBig);
      }
      r := device.Send(Association(parent), list.value, Lists.FolderList(name));
      if r.Ok? {
        Lists.FolderSays(name);
        FolderFrom(parent, Lists.Entries(list.value), old(device.objects), name);
      }
    }

    /** A record already there under that name stays, as map insertion leaves it. */
    method CreateArtist(name: Name) returns (r: Result<Artist, ImportError>)
      requires Valid()
      modifies this`artists, device`objects, device`next
      ensures Valid() && Grown(old(device.objects), device.objects)
      ensures Mirrors(albums, old(device.Snapshot())) ==> Mirrors(albums, device.Snapshot())
      ensures r.Err? ==> artists == old(artists)
      ensures r.Ok? ==> MadeArtist(support, r.value, ArtistKey(name), device.objects)
      ensures r.Ok? ==>
        artists == if ArtistKey(name) in old(artists) then old(artists) else old(artists)[ArtistKey(name) := r.value]
    {
      var key := ArtistKey(name);
      var made := MakeArtist(key);
      MoreObjects(albums, old(device.Snapshot()), device.Snapshot());
      KnownGrows(artists, albums, old(device.objects), device.objects);
      if made.Err? {
        return Err(made.error);
      }
      if key !in artists {
        artists := artists[key := made.value];
      }
      r := Ok(made.value);
    }

    method MakeArtist(name: Name) returns (r: Result<Artist, ImportError>)
      requires device.Valid()
      modifies device`objects, device`next
      ensures device.Valid() && Grown(old(device.objects), device.objects)
      ensures r.Ok? ==> MadeArtist(support, r.value, name, device.objects)
    {
      var folder :- GetOrCreate(support.musicFolder, name);
      var id := NO_OBJECT;
      if support.artists {
        id :- SendArtist(name);
      }
      r := Ok(Artist(id, folder, name));
    }

    method SendArtist(name: Name) returns (r: Result<ObjectId, ImportError>)
      requires device.Valid()
      modifies device`objects, device`next
      ensures device.Valid() && Grown(old(device.objects), device.objects)
      ensures r.Ok? ==> IsArtist(device.objects, r.value, name)
      ensures r.Ok? ==> device.objects[r.value].filename == Recoded(name + [0x2e, 0x61, 0x72, 0x74])
    {
      hide Lists.EncodeList, Lists.Entries, Lists.ArtistOk, Lists.SaysArtist, ObjectFrom;
      var list := Lists.CreateArtistList(name);
      if list.Err? {
        return Err(TooBig);
      }
      r := device.Send(ArtistFormat, list.value, Lists.ArtistList(name));
      if r.Ok? {
        Lists.ArtistSays(name);
        ArtistFrom(Lists.Entries(list.value), old(device.objects), name);
      }
    }

    /** The folder of an album. */
    method AlbumFolder(artist: Artist, name: Name) returns (r: Result<ObjectId, ImportError>)
      requires Valid()
      modifies device`objects, device`next
      ensures Valid() && Grown(old(device.objects), device.objects)
      ensures Mirrors(albums, old(device.Snapshot())) ==> Mirrors(albums, device.Snapshot())
      ensures r.Ok? ==> r.value in device.objects && device.objects[r.value] == Folder(artist.musicFolder, Recoded(name))
    {
      r := GetOrCreate(artist.musicFolder, name);
      MoreObjects(albums, old(device.Snapshot()), device.Snapshot());
      KnownGrows(artists, albums, old(device.objects), device.objects);
    }

    /** A new album; its list is built before its folder is made. */
    method CreateAlbum(artist: Artist, m: Metadata) returns (r: Result<Album, ImportError>)
      requires Valid() && artist.name in artists && ArtistRight(artist, device.objects)
      requires artist.name == AlbumKey(m).0 && AlbumKey(m) !in albums
      modifies this`albums, device`objects, device`next, device`refs, device`listed
      ensures Valid() && Grown(old(device.objects), device.objects)
      ensures r.Err? ==> albums == old(albums) && device.refs == old(device.refs) && device.listed == old(device.listed)
      ensures r.Ok? ==> albums == old(albums)[AlbumKey(m) := r.value] && NewlyAdded(r.value, old(device.Snapshot()), device.Snapshot())
      ensures r.Ok? ==> MadeAlbum(support, r.value, artist, m, device.objects)
      ensures KeyReads(m) && Mirrors(old(albums), old(device.Snapshot())) ==> Mirrors(albums, device.Snapshot())
    {
      hide StateOk, Lists.EncodeList, Lists.Entries, Lists.ReadWhole, Lists.SaysAlbum, Lists.AlbumOk;
      var list := Lists.CreateAlbumList(Named(support, artist), AlbumKey(m).1, m.year, support.dates, m.date);
      if list.Err? {
        return Err(TooBig);
      }
      var folder := AlbumFolder(artist, AlbumKey(m).1);
      if folder.Err? {
        return Err(folder.error);
      }
      r := PutAlbum(artist, m, list.value, folder.value);
    }

    method PutAlbum(artist: Artist, m: Metadata, data: bytes, folder: ObjectId) returns (r: Result<Album, ImportError>)
      requires Valid() && artist.name in artists && ArtistRight(artist, device.objects)
      requires artist.name == AlbumKey(m).0 && AlbumKey(m) !in albums
      requires |AlbumProperties(support, artist, m)| <= 4 && Lists.EncodeList(AlbumProperties(support, artist, m)) == Ok(data)
      requires folder in device.objects && device.objects[folder] == Folder(artist.musicFolder, Recoded(AlbumKey(m).1))
      modifies this`albums, device`objects, device`next, device`refs, device`listed
      ensures Valid() && Grown(old(device.objects), device.objects)
      ensures r.Err? ==> albums == old(albums) && device.Snapshot() == old(device.Snapshot())
      ensures r.Ok? ==> albums == old(albums)[AlbumKey(m) := r.value] && NewlyAdded(r.value, old(device.Snapshot()), device.Snapshot())
      ensures r.Ok? ==> MadeAlbum(support, r.value, artist, m, device.objects)
      ensures KeyReads(m) && Mirrors(old(albums), old(device.Snapshot())) ==> Mirrors(albums, device.Snapshot())
    {
      hide StateOk, ObjectFrom, NewAlbumObject, AlbumProperties, Mirrors, Lists.EncodeList, Lists.Entries, Agrees, ObjectOk, WellFormed, Recoded;
      var key := AlbumKey(m);
      ghost var before, date := device.Snapshot(), if m.year != 0 && support.dates then m.date else [];
      var id :- device.SendAlbum(data, AlbumProperties(support, artist, m));
      ghost var object_ := NewAlbumObject(key.0, key.1, date);
      AlbumReceived(support, artist, m, data, before);
      NamesKept(key, date);
      var album := Album(id, folder, key.1, false, {}, []);
      AlbumAdded(albums, before, device.Snapshot(), key, album);
      if KeyReads(m) && Mirrors(albums, before) {
        NewAlbumMirrors(albums, before, key, album, object_);
      }
      KnownGrows(artists, albums, before.objects, device.objects);
      albums := albums[key := album];
      r := Ok(album);
    }

    /** LoadRefs: once per album. */
    method LoadRefs(key: Key) returns (album: Album)
      requires Valid() && key in albums
      modifies this`albums
      ensures Valid() && albums == old(albums)[key := album]
      ensures album.refsLoaded && Follows(album, device.Snapshot()) && Later(old(albums)[key], album)
      ensures if old(albums)[key].refsLoaded then albums == old(albums) else AllReadBack(album.tracks)
    {
      hide AllFiled, ArtistsKnown;
      album := albums[key];
      if album.refsLoaded {
        assert albums[key := album] == albums;
        return;
      }
      var tracks := ReadTracks(device.refs[album.id]);
      KeptFiled(artists, albums, key, album.(refsLoaded := true, refs := Elements(device.refs[album.id]), tracks := tracks), device.objects);
      album := album.(refsLoaded := true, refs := Elements(device.refs[album.id]), tracks := tracks);
      AgreesUpdate(albums, device.Snapshot(), key, album);
      albums := albums[key := album];
    }

    /** Name and number of each referenced track. */
    method ReadTracks(refs: seq<ObjectId>) returns (tracks: seq<Track>)
      requires forall t | t in refs :: t in device.objects && device.objects[t].TrackObject? && ObjectOk(device.objects[t])
      ensures Faithful(tracks, refs, device.objects) && AllReadBack(tracks)
    {
      tracks := [];
      var i := 0;
      while i < |refs|
        invariant 0 <= i <= |refs| && ReadSoFar(tracks, refs, device.objects, i)
      {
        assert refs[i] in refs;
        var track := Track(device.objects[refs[i]].name, device.objects[refs[i]].index, refs[i]);
        ReadNext(tracks, refs, device.objects, i, track);
        tracks := tracks + [track];
        i := i + 1;
      }
    }

    /** GetTrackId; the null id if there is no such track. */
    method GetTrackId(key: Key, name: Name, index: int) returns (id: ObjectId, album: Album)
      requires Valid() && key in albums
      modifies this`albums
      ensures Valid() && albums == old(albums)[key := album]
      ensures album.refsLoaded && Follows(album, device.Snapshot()) && Later(old(albums)[key], album)
      ensures if old(albums)[key].refsLoaded then albums == old(albums) else AllReadBack(album.tracks)
      ensures Mirrors(old(albums), device.Snapshot()) ==> Mirrors(albums, device.Snapshot())
      ensures id == FindTrack(album.tracks, name, index)
    {
      hide Agrees;
      album := LoadRefs(key);
      if Mirrors(old(albums), device.Snapshot()) {
        MirrorsKept(old(albums), device.Snapshot(), device.Snapshot(), albums);
      }
      id := Search(album.tracks, name, index);
    }

    /** The entries under a name, up to one with that number. */
    method Search(tracks: seq<Track>, name: Name, index: int) returns (id: ObjectId)
      ensures id == FindTrack(tracks, name, index)
    {
      var i := 0;
      while i < |tracks|
        invariant 0 <= i <= |tracks|
        invariant FindTrack(tracks[i..], name, index) == FindTrack(tracks, name, index)
      {
        assert tracks[i..][1..] == tracks[i + 1..];
        if tracks[i].name == name && tracks[i].index == index {
          return tracks[i].id;
        }
        i := i + 1;
      }
      id := NO_OBJECT;
    }

    /** AddTrack: the device's list becomes the cached one plus the new track. */
    method AddTrack(key: Key, t: Track) returns (album: Album)
      requires Valid() && key in albums && Describes(t, device.objects)
      modifies this`albums, device`refs
      ensures Valid() && albums == old(albums)[key := album]
      ensures album.refsLoaded && Follows(album, device.Snapshot()) && Later(old(albums)[key], album)
      ensures old(albums)[key].refsLoaded ==> album.tracks == old(albums)[key].tracks + [t]
      ensures album.id in old(device.refs) && album.id in device.refs
      ensures device.refs == old(device.refs)[album.id := device.refs[album.id]]
      ensures Elements(device.refs[album.id]) == Elements(old(device.refs)[album.id]) + {t.id}
    {
      var loaded := LoadRefs(key);
      album := Append(key, t);
      Overwrite(old(albums), key, loaded, album);
    }

    /** The rest of AddTrack, with the references loaded. */
    method Append(key: Key, t: Track) returns (album: Album)
      requires Valid() && key in albums && albums[key].refsLoaded && Describes(t, device.objects)
      modifies this`albums, device`refs
      ensures Valid() && albums == old(albums)[key := album] && album == WithTrack(old(albums)[key], t)
      ensures Follows(album, device.Snapshot())
      ensures album.id in old(device.refs) && album.id in device.refs
      ensures device.refs == old(device.refs)[album.id := device.refs[album.id]]
      ensures Elements(device.refs[album.id]) == Elements(old(device.refs)[album.id]) + {t.id}
    {
      hide StateOk, ObjectOk, AllFiled, ArtistsKnown;
      album := albums[key];
      KeptFiled(artists, albums, key, WithTrack(album, t), device.objects);
      var handles := ToSeq(album.refs);
      handles := handles + [t.id];
      AddedAgrees(albums, device.Snapshot(), key, handles, t);
      device.SetObjectReferences(album.id, handles);
      album := WithTrack(album, t);
      albums := albums[key := album];
    }

    /** The artist and the album of a file, created if need be. */
    method Place(m: Metadata) returns (r: Result<Album, ImportError>)
      requires Valid()
      modifies this`artists, this`albums, device`objects, device`next, device`refs, device`listed
      ensures Valid() && Grown(old(device.objects), device.objects)
      ensures KeyReads(m) && Mirrors(old(albums), old(device.Snapshot())) ==> Mirrors(albums, device.Snapshot())
      ensures r.Err? ==> AlbumKey(m) !in old(albums)
      ensures r.Err? ==> albums == old(albums) && device.refs == old(device.refs) && device.listed == old(device.listed)
      ensures r.Ok? ==> albums == old(albums)[AlbumKey(m) := r.value]
      ensures r.Ok? ==>
        if AlbumKey(m) in old(albums)
        then r.value == old(albums)[AlbumKey(m)] && artists == old(artists) && device.Snapshot() == old(device.Snapshot())
        else NewlyAdded(r.value, old(device.Snapshot()), device.Snapshot())
    {
      hide StateOk;
      var key := AlbumKey(m);
      if key in albums {
        assert albums[key := albums[key]] == albums;
        return Ok(albums[key]);
      }
      var artist;
      if key.0 in artists {
        artist := artists[key.0];
      } else {
        artist :- CreateArtist(m.artist);
      }
      r := CreateAlbum(artist, m);
    }

    /** A new track for an album whose references are loaded. One that breaks off leaves at most an
        object no album refers to, and the cover. */
    method Store(m: Metadata) returns (r: Result<ObjectId, ImportError>)
      requires Valid() && AlbumKey(m) in albums && albums[AlbumKey(m)].refsLoaded
      modifies this`albums, device
      ensures Valid() && Grown(old(device.objects), device.objects)
      ensures Mirrors(old(albums), old(device.Snapshot())) ==> Mirrors(albums, device.Snapshot())
      ensures r.Err? ==> albums == old(albums) && device.refs == old(device.refs) && device.listed == old(device.listed)
      ensures r.Ok? ==> StoredAs(old(albums), old(device.Snapshot()), albums, device.Snapshot(), m, r.value)
      ensures r.Ok? ==> device.covers == CoversAfter(old(device.covers), albums[AlbumKey(m)].id, m)
    {
      hide StateOk, Mirrors, Agrees, Gains, ObjectOk, StoredAs;
      ghost var before, was := albums, device.Snapshot();
      r := SendTrack(m, AlbumKey(m));
      ghost var sent := device.Snapshot();
      MoreObjects(before, was, sent);
      if r.Err? {
        return;
      }
      var put := PutTrack(m, Track(m.title, m.track, r.value));
      if put.Err? {
        return Err(put.error);
      }
      StoredMeaning(before, was, albums, sent, device.Snapshot(), m, r.value);
    }

    function CoversAfter(covers: map<ObjectId, seq<int>>, album: ObjectId, m: Metadata): map<ObjectId, seq<int>> {
      if m.cover != [] && support.covers then covers[album := m.cover] else covers
    }

    /** The data, the cover, then the reference. */
    method PutTrack(m: Metadata, t: Track) returns (r: Result<(), ImportError>)
      requires Valid() && AlbumKey(m) in albums && albums[AlbumKey(m)].refsLoaded && Describes(t, device.objects)
      modifies this`albums, device`refs, device`covers
      ensures Valid()
      ensures Mirrors(old(albums), old(device.Snapshot())) ==> Mirrors(albums, device.Snapshot())
      ensures r.Err? ==> albums == old(albums) && device.refs == old(device.refs)
      ensures r.Ok? ==> albums == old(albums)[AlbumKey(m) := WithTrack(old(albums)[AlbumKey(m)], t)]
      ensures r.Ok? ==> Gains(old(albums)[AlbumKey(m)].id, old(device.Snapshot()), device.Snapshot(), t.id)
      ensures r.Ok? ==> device.covers == CoversAfter(old(device.covers), old(albums)[AlbumKey(m)].id, m)
    {
      hide StateOk, Mirrors, Agrees, Describes;
      if device.breaks(t.id, SendingData) {
        return Err(Broken);
      }
      ghost var before, was := albums, device.Snapshot();
      if m.cover != [] && support.covers {
        if device.breaks(t.id, SettingCover) {
          return Err(Broken);
        }
        device.SetCover(albums[AlbumKey(m)].id, m.cover);
        MoreObjects(before, was, device.Snapshot());
      }
      if device.breaks(t.id, SettingReferences) {
        return Err(Broken);
      }
      ghost var then_ := device.Snapshot();
      var album := Append(AlbumKey(m), t);
      TrackMirrors(before, then_, device.Snapshot(), AlbumKey(m), t);
      r := Ok(());
    }

    /** CreateTrack: the list is built, then sent. */
    method SendTrack(m: Metadata, key: Key) returns (r: Result<ObjectId, ImportError>)
      requires device.Valid() && ArtistsKnown(artists, albums, device.objects) && key in albums && key == AlbumKey(m)
      modifies device`objects, device`next
      ensures device.Valid()
      ensures r.Err? ==> device.objects == old(device.objects)
      ensures r.Ok? ==> r.value != NO_OBJECT && r.value !in old(device.objects)
      ensures r.Ok? ==> device.objects == old(device.objects)[r.value := NewTrackObject(albums[key].musicFolder, m)]
    {
      hide StateOk, ObjectFrom, NewTrackObject, Lists.EncodeList, Lists.Entries, Lists.TrackOk, Lists.SaysTrack, Lists.AllCounted;
      var artist := artists[key.0];
      var list := Lists.CreateTrackList(Named(support, artist), m.title, m.track, m.genre, m.filename);
      if list.Err? {
        return Err(TooBig);
      }
      r := device.Send(AudioFormat(albums[key].musicFolder), list.value,
                       Lists.TrackList(Named(support, artist), m.title, m.track, m.genre, m.filename));
      if r.Ok? {
        Lists.TrackSays(Named(support, artist), m.title, m.track, m.genre, m.filename);
        TrackFrom(albums[key].musicFolder, Lists.Entries(list.value), old(device.Snapshot()), artist, support.artists, m);
      }
    }

    /** The album of a file with its references loaded, and the track if it is there. */
    method Look(m: Metadata) returns (r: Result<ObjectId, ImportError>)
      requires Valid()
      modifies this`artists, this`albums, device`objects, device`next, device`refs, device`listed
      ensures Valid() && Grown(old(device.objects), device.objects)
      ensures KeyReads(m) && Mirrors(old(albums), old(device.Snapshot())) ==> Mirrors(albums, device.Snapshot())
      ensures r.Err? ==> AlbumKey(m) !in old(albums)
      ensures r.Err? ==> albums == old(albums) && device.refs == old(device.refs) && device.listed == old(device.listed)
      ensures r.Ok? ==> LookedUp(old(albums), old(device.Snapshot()), albums, device.Snapshot(), m)
      ensures r.Ok? ==> AlbumKey(m) in old(albums) ==> artists == old(artists)
      ensures r.Ok? ==> r.value == FindTrack(albums[AlbumKey(m)].tracks, m.title, m.track)
    {
      hide Valid;
      var placed :- Place(m);
      ghost var middle := albums;
      var existing, album := GetTrackId(AlbumKey(m), m.title, m.track);
      LookedMeaning(old(albums), old(device.Snapshot()), placed, middle, device.Snapshot(), album, m);
      r := Ok(existing);
    }

    /** ZuneImport: with `known` the tracks of the file's album, a track among them is skipped and
        the device stays as it is; any other becomes one new object that the album alone gains. An
        exception leaves every album with what it had. */
    method ZuneImport(m: Metadata) returns (r: Result<Imported, ImportError>, ghost known: seq<Track>)
      requires Valid()
      modifies this`artists, this`albums, device
      ensures Valid() && AllLater(old(albums), albums) && Extends(old(device.Snapshot()), device.Snapshot())
      ensures KeyReads(m) && Mirrors(old(albums), old(device.Snapshot())) ==> Mirrors(albums, device.Snapshot())
      ensures r.Err? ==> Unharmed(old(device.Snapshot()), device.Snapshot())
      ensures r.Err? ==> Missed(old(albums), old(device.Snapshot()), m, known)
      ensures r.Ok? ==> ImportedAs(old(albums), old(device.Snapshot()), albums, device.Snapshot(), m, known, r.value)
      ensures r.Ok? ==> InItsAlbum(albums, device.Snapshot(), m, r.value.id)
      ensures r.Ok? && r.value.New? ==>
        device.covers == if m.cover != [] && support.covers then old(device.covers)[albums[AlbumKey(m)].id := m.cover]
                         else old(device.covers)
    {
      hide StateOk, InItsAlbum, Mirrors, AllFollow, AllFiled, Distinct, ArtistsKnown, Extends, Unharmed, ImportedAs, AllLater, Gains, ObjectOk;
      ghost var before, was := albums, device.Snapshot();
      known := [];
      var existing := Look(m);
      if existing.Err? {
        ErrorIsHarmless(before, was, albums, device.Snapshot());
        return Err(existing.error), [];
      }
      ghost var middle, looked := albums, device.Snapshot();
      known := albums[AlbumKey(m)].tracks;
      if existing.value != NO_OBJECT {
        SkipMeaning(before, was, middle, looked, m);
        ImportIsPlaced(before, was, middle, looked, m, known, Skipped(existing.value));
        return Ok(Skipped(existing.value)), known;
      }
      var stored := Store(m);
      if stored.Err? {
        KnownTracks(before, was, middle, looked, m);
        BrokeOff(before, was, albums, looked, device.Snapshot(), m);
        return Err(stored.error), known;
      }
      NewMeaning(before, was, middle, looked, albums, device.Snapshot(), m, stored.value);
      ImportIsPlaced(before, was, albums, device.Snapshot(), m, known, New(stored.value));
      r := Ok(New(stored.value));
    }

    /** Importing files one after the other, up to an exception. Files recorded in this session are
        skipped. A session opened now finds what was imported only if it reads, and exactly if it
        does where no album was made under names that do not. Starting with nothing but what it
        found on the device, this session skips a file exactly if it found its track there or
        imported it before. Each id is that of a track of this title and number. */
    method ImportAll(ms: seq<Metadata>) returns (rs: seq<Imported>, error: Option<ImportError>)
      requires Valid()
      modifies this`artists, this`albums, device
      ensures Valid() && AllLater(old(albums), albums) && Extends(old(device.Snapshot()), device.Snapshot())
      ensures |rs| <= |ms| && (error.None? <==> |rs| == |ms|) && AllRecorded(albums, ms[..|rs|])
      ensures AllSkipped(rs) && error.None? ==> device.Snapshot() == old(device.Snapshot())
      ensures AllRecorded(old(albums), ms) ==> error.None? && AllSkipped(rs)
      ensures Identified(device.objects, ms[..|rs|], rs)
      ensures FoundLater(old(albums), old(device.Snapshot()), device.Snapshot(), ms[..|rs|])
      ensures Clean(old(albums), old(device.Snapshot())) ==>
        && Told(old(device.Snapshot()), ms, rs)
        && (error.None? && AllSkipped(rs) <==> AllFound(old(device.Snapshot()), ms))
    {
      ghost var start, was := albums, device.Snapshot();
      rs, error := ImportLoop(ms);
      if error.None? {
        AllDone(start, was, albums, device.Snapshot(), ms, rs);
        assert ms[..|rs|] == ms;
      } else {
        StoppedMeans(start, was, albums, device.Snapshot(), ms, rs);
      }
    }

    method ImportLoop(ms: seq<Metadata>) returns (rs: seq<Imported>, error: Option<ImportError>)
      requires Valid()
      modifies this`artists, this`albums, device
      ensures Valid() && |rs| <= |ms| && (error.None? <==> |rs| == |ms|)
      ensures error.None? ==> Progress(old(albums), old(device.Snapshot()), albums, device.Snapshot(), ms, rs)
      ensures error.Some? ==>
        StoppedAt(old(albums), old(device.Snapshot()), albums, device.Snapshot(), ms[..|rs|], rs, ms[|rs|])
    {
      hide StoppedAt, Progress;
      ghost var start, was := albums, device.Snapshot();
      rs, error := [], None;
      NothingDone(start, was);
      for i := 0 to |ms|
        invariant |rs| == i && Valid()
        invariant Progress(start, was, albums, device.Snapshot(), ms[..i], rs)
      {
        assert ms[..i + 1] == ms[..i] + [ms[i]];
        var r := ImportNext(ms[i], start, was, ms[..i], rs);
        if r.Err? {
          error := Some(r.error);
          return;
        }
        rs := rs + [r.value];
      }
      assert ms[..|ms|] == ms;
    }

    /** The next of several files. */
    method ImportNext(m: Metadata, ghost start: map<Key, Album>, ghost was: State, ghost done: seq<Metadata>, ghost rs: seq<Imported>)
      returns (r: Result<Imported, ImportError>)
      requires Valid() && StateOk(was) && AllFollow(start, was)
      requires |rs| == |done| && Progress(start, was, albums, device.Snapshot(), done, rs)
      modifies this`artists, this`albums, device
      ensures Valid()
      ensures r.Ok? ==> Progress(start, was, albums, device.Snapshot(), done + [m], rs + [r.value])
      ensures r.Err? ==> StoppedAt(start, was, albums, device.Snapshot(), done, rs, m)
    {
      ghost var before, then_ := albums, device.Snapshot();
      ghost var known;
      r, known := ZuneImport(m);
      if r.Ok? {
        ProgressStep(start, was, before, then_, albums, device.Snapshot(), done, rs, m, known, r.value);
      } else {
        Stopped(start, was, before, then_, albums, device.Snapshot(), done, rs, m, known);
      }
    }

    /** A second import of the same files in this session leaves the device as the first left it. */
    method ImportTwice(ms: seq<Metadata>) returns (first: seq<Imported>, second: seq<Imported>, ghost between: State)
      requires Valid()
      modifies this`artists, this`albums, device
      ensures Valid() && device.Snapshot() == between
      ensures |first| == |second| <= |ms| && AllSkipped(second)
    {
      var error;
      first, error := ImportAll(ms);
      between := device.Snapshot();
      second, error := ImportAll(ms[..|first|]);
    }

    /** And in the next session: all that was imported is skipped, and the device stays as it is, if
        and only if artists, albums and titles survive the way to the device and back and numbers
        fit the 16 bits it stores. */
    method ImportNextSession(ms: seq<Metadata>)
      returns (first: seq<Imported>, second: seq<Imported>, error: Option<ImportError>, ghost between: State)
      requires Valid() && Mirrors(albums, device.Snapshot())
      modifies this`artists, this`albums, device
      ensures |first| <= |ms|
      ensures error.None? && AllSkipped(second) <==> forall m | m in ms[..|first|] :: Reads(m)
      ensures error.None? && AllSkipped(second) ==> |second| == |first| && device.Snapshot() == between
    {
      ghost var start, was := albums, device.Snapshot();
      first, error := ImportAll(ms);
      between := device.Snapshot();
      AllFoundIff(start, was, between, ms[..|first|]);
      second, error := ImportReopened(device, support, ms[..|first|]);
    }
  }

  /** Importing in a session opened now. */
  method ImportReopened(device: Device, support: Support, ms: seq<Metadata>) returns (rs: seq<Imported>, error: Option<ImportError>)
    requires device.Valid()
    modifies device
    ensures device.Valid() && Extends(old(device.Snapshot()), device.Snapshot())
    ensures |rs| <= |ms| && (error.None? <==> |rs| == |ms|)
    ensures Told(old(device.Snapshot()), ms, rs) && FoundAfter(device.Snapshot(), ms[..|rs|])
    ensures Identified(device.objects, ms[..|rs|], rs)
    ensures error.None? && AllSkipped(rs) <==> AllFound(old(device.Snapshot()), ms)
    ensures error.None? && AllSkipped(rs) ==> device.Snapshot() == old(device.Snapshot())
  {
    var library := new Library(device, support);
    library.Load();
    rs, error := library.ImportAll(ms);
  }

  /** What the device keeps of an album's names. */
  lemma NamesKept(key: Key, date: Name)
    ensures var o := NewAlbumObject(key.0, key.1, date);
      && ObjectOk(o) && FiledUnder(key, o)
      && (key.0 != [] && WellFormed(key.0) && WellFormed(key.1) ==> KeyOf(o) == key)
  {
    RecodedIff(key.0);
    RecodedIff(key.1);
  }

  /** An album was found or made, and its references are loaded. */
  ghost predicate LookedUp(before: map<Key, Album>, was: State, after: map<Key, Album>, now: State, m: Metadata) {
    var key := AlbumKey(m);
    && key in after && after == before[key := after[key]] && after[key].refsLoaded && Follows(after[key], now)
    && if key in before then
         && now == was && Later(before[key], after[key])
         && (if before[key].refsLoaded then after == before else AllReadBack(after[key].tracks))
       else NewAlbum(after[key].id, was, now) && after[key].tracks == []
  }

  /** A new album: nothing else but objects are added with it. */
  ghost predicate NewAlbum(id: ObjectId, before: State, after: State) {
    && id !in before.refs && after.covers == before.covers
    && after.refs == before.refs[id := []] && after.listed == before.listed + [id]
  }

  ghost predicate NewlyAdded(album: Album, before: State, after: State) {
    !album.refsLoaded && album.tracks == [] && NewAlbum(album.id, before, after)
  }

  /** A track was made and added to its album. */
  ghost predicate StoredAs(before: map<Key, Album>, was: State, after: map<Key, Album>, now: State, m: Metadata, id: ObjectId) {
    var key := AlbumKey(m);
    && key in before && after == before[key := WithTrack(before[key], Track(m.title, m.track, id))]
    && id != NO_OBJECT && id !in was.objects && now.listed == was.listed
    && now.objects == was.objects[id := NewTrackObject(before[key].musicFolder, m)]
    && Gains(before[key].id, was, now, id)
  }

  /** The references of this album alone gain the track. */
  ghost predicate Gains(album: ObjectId, was: State, now: State, id: ObjectId) {
    && album in now.refs && now.refs == was.refs[album := now.refs[album]]
    && Elements(now.refs[album]) == Elements(if album in was.refs then was.refs[album] else []) + {id}
  }

  /** The tracks of a file's album, as the session knows them or as the device gives them. */
  ghost predicate Known(before: map<Key, Album>, was: State, m: Metadata, known: seq<Track>) {
    var key := AlbumKey(m);
    && Faithful(known, RefsOf(key, before, was.refs), was.objects) && NoNullIds(known)
    && (if key in before && before[key].refsLoaded then known == before[key].tracks else AllReadBack(known))
  }

  /** An import that fails did not find its track. */
  ghost predicate Missed(before: map<Key, Album>, was: State, m: Metadata, known: seq<Track>) {
    AlbumKey(m) !in before || (Known(before, was, m, known) && FindTrack(known, m.title, m.track) == NO_OBJECT)
  }

  /** What an import says and does. */
  ghost predicate ImportedAs(before: map<Key, Album>, was: State, after: map<Key, Album>, now: State, m: Metadata,
                             known: seq<Track>, r: Imported) {
    var key := AlbumKey(m);
    && key in after && after == before[key := after[key]] && after[key].refsLoaded
    && Known(before, was, m, known)
    && (r.Skipped? <==> FindTrack(known, m.title, m.track) != NO_OBJECT)
    && after[key].tracks == known + (if r.New? then [Track(m.title, m.track, r.id)] else [])
    && r.id != NO_OBJECT
    && (r.Skipped? ==> r.id == FindTrack(known, m.title, m.track) && now == was && key in before)
    && (r.New? ==>
          && r.id !in was.objects && r.id in now.objects
          && now.objects[r.id] == NewTrackObject(after[key].musicFolder, m)
          && Gains(after[key].id, was, now, r.id))
  }

  /** A failed import adds at most objects and empty albums. */
  ghost predicate Unharmed(was: State, now: State) {
    && (forall a | a in was.refs :: a in now.refs)
    && (forall a | a in now.refs :: now.refs[a] == if a in was.refs then was.refs[a] else [])
  }

  /** What it half did is not found. */
  lemma FailedIsNotFound(was: State, now: State, m: Metadata)
    requires StateOk(was) && StateOk(now) && Extends(was, now) && Unharmed(was, now)
    ensures Finds(now, m) <==> Finds(was, m)
  {
    if Finds(was, m) {
      FindsStays(was, now, m);
    }
    if Finds(now, m) {
      var a := AlbumUnder(now, AlbumKey(m));
      var id :| id in now.refs[a] && IsTrack(now.objects, id, m.title, m.track);
      WasThere(was, now, a, id);
      assert IsTrack(was.objects, id, m.title, m.track);
      hide StateOk, ObjectOk, IsTrack;
      SomeUnder(was.listed, was.objects, a, AlbumKey(m));
      FirstStays(was.listed, now.listed, was.objects, now.objects, AlbumKey(m));
    }
  }

  lemma WasThere(was: State, now: State, a: ObjectId, id: ObjectId)
    requires StateOk(was) && StateOk(now) && Extends(was, now) && Unharmed(was, now)
    requires a in now.refs && id in now.refs[a]
    ensures ListOk(was.listed, was.objects) && ListOk(now.listed, now.objects)
    ensures a in was.refs && a in was.listed && id in was.refs[a]
    ensures now.objects[a] == was.objects[a] && id in was.objects && now.objects[id] == was.objects[id]
  {
    ReferencesOk(was);
    ReferencesOk(now);
  }

  lemma ErrorIsHarmless(before: map<Key, Album>, was: State, after: map<Key, Album>, now: State)
    requires after == before && now.refs == was.refs && now.listed == was.listed && Grown(was.objects, now.objects)
    ensures Unharmed(was, now) && AllLater(before, after) && Extends(was, now)
  {
  }

  lemma LookedExtends(before: map<Key, Album>, was: State, after: map<Key, Album>, now: State, m: Metadata)
    requires LookedUp(before, was, after, now, m) && Grown(was.objects, now.objects)
    ensures AllLater(before, after) && Extends(was, now) && Unharmed(was, now)
  {
  }

  lemma BrokeOff(before: map<Key, Album>, was: State, albums: map<Key, Album>, looked: State, now: State, m: Metadata)
    requires LookedUp(before, was, albums, looked, m) && Grown(was.objects, looked.objects)
    requires Grown(looked.objects, now.objects) && now.refs == looked.refs && now.listed == looked.listed
    ensures AllLater(before, albums) && Extends(was, now) && Unharmed(was, now)
  {
    LookedExtends(before, was, albums, looked, m);
    ErrorIsHarmless(albums, looked, albums, now);
    ExtendsTransitive(was, looked, now);
  }

  lemma EntriesHaveObjects(tracks: seq<Track>, refs: seq<ObjectId>, objects: map<ObjectId, Object>)
    requires Faithful(tracks, refs, objects)
    ensures tracks != [] ==> refs != []
  {
    if tracks != [] {
      assert tracks[0] in tracks;
    }
  }

  lemma LookedMeaning(before: map<Key, Album>, was: State, placed: Album, middle: map<Key, Album>, now: State, album: Album, m: Metadata)
    requires middle == before[AlbumKey(m) := placed]
    requires if AlbumKey(m) in before then placed == before[AlbumKey(m)] && now == was else NewlyAdded(placed, was, now)
    requires album.refsLoaded && Follows(album, now) && Later(placed, album)
    requires if placed.refsLoaded then middle[AlbumKey(m) := album] == middle else AllReadBack(album.tracks)
    ensures middle[AlbumKey(m) := album] == before[AlbumKey(m) := album]
    ensures LookedUp(before, was, middle[AlbumKey(m) := album], now, m)
  {
    var key := AlbumKey(m);
    Overwrite(before, key, placed, album);
    if key in before {
      assert before[key := placed] == before;
    } else {
      EntriesHaveObjects(album.tracks, now.refs[album.id], now.objects);
    }
  }

  lemma StoredMeaning(before: map<Key, Album>, was: State, after: map<Key, Album>, sent: State, now: State, m: Metadata, id: ObjectId)
    requires AlbumKey(m) in before && after == before[AlbumKey(m) := WithTrack(before[AlbumKey(m)], Track(m.title, m.track, id))]
    requires id != NO_OBJECT && id !in was.objects && sent == was.(objects := sent.objects)
    requires sent.objects == was.objects[id := NewTrackObject(before[AlbumKey(m)].musicFolder, m)]
    requires Gains(before[AlbumKey(m)].id, sent, now, id) && now.objects == sent.objects && now.listed == sent.listed
    ensures StoredAs(before, was, after, now, m, id)
  {
  }

  /** The tracks looked at are those the device had for the album. */
  lemma KnownTracks(before: map<Key, Album>, was: State, after: map<Key, Album>, now: State, m: Metadata)
    requires LookedUp(before, was, after, now, m) && StateOk(now)
    ensures Known(before, was, m, after[AlbumKey(m)].tracks)
  {
    LoadedTracks(after[AlbumKey(m)], now);
  }

  lemma SkipMeaning(before: map<Key, Album>, was: State, after: map<Key, Album>, now: State, m: Metadata)
    requires LookedUp(before, was, after, now, m) && StateOk(now) && Grown(was.objects, now.objects)
    requires FindTrack(after[AlbumKey(m)].tracks, m.title, m.track) != NO_OBJECT
    ensures AllLater(before, after) && Extends(was, now)
    ensures var known := after[AlbumKey(m)].tracks;
      ImportedAs(before, was, after, now, m, known, Skipped(FindTrack(known, m.title, m.track)))
  {
    KnownTracks(before, was, after, now, m);
    LookedExtends(before, was, after, now, m);
    assert after[AlbumKey(m)].tracks + [] == after[AlbumKey(m)].tracks;
  }

  lemma NewMeaning(before: map<Key, Album>, was: State, middle: map<Key, Album>, looked: State,
                   after: map<Key, Album>, now: State, m: Metadata, id: ObjectId)
    requires LookedUp(before, was, middle, looked, m) && StateOk(looked) && Grown(was.objects, looked.objects)
    requires FindTrack(middle[AlbumKey(m)].tracks, m.title, m.track) == NO_OBJECT
    requires StoredAs(middle, looked, after, now, m, id)
    ensures AllLater(before, after) && Extends(was, now)
    ensures ImportedAs(before, was, after, now, m, middle[AlbumKey(m)].tracks, New(id))
  {
    var key := AlbumKey(m);
    KnownTracks(before, was, middle, looked, m);
    LookedExtends(before, was, middle, looked, m);
    Overwrite(before, key, middle[key], after[key]);
    StoredExtends(middle, looked, after, now, m, id);
    LaterTransitive(before, middle, after);
    ExtendsTransitive(was, looked, now);
    GainsFrom(before, was, middle, looked, now, m, id);
  }

  lemma StoredExtends(before: map<Key, Album>, was: State, after: map<Key, Album>, now: State, m: Metadata, id: ObjectId)
    requires StoredAs(before, was, after, now, m, id)
    ensures AllLater(before, after) && Extends(was, now)
  {
    assert before[AlbumKey(m)].tracks <= before[AlbumKey(m)].tracks + [Track(m.title, m.track, id)];
  }

  /** A file's track is referred to by the album of its artist and name. */
  lemma ImportIsPlaced(before: map<Key, Album>, was: State, after: map<Key, Album>, now: State, m: Metadata,
                       known: seq<Track>, r: Imported)
    requires ImportedAs(before, was, after, now, m, known, r)
    requires AllFollow(after, now) && AllFiled(after, now.objects)
    ensures InItsAlbum(after, now, m, r.id)
  {
    hide FindTrack, Known, Gains, Describes, FiledUnder, NewTrackObject;
    var album, t := after[AlbumKey(m)], Track(m.title, m.track, r.id);
    assert Follows(album, now);
    EntryMade(known, m, r);
    IdReferred(album, now, t);
    KeyOfFile(m);
  }

  lemma EntryMade(known: seq<Track>, m: Metadata, r: Imported)
    requires r.id != NO_OBJECT && (r.Skipped? ==> r.id == FindTrack(known, m.title, m.track))
    ensures Track(m.title, m.track, r.id) in known + (if r.New? then [Track(m.title, m.track, r.id)] else [])
  {
    FindTrackMeaning(known, m.title, m.track);
  }

  lemma IdReferred(album: Album, s: State, t: Track)
    requires Follows(album, s) && album.refsLoaded && t in album.tracks
    ensures album.id in s.refs && t.id in s.refs[album.id]
  {
  }

  lemma KeyOfFile(m: Metadata)
    ensures AlbumKey(m) == (if m.artist == [] then UNKNOWN_ARTIST else m.artist, if m.album == [] then UNKNOWN_ALBUM else m.album)
  {
  }

  /** The album gains the track over what it had before it was looked up or made. */
  lemma GainsFrom(before: map<Key, Album>, was: State, middle: map<Key, Album>, looked: State, now: State, m: Metadata, id: ObjectId)
    requires LookedUp(before, was, middle, looked, m) && Gains(middle[AlbumKey(m)].id, looked, now, id)
    ensures Gains(middle[AlbumKey(m)].id, was, now, id)
  {
    var album := middle[AlbumKey(m)].id;
    if AlbumKey(m) !in before {
      Overwrite(was.refs, album, [], now.refs[album]);
    }
  }

  // -- Importing many files ----------------------------------------------------

  predicate AllSkipped(rs: seq<Imported>) {
    forall i | 0 <= i < |rs| :: rs[i].Skipped?
  }

  ghost predicate AllFound(s: State, ms: seq<Metadata>)
    requires StateOk(s)
  {
    forall m | m in ms :: Finds(s, m)
  }

  ghost predicate AllKeysRead(ms: seq<Metadata>) {
    forall m | m in ms :: KeyReads(m)
  }

  /** A session opened now finds what was imported only if it reads; and exactly if it does, if no
      album was made under names that do not. */
  ghost predicate FoundLater(start: map<Key, Album>, was: State, now: State, ms: seq<Metadata>)
    requires StateOk(was) && StateOk(now)
  {
    && (forall m | m in ms && Finds(now, m) :: Reads(m))
    && (Mirrors(start, was) && AllKeysRead(ms) ==> forall m | m in ms && Reads(m) :: Finds(now, m))
  }

  ghost predicate FoundAfter(now: State, ms: seq<Metadata>)
    requires StateOk(now)
  {
    && (forall m | m in ms && Finds(now, m) :: Reads(m))
    && (AllKeysRead(ms) ==> forall m | m in ms && Reads(m) :: Finds(now, m))
  }

  lemma AllFoundIff(start: map<Key, Album>, was: State, now: State, ms: seq<Metadata>)
    requires StateOk(was) && StateOk(now) && Mirrors(start, was) && FoundLater(start, was, now, ms)
    ensures AllFound(now, ms) <==> forall m | m in ms :: Reads(m)
  {
  }

  predicate SameTrack(a: Metadata, b: Metadata) {
    AlbumKey(a) == AlbumKey(b) && a.title == b.title && a.track == b.track
  }

  predicate Among(ms: seq<Metadata>, m: Metadata) {
    exists d | d in ms :: SameTrack(d, m)
  }

  /** A file is skipped exactly if its track was there or was imported before it. */
  ghost predicate Told(was: State, ms: seq<Metadata>, rs: seq<Imported>)
    requires StateOk(was)
  {
    |rs| <= |ms| && forall i | 0 <= i < |rs| :: rs[i].Skipped? <==> Finds(was, ms[i]) || Among(ms[..i], ms[i])
  }

  /** Told of the files that were imported. */
  lemma ToldOf(was: State, ms: seq<Metadata>, rs: seq<Imported>)
    requires StateOk(was) && |rs| <= |ms|
    ensures Told(was, ms, rs) <==> Told(was, ms[..|rs|], rs)
  {
    assert forall i | 0 <= i < |rs| :: ms[..|rs|][i] == ms[i] && ms[..|rs|][..i] == ms[..i];
  }

  /** All are skipped exactly if all were there. */
  lemma AllSkippedIff(was: State, ms: seq<Metadata>, rs: seq<Imported>)
    requires StateOk(was) && Told(was, ms, rs) && |rs| == |ms|
    ensures AllSkipped(rs) <==> AllFound(was, ms)
  {
    if AllSkipped(rs) {
      forall i | 0 <= i < |ms|
        ensures Finds(was, ms[i])
      {
        SkippedWereThere(was, ms, rs, i);
      }
    }
    forall i | 0 <= i < |rs| && AllFound(was, ms)
      ensures rs[i].Skipped?
    {
      assert ms[i] in ms;
    }
  }

  lemma {:induction false} SkippedWereThere(was: State, ms: seq<Metadata>, rs: seq<Imported>, i: nat)
    requires StateOk(was) && Told(was, ms, rs) && |rs| == |ms| && AllSkipped(rs) && i < |ms|
    ensures Finds(was, ms[i])
    decreases i
  {
    if Among(ms[..i], ms[i]) {
      var j :| 0 <= j < i && SameTrack(ms[..i][j], ms[i]);
      SkippedWereThere(was, ms, rs, j);
    }
  }

  /** The ids are those of tracks with the files' titles and numbers, as the device keeps them. */
  ghost predicate Identified(objects: map<ObjectId, Object>, ms: seq<Metadata>, rs: seq<Imported>) {
    |rs| == |ms| && forall i | 0 <= i < |rs| :: Describes(Track(ms[i].title, ms[i].track, rs[i].id), objects)
  }

  lemma IdentifiedStep(before: map<ObjectId, Object>, now: map<ObjectId, Object>, done: seq<Metadata>, rs: seq<Imported>,
                       m: Metadata, r: Imported)
    requires Identified(before, done, rs) && Grown(before, now) && Describes(Track(m.title, m.track, r.id), now)
    ensures Identified(now, done + [m], rs + [r])
  {
    forall i | 0 <= i < |rs|
      ensures Describes(Track(done[i].title, done[i].track, rs[i].id), now)
    {
      assert Describes(Track(done[i].title, done[i].track, rs[i].id), before);
    }
  }

  lemma IdentifiedStays(before: map<ObjectId, Object>, now: map<ObjectId, Object>, done: seq<Metadata>, rs: seq<Imported>)
    requires Identified(before, done, rs) && Grown(before, now)
    ensures Identified(now, done, rs)
  {
    forall i | 0 <= i < |rs|
      ensures Describes(Track(done[i].title, done[i].track, rs[i].id), now)
    {
      assert Describes(Track(done[i].title, done[i].track, rs[i].id), before);
    }
  }

  lemma ImportIdentifies(before: map<Key, Album>, was: State, after: map<Key, Album>, now: State, m: Metadata,
                         known: seq<Track>, r: Imported)
    requires ImportedAs(before, was, after, now, m, known, r)
    ensures Describes(Track(m.title, m.track, r.id), now.objects)
  {
    FindTrackMeaning(known, m.title, m.track);
  }

  /** Where an import of many files stands in its session, */
  ghost predicate Recording(start: map<Key, Album>, was: State, albums: map<Key, Album>, now: State, done: seq<Metadata>,
                            rs: seq<Imported>) {
    && AllLater(start, albums) && Extends(was, now) && AllRecorded(albums, done)
    && (AllRecorded(start, done) ==> AllSkipped(rs)) && (AllSkipped(rs) ==> now == was)
  }

  /** for the next, */
  ghost predicate Mirroring(start: map<Key, Album>, was: State, albums: map<Key, Album>, now: State, done: seq<Metadata>)
    requires StateOk(was) && StateOk(now)
  {
    FoundLater(start, was, now, done) && (Mirrors(start, was) && AllKeysRead(done) ==> Mirrors(albums, now))
  }

  /** and if it started from what it found on the device: the tracks it knows are those and its own. */
  ghost predicate Knowing(start: map<Key, Album>, was: State, albums: map<Key, Album>, now: State, done: seq<Metadata>)
    requires StateOk(was)
  {
    && (forall m {:trigger Recorded(albums, m)} ::
          Loaded(albums, AlbumKey(m)) ==> (Recorded(albums, m) <==> Finds(was, m) || Among(done, m)))
    && (forall k | k in albums && !albums[k].refsLoaded :: Untouched(start, was, albums, now, k))
  }

  predicate Loaded(albums: map<Key, Album>, k: Key) {
    k in albums && albums[k].refsLoaded
  }

  /** An album on the device from the start, with the tracks it had. */
  ghost predicate Untouched(start: map<Key, Album>, was: State, albums: map<Key, Album>, now: State, k: Key)
    requires k in albums
  {
    && k in start && start[k].id == albums[k].id && albums[k].id in was.refs && albums[k].id in now.refs
    && now.refs[albums[k].id] == was.refs[albums[k].id]
  }

  ghost predicate Telling(start: map<Key, Album>, was: State, albums: map<Key, Album>, now: State, done: seq<Metadata>, rs: seq<Imported>)
    requires StateOk(was)
  {
    Clean(start, was) ==> Knowing(start, was, albums, now, done) && Told(was, done, rs)
  }

  ghost predicate Progress(start: map<Key, Album>, was: State, albums: map<Key, Album>, now: State, done: seq<Metadata>, rs: seq<Imported>)
    requires StateOk(was) && StateOk(now)
  {
    && Recording(start, was, albums, now, done, rs) && Identified(now.objects, done, rs)
    && Mirroring(start, was, albums, now, done)
    && Telling(start, was, albums, now, done, rs)
  }

  lemma NothingDone(start: map<Key, Album>, was: State)
    requires StateOk(was) && AllFollow(start, was)
    ensures Progress(start, was, start, was, [], [])
  {
    if Clean(start, was) {
      forall m | Loaded(start, AlbumKey(m))
        ensures Recorded(start, m) <==> Finds(was, m)
      {
        CleanFinds(start, was, m, start[AlbumKey(m)].tracks);
      }
    }
  }

  /** One import, seen from its session. */
  lemma RecordedNow(before: map<Key, Album>, was: State, after: map<Key, Album>, now: State, m: Metadata, known: seq<Track>, r: Imported)
    requires ImportedAs(before, was, after, now, m, known, r)
    ensures Recorded(after, m) && (Recorded(before, m) ==> r.Skipped?)
  {
    ImportRecords(before, m, after[AlbumKey(m)], known, r);
  }

  lemma ProgressStep(start: map<Key, Album>, was: State, before: map<Key, Album>, then_: State, after: map<Key, Album>, now: State,
                     done: seq<Metadata>, rs: seq<Imported>, m: Metadata, known: seq<Track>, r: Imported)
    requires StateOk(was) && StateOk(then_) && StateOk(now)
    requires AllFollow(start, was) && AllFollow(before, then_) && Agrees(after, now)
    requires Progress(start, was, before, then_, done, rs) && |rs| == |done|
    requires AllLater(before, after) && Extends(then_, now)
    requires KeyReads(m) && Mirrors(before, then_) ==> Mirrors(after, now)
    requires ImportedAs(before, then_, after, now, m, known, r)
    ensures Progress(start, was, after, now, done + [m], rs + [r])
  {
    RecordedNow(before, then_, after, now, m, known, r);
    RecordingStep(start, was, before, then_, after, now, done, rs, m, r);
    ImportIdentifies(before, then_, after, now, m, known, r);
    IdentifiedStep(then_.objects, now.objects, done, rs, m, r);
    if Mirrors(after, now) {
      RecordedFoundIff(after, now, m);
    }
    MirroringStep(start, was, before, then_, after, now, done, m);
    if Clean(start, was) {
      KnowingStep(start, was, before, then_, after, now, done, m, known, r);
      ToldStep(start, was, before, then_, done, rs, m, known, r);
    }
  }

  lemma RecordingStep(start: map<Key, Album>, was: State, before: map<Key, Album>, then_: State, after: map<Key, Album>, now: State,
                      done: seq<Metadata>, rs: seq<Imported>, m: Metadata, r: Imported)
    requires StateOk(was) && StateOk(then_) && AllFollow(start, was) && AllFollow(before, then_)
    requires Recording(start, was, before, then_, done, rs)
    requires AllLater(before, after) && Extends(then_, now)
    requires Recorded(after, m) && (Recorded(before, m) ==> r.Skipped?) && (r.Skipped? ==> now == then_)
    ensures Recording(start, was, after, now, done + [m], rs + [r])
  {
    hide StateOk, AllFollow, AllLater, Extends, Recorded, AllSkipped;
    RecordedStays(before, after, then_, done);
    LaterTransitive(start, before, after);
    ExtendsTransitive(was, then_, now);
    StillRecorded(start, was, before, m);
    assert forall x :: x in done + [m] <==> x in done || x == m;
    AllSkippedSnoc(rs, r);
  }

  lemma AllSkippedSnoc(rs: seq<Imported>, r: Imported)
    ensures AllSkipped(rs + [r]) <==> AllSkipped(rs) && r.Skipped?
  {
    assert (rs + [r])[|rs|] == r;
    assert forall i | 0 <= i < |rs| :: (rs + [r])[i] == rs[i];
  }

  /** What was recorded at the start is still recorded. */
  lemma StillRecorded(start: map<Key, Album>, was: State, before: map<Key, Album>, m: Metadata)
    requires StateOk(was) && AllFollow(start, was) && AllLater(start, before)
    ensures Recorded(start, m) ==> Recorded(before, m)
  {
    if Recorded(start, m) {
      RecordedStays(start, before, was, [m]);
      assert m in [m];
    }
  }

  lemma AmongSnoc(done: seq<Metadata>, m: Metadata, x: Metadata)
    ensures Among(done + [m], x) <==> Among(done, x) || SameTrack(m, x)
  {
    assert forall y :: y in done + [m] <==> y in done || y == m;
  }

  /** What is looked at to import a file tells of any track of that album whether it was there or was
      imported. */
  lemma KnownTells(start: map<Key, Album>, was: State, before: map<Key, Album>, then_: State, done: seq<Metadata>,
                   m: Metadata, known: seq<Track>, x: Metadata)
    requires StateOk(was) && StateOk(then_) && Clean(start, was) && AllFollow(before, then_)
    requires AllLater(start, before) && Extends(was, then_) && AllRecorded(before, done)
    requires Knowing(start, was, before, then_, done) && Known(before, then_, m, known) && AlbumKey(x) == AlbumKey(m)
    ensures FindTrack(known, x.title, x.track) != NO_OBJECT <==> Finds(was, x) || Among(done, x)
  {
    var key := AlbumKey(m);
    if Loaded(before, key) {
      assert FindTrack(known, x.title, x.track) != NO_OBJECT <==> Recorded(before, x);
    } else {
      assert !Among(done, x);
      assert AlbumUnder(was, key) == IdAt(start, key);
      if key in before {
        assert Untouched(start, was, before, then_, key);
        UntouchedTells(was, then_, before[key].id, known, x);
      } else {
        EntriesHaveObjects(known, [], then_.objects);
      }
    }
  }

  lemma UntouchedTells(was: State, then_: State, album: ObjectId, known: seq<Track>, x: Metadata)
    requires StateOk(was) && StateOk(then_) && Extends(was, then_)
    requires album in was.refs && album in then_.refs && was.refs[album] == then_.refs[album]
    requires Faithful(known, then_.refs[album], then_.objects) && AllReadBack(known)
    ensures FindTrack(known, x.title, x.track) != NO_OBJECT <==> OnDevice(was.refs[album], was.objects, x.title, x.track)
  {
    ReferencesOk(was);
    ReferencesOk(then_);
    hide StateOk;
    RightWhenAllReadBack(known, then_.refs[album], then_.objects, x.title, x.track);
  }

  lemma ToldStep(start: map<Key, Album>, was: State, before: map<Key, Album>, then_: State, done: seq<Metadata>, rs: seq<Imported>,
                 m: Metadata, known: seq<Track>, r: Imported)
    requires StateOk(was) && StateOk(then_) && Clean(start, was) && AllFollow(before, then_)
    requires AllLater(start, before) && Extends(was, then_) && AllRecorded(before, done)
    requires Knowing(start, was, before, then_, done) && Known(before, then_, m, known)
    requires Told(was, done, rs) && |rs| == |done| && (r.Skipped? <==> FindTrack(known, m.title, m.track) != NO_OBJECT)
    ensures Told(was, done + [m], rs + [r])
  {
    KnownTells(start, was, before, then_, done, m, known, m);
    ToldSnoc(was, done, rs, m, r);
  }

  lemma ToldSnoc(was: State, done: seq<Metadata>, rs: seq<Imported>, m: Metadata, r: Imported)
    requires StateOk(was) && Told(was, done, rs) && |rs| == |done|
    requires r.Skipped? <==> Finds(was, m) || Among(done, m)
    ensures Told(was, done + [m], rs + [r])
  {
    hide StateOk, Finds, Among;
    forall i | 0 <= i <= |rs|
      ensures (rs + [r])[i].Skipped? <==> Finds(was, (done + [m])[i]) || Among((done + [m])[..i], (done + [m])[i])
    {
      if i < |rs| {
        assert (done + [m])[..i] == done[..i] && (done + [m])[i] == done[i];
      } else {
        assert (done + [m])[..i] == done && (done + [m])[i] == m;
      }
    }
  }

  lemma KnowingStep(start: map<Key, Album>, was: State, before: map<Key, Album>, then_: State, after: map<Key, Album>, now: State,
                    done: seq<Metadata>, m: Metadata, known: seq<Track>, r: Imported)
    requires StateOk(was) && StateOk(then_) && Clean(start, was) && AllFollow(before, then_) && Distinct(after)
    requires AllLater(start, before) && Extends(was, then_) && AllRecorded(before, done)
    requires Knowing(start, was, before, then_, done) && ImportedAs(before, then_, after, now, m, known, r)
    ensures Knowing(start, was, after, now, done + [m])
  {
    hide StateOk, Clean, Finds, Among, AllLater, Extends, ImportedAs, Recorded, Untouched, AllRecorded;
    forall x | Loaded(after, AlbumKey(x))
      ensures Recorded(after, x) <==> Finds(was, x) || Among(done + [m], x)
    {
      KnownAfter(start, was, before, then_, after, now, done, m, known, r, x);
    }
    forall k | k in after && !after[k].refsLoaded
      ensures Untouched(start, was, after, now, k)
    {
      UntouchedAfter(start, was, before, then_, after, now, done, m, known, r, k);
    }
  }

  lemma UntouchedAfter(start: map<Key, Album>, was: State, before: map<Key, Album>, then_: State, after: map<Key, Album>, now: State,
                       done: seq<Metadata>, m: Metadata, known: seq<Track>, r: Imported, k: Key)
    requires StateOk(was) && Distinct(after) && Knowing(start, was, before, then_, done)
    requires ImportedAs(before, then_, after, now, m, known, r) && k in after && !after[k].refsLoaded
    ensures Untouched(start, was, after, now, k)
  {
    hide StateOk, Finds, Recorded, Among, Known, FindTrack, Elements;
    assert k != AlbumKey(m) && k in before && Untouched(start, was, before, then_, k);
    assert after[k].id != after[AlbumKey(m)].id;
  }

  lemma KnownAfter(start: map<Key, Album>, was: State, before: map<Key, Album>, then_: State, after: map<Key, Album>, now: State,
                   done: seq<Metadata>, m: Metadata, known: seq<Track>, r: Imported, x: Metadata)
    requires StateOk(was) && StateOk(then_) && Clean(start, was) && AllFollow(before, then_)
    requires AllLater(start, before) && Extends(was, then_) && AllRecorded(before, done)
    requires Knowing(start, was, before, then_, done) && ImportedAs(before, then_, after, now, m, known, r)
    requires Loaded(after, AlbumKey(x))
    ensures Recorded(after, x) <==> Finds(was, x) || Among(done + [m], x)
  {
    hide StateOk, Clean, Finds, Among, AllLater, Extends;
    AmongSnoc(done, m, x);
    if AlbumKey(x) == AlbumKey(m) {
      KnownTells(start, was, before, then_, done, m, known, x);
      FoundAfterImport(known, m, r, x);
    } else {
      assert Recorded(before, x) <==> Recorded(after, x);
    }
  }

  lemma FoundAfterImport(known: seq<Track>, m: Metadata, r: Imported, x: Metadata)
    requires NoNullIds(known) && r.id != NO_OBJECT && AlbumKey(m) == AlbumKey(x)
    requires r.Skipped? <==> FindTrack(known, m.title, m.track) != NO_OBJECT
    ensures FindTrack(known + (if r.New? then [Track(m.title, m.track, r.id)] else []), x.title, x.track) != NO_OBJECT
       <==> FindTrack(known, x.title, x.track) != NO_OBJECT || SameTrack(m, x)
  {
    var t := Track(m.title, m.track, r.id);
    if r.New? {
      FindTrackMeaning(known, x.title, x.track);
      FindTrackMeaning(known + [t], x.title, x.track);
      assert forall y :: y in known + [t] <==> y in known || y == t;
    } else {
      assert known + [] == known;
    }
  }

  /** An exception at the next file. */
  ghost predicate StoppedAt(start: map<Key, Album>, was: State, albums: map<Key, Album>, now: State, done: seq<Metadata>,
                            rs: seq<Imported>, m: Metadata)
    requires StateOk(was) && StateOk(now)
  {
    && AllLater(start, albums) && Extends(was, now) && AllRecorded(albums, done)
    && !Recorded(start, m) && FoundLater(start, was, now, done) && Identified(now.objects, done, rs)
    && (Clean(start, was) ==> Told(was, done, rs) && !Finds(was, m))
  }

  lemma Stopped(start: map<Key, Album>, was: State, before: map<Key, Album>, then_: State, after: map<Key, Album>, now: State,
                done: seq<Metadata>, rs: seq<Imported>, m: Metadata, known: seq<Track>)
    requires StateOk(was) && StateOk(then_) && StateOk(now) && AllFollow(start, was) && AllFollow(before, then_)
    requires Progress(start, was, before, then_, done, rs)
    requires AllLater(before, after) && Extends(then_, now) && Missed(before, then_, m, known)
    ensures StoppedAt(start, was, after, now, done, rs, m)
  {
    if Clean(start, was) {
      MissedWasNotThere(start, was, before, then_, done, m, known);
    }
    StillRecorded(start, was, before, m);
    RecordedStays(before, after, then_, done);
    LaterTransitive(start, before, after);
    ExtendsTransitive(was, then_, now);
    FoundKept(start, was, then_, now, done);
    IdentifiedStays(then_.objects, now.objects, done, rs);
  }

  lemma MissedWasNotThere(start: map<Key, Album>, was: State, before: map<Key, Album>, then_: State, done: seq<Metadata>,
                          m: Metadata, known: seq<Track>)
    requires StateOk(was) && StateOk(then_) && Clean(start, was) && AllFollow(before, then_)
    requires AllLater(start, before) && Extends(was, then_) && AllRecorded(before, done)
    requires Knowing(start, was, before, then_, done) && Missed(before, then_, m, known)
    ensures !Finds(was, m)
  {
    if AlbumKey(m) in before {
      KnownTells(start, was, before, then_, done, m, known, m);
    } else {
      assert AlbumUnder(was, AlbumKey(m)) == IdAt(start, AlbumKey(m));
    }
  }

  lemma AllDone(start: map<Key, Album>, was: State, albums: map<Key, Album>, now: State, ms: seq<Metadata>, rs: seq<Imported>)
    requires StateOk(was) && StateOk(now) && Progress(start, was, albums, now, ms, rs) && |rs| == |ms|
    ensures AllLater(start, albums) && Extends(was, now) && AllRecorded(albums, ms) && FoundLater(start, was, now, ms)
    ensures Identified(now.objects, ms, rs)
    ensures AllRecorded(start, ms) ==> AllSkipped(rs)
    ensures AllSkipped(rs) ==> now == was
    ensures Clean(start, was) ==> Told(was, ms, rs) && (AllSkipped(rs) <==> AllFound(was, ms))
  {
    if Clean(start, was) {
      AllSkippedIff(was, ms, rs);
    }
  }

  lemma StoppedMeans(start: map<Key, Album>, was: State, albums: map<Key, Album>, now: State, ms: seq<Metadata>, rs: seq<Imported>)
    requires StateOk(was) && StateOk(now) && |rs| < |ms| && StoppedAt(start, was, albums, now, ms[..|rs|], rs, ms[|rs|])
    ensures !AllRecorded(start, ms) && (Clean(start, was) ==> Told(was, ms, rs) && !AllFound(was, ms))
  {
    assert ms[|rs|] in ms;
    ToldOf(was, ms, rs);
  }

  lemma FoundKept(start: map<Key, Album>, was: State, then_: State, now: State, done: seq<Metadata>)
    requires StateOk(was) && StateOk(then_) && StateOk(now) && Extends(then_, now) && FoundLater(start, was, then_, done)
    ensures FoundLater(start, was, now, done)
  {
    forall x | x in done && Finds(now, x)
      ensures Reads(x)
    {
      FoundReads(now, x);
    }
    if Mirrors(start, was) && AllKeysRead(done) {
      forall x | x in done && Reads(x)
        ensures Finds(now, x)
      {
        FindsStays(then_, now, x);
      }
    }
  }

  lemma MirroringStep(start: map<Key, Album>, was: State, before: map<Key, Album>, then_: State, after: map<Key, Album>, now: State,
                  done: seq<Metadata>, m: Metadata)
    requires StateOk(was) && StateOk(then_) && StateOk(now) && Extends(then_, now)
    requires Mirroring(start, was, before, then_, done)
    requires KeyReads(m) && Mirrors(before, then_) ==> Mirrors(after, now)
    requires Mirrors(after, now) ==> (Finds(now, m) <==> Reads(m))
    ensures Mirroring(start, was, after, now, done + [m])
  {
    FoundKept(start, was, then_, now, done);
    assert forall x :: x in done + [m] <==> x in done || x == m;
    if Finds(now, m) {
      FoundReads(now, m);
    }
  }

  /** The first i albums of the device are loaded. */
  ghost predicate LoadedSoFar(albums: map<Key, Album>, s: State, i: nat)
    requires i <= |s.listed| && StateOk(s)
  {
    && (forall k :: IdAt(albums, k) == FirstUnder(s.listed[..i], s.objects, k))
    && (forall k | k in albums :: !albums[k].refsLoaded && albums[k].refs == {} && albums[k].tracks == [])
    && (forall k | k in albums :: albums[k].id != NO_OBJECT)
  }

  lemma LoadedNext(albums: map<Key, Album>, s: State, i: nat, album: Album)
    requires StateOk(s) && i < |s.listed| && LoadedSoFar(albums, s, i)
    requires album.id == s.listed[i] && !album.refsLoaded && album.refs == {} && album.tracks == []
    ensures var key := KeyOf(s.objects[album.id]);
      LoadedSoFar(if key in albums then albums else albums[key := album], s, i + 1)
  {
    var front, key := s.listed[..i], KeyOf(s.objects[album.id]);
    var now := if key in albums then albums else albums[key := album];
    assert s.listed[..i + 1] == front + [album.id];
    forall k
      ensures IdAt(now, k) == FirstUnder(front + [album.id], s.objects, k)
    {
      assert IdAt(albums, k) == FirstUnder(front, s.objects, k);
      FirstUnderSnoc(front, album.id, s.objects, k);
    }
  }

  lemma EachLoaded(albums: map<Key, Album>, s: State)
    requires StateOk(s) && LoadedSoFar(albums, s, |s.listed|)
    ensures AlbumsLoaded(albums, s)
  {
    ReferencesOk(s);
    hide StateOk;
    assert s.listed[..|s.listed|] == s.listed;
    forall a | a in s.listed
      ensures KeyOf(s.objects[a]) in albums
    {
      SomeUnder(s.listed, s.objects, a, KeyOf(s.objects[a]));
      assert IdAt(albums, KeyOf(s.objects[a])) == FirstUnder(s.listed, s.objects, KeyOf(s.objects[a]));
    }
  }

  lemma LoadedAll(albums: map<Key, Album>, s: State)
    requires StateOk(s) && LoadedSoFar(albums, s, |s.listed|)
    ensures Agrees(albums, s) && Clean(albums, s) && AllFiled(albums, s.objects)
  {
    assert s.listed[..|s.listed|] == s.listed;
    forall k | k in albums
      ensures albums[k].id in s.listed && Follows(albums[k], s)
      ensures KeyOf(s.objects[albums[k].id]) == k && FiledUnder(k, s.objects[albums[k].id])
    {
      assert IdAt(albums, k) == FirstUnder(s.listed, s.objects, k);
      FiledIfRead(k, s.objects[albums[k].id]);
    }
  }
}
