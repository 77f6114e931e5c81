/** The album and track index of mtp/metadata/Library.cpp as values: what the cached one says, what
    the device says, and when a new session finds a track again. */
module AlbumIndex {
  import opened Bytes
  import opened ObjectIds
  import opened MtpStrings

  type Name = bytes

  // "UknownArtist" and "UknownAlbum"
  const UNKNOWN_ARTIST: Name := [0x55, 0x6b, 0x6e, 0x6f, 0x77, 0x6e, 0x41, 0x72, 0x74, 0x69, 0x73, 0x74]
  const UNKNOWN_ALBUM: Name := [0x55, 0x6b, 0x6e, 0x6f, 0x77, 0x6e, 0x41, 0x6c, 0x62, 0x75, 0x6d]

  // -- The device ------------------------------------------------------------

  /** Objects with their names as the host reads them. */
  datatype Object =
    | Folder(parent: ObjectId, name: Name)
    | ArtistObject(name: Name, filename: Name)
    | AlbumObject(artist: Name, name: Name, filename: Name, date: Name)
    | TrackObject(folder: ObjectId, artist: Name, name: Name, index: nat, genre: Name, filename: Name)

  /** The track number a device stores: 16 bits, zero when none is sent. */
  function Stored(index: int): nat {
    index % 0x1_0000
  }

  predicate Fits(index: int) {
    0 <= index < 0x1_0000
  }

  /** Names that can be read, numbers that can be stored. */
  predicate ObjectOk(o: Object) {
    && WellFormed(o.name)
    && (o.AlbumObject? ==> WellFormed(o.artist))
    && (o.TrackObject? ==> Fits(o.index))
  }

  /** `listed` are the albums in the order the device lists them. */
  datatype State = State(objects: map<ObjectId, Object>, refs: map<ObjectId, seq<ObjectId>>,
                         listed: seq<ObjectId>, covers: map<ObjectId, seq<int>>)

  /** No object has the null id; albums refer to tracks. */
  ghost predicate StateOk(s: State) {
    && (forall id | id in s.objects :: id != NO_OBJECT && ObjectOk(s.objects[id]))
    && (forall a | a in s.listed :: a in s.objects && s.objects[a].AlbumObject? && a in s.refs)
    && (forall a | a in s.refs :: a in s.listed)
    && (forall a, t | a in s.refs && t in s.refs[a] :: t in s.objects && s.objects[t].TrackObject?)
  }

  lemma ObjectAdded(s: State, id: ObjectId, o: Object)
    requires StateOk(s) && id !in s.objects && id != NO_OBJECT && ObjectOk(o)
    ensures StateOk(s.(objects := s.objects[id := o]))
  {
    forall a, t | a in s.refs && t in s.refs[a]
      ensures t in s.objects && s.objects[t].TrackObject?
    {
    }
  }

  lemma AlbumListed(s: State, id: ObjectId)
    requires StateOk(s) && id !in s.refs && id in s.objects && s.objects[id].AlbumObject?
    ensures StateOk(s.(refs := s.refs[id := []], listed := s.listed + [id]))
  {
    forall a, t | a in s.refs && t in s.refs[a]
      ensures t in s.objects && s.objects[t].TrackObject?
    {
    }
  }

  lemma ReferencesOk(s: State)
    requires StateOk(s)
    ensures ListOk(s.listed, s.objects)
    ensures forall a | a in s.refs :: TracksOk(s.refs[a], s.objects)
  {
    forall a | a in s.refs
      ensures TracksOk(s.refs[a], s.objects)
    {
      forall t | t in s.refs[a]
        ensures t in s.objects && t != NO_OBJECT && ObjectOk(s.objects[t])
      {
      }
    }
  }

  function Elements(s: seq<ObjectId>): set<ObjectId> {
    set x | x in s
  }

  /** Objects are only added. */
  predicate Grown(before: map<ObjectId, Object>, after: map<ObjectId, Object>) {
    forall o | o in before :: o in after && after[o] == before[o]
  }

  /** Nothing is taken away. */
  predicate Extends(before: State, after: State) {
    && Grown(before.objects, after.objects) && before.listed <= after.listed
    && forall a | a in before.refs :: a in after.refs && Elements(before.refs[a]) <= Elements(after.refs[a])
  }

  lemma ExtendsTransitive(a: State, b: State, c: State)
    requires Extends(a, b) && Extends(b, c)
    ensures Extends(a, c)
  {
  }

  // -- The track index of an album -------------------------------------------

  /** An entry of the track index: name, number and object. */
  datatype Track = Track(name: Name, index: int, id: ObjectId)

  /** The object an entry was made for or read from. */
  predicate Describes(t: Track, objects: map<ObjectId, Object>) {
    && t.id in objects && objects[t.id].TrackObject?
    && objects[t.id].name == Recoded(t.name) && objects[t.id].index == Stored(t.index)
  }

  predicate Indexed(tracks: seq<Track>, id: ObjectId) {
    exists t | t in tracks :: t.id == id
  }

  ghost predicate Faithful(tracks: seq<Track>, refs: seq<ObjectId>, objects: map<ObjectId, Object>) {
    && (forall t | t in tracks :: t.id in refs && Describes(t, objects))
    && (forall id | id in refs :: Indexed(tracks, id))
  }

  /** The first entry with that name and number, as equal_range would find one. */
  function FindTrack(tracks: seq<Track>, name: Name, index: int): ObjectId {
    if tracks == [] then NO_OBJECT
    else if tracks[0].name == name && tracks[0].index == index then tracks[0].id
    else FindTrack(tracks[1..], name, index)
  }

  ghost predicate NoNullIds(tracks: seq<Track>) {
    forall t | t in tracks :: t.id != NO_OBJECT
  }

  predicate HasEntry(tracks: seq<Track>, name: Name, index: int) {
    exists t | t in tracks :: t.name == name && t.index == index
  }

  lemma {:induction false} FindTrackMeaning(tracks: seq<Track>, name: Name, index: int)
    ensures var id := FindTrack(tracks, name, index);
      id != NO_OBJECT ==> Track(name, index, id) in tracks
    ensures NoNullIds(tracks) ==> (FindTrack(tracks, name, index) != NO_OBJECT <==> HasEntry(tracks, name, index))
  {
    if tracks != [] {
      FindTrackMeaning(tracks[1..], name, index);
      assert forall t :: t in tracks <==> t == tracks[0] || t in tracks[1..];
      if tracks[0].name == name && tracks[0].index == index {
        assert tracks[0] in tracks;
      }
    }
  }

  /** Adding a track that was not found makes it the one found, and hides none. */
  lemma {:induction false} FindTrackSnoc(tracks: seq<Track>, t: Track, name: Name, index: int)
    requires t.id != NO_OBJECT && NoNullIds(tracks)
    ensures FindTrack(tracks, name, index) != NO_OBJECT ==>
      FindTrack(tracks + [t], name, index) == FindTrack(tracks, name, index)
    ensures FindTrack(tracks, name, index) == NO_OBJECT && t.name == name && t.index == index ==>
      FindTrack(tracks + [t], name, index) == t.id
  {
    if tracks == [] {
      assert FindTrack([t], name, index) == if t.name == name && t.index == index then t.id else FindTrack([], name, index);
    } else {
      assert tracks[0] in tracks;
      FindTrackSnoc(tracks[1..], t, name, index);
      assert (tracks + [t])[0] == tracks[0] && (tracks + [t])[1..] == tracks[1..] + [t];
    }
  }

  lemma {:induction false} FindTrackPrefix(before: seq<Track>, after: seq<Track>, name: Name, index: int)
    requires before <= after && FindTrack(before, name, index) != NO_OBJECT && NoNullIds(before)
    ensures FindTrack(after, name, index) == FindTrack(before, name, index)
  {
    assert before[0] in before;
    if !(before[0].name == name && before[0].index == index) {
      FindTrackPrefix(before[1..], after[1..], name, index);
    }
  }

  lemma IndexedGrows(before: seq<Track>, after: seq<Track>)
    requires before <= after
    ensures forall id :: Indexed(before, id) ==> Indexed(after, id)
  {
    assert forall t | t in before :: t in after;
  }

  lemma FaithfulGrows(tracks: seq<Track>, refs: seq<ObjectId>, before: map<ObjectId, Object>, after: map<ObjectId, Object>)
    requires Faithful(tracks, refs, before) && Grown(before, after)
    ensures Faithful(tracks, refs, after)
  {
    forall t | t in tracks
      ensures t.id in refs && Describes(t, after)
    {
      assert Describes(t, before);
    }
  }

  lemma FaithfulSnoc(tracks: seq<Track>, refs: seq<ObjectId>, objects: map<ObjectId, Object>, t: Track, now: seq<ObjectId>)
    requires Faithful(tracks, refs, objects) && Describes(t, objects)
    requires Elements(now) == Elements(refs) + {t.id}
    ensures Faithful(tracks + [t], now, objects)
  {
    IndexedGrows(tracks, tracks + [t]);
    assert (tracks + [t])[|tracks|] == t;
    assert forall x :: x in now <==> x in Elements(now);
    assert forall x :: x in refs <==> x in Elements(refs);
  }

  /** The first i references have been read from the device. */
  ghost predicate ReadSoFar(tracks: seq<Track>, refs: seq<ObjectId>, objects: map<ObjectId, Object>, i: nat)
    requires i <= |refs|
  {
    && (forall t | t in tracks :: t.id in refs && Describes(t, objects) && ReadsBack(t))
    && forall j | 0 <= j < i :: Indexed(tracks, refs[j])
  }

  lemma ReadNext(tracks: seq<Track>, refs: seq<ObjectId>, objects: map<ObjectId, Object>, i: nat, t: Track)
    requires i < |refs| && ReadSoFar(tracks, refs, objects, i)
    requires t.id == refs[i] && t.id in objects && ObjectOk(objects[t.id])
    requires objects[t.id].TrackObject? && t.name == objects[t.id].name && t.index == objects[t.id].index
    ensures ReadSoFar(tracks + [t], refs, objects, i + 1)
  {
    RecodedIff(t.name);
    assert Describes(t, objects) && ReadsBack(t);
    IndexedGrows(tracks, tracks + [t]);
    assert (tracks + [t])[|tracks|] == t;
  }

  // -- What the device would answer --------------------------------------------

  predicate IsTrack(objects: map<ObjectId, Object>, id: ObjectId, name: Name, index: int) {
    id in objects && objects[id].TrackObject? && objects[id].name == name && objects[id].index == index
  }

  /** A referenced track of that name and number, on the device. */
  predicate OnDevice(refs: seq<ObjectId>, objects: map<ObjectId, Object>, name: Name, index: int) {
    exists id | id in refs :: IsTrack(objects, id, name, index)
  }

  ghost predicate TracksOk(refs: seq<ObjectId>, objects: map<ObjectId, Object>) {
    forall id | id in refs :: id in objects && id != NO_OBJECT && ObjectOk(objects[id])
  }

  /** The cached lookup says what the device would. */
  predicate LookupRight(tracks: seq<Track>, refs: seq<ObjectId>, objects: map<ObjectId, Object>, name: Name, index: int) {
    FindTrack(tracks, name, index) != NO_OBJECT <==> OnDevice(refs, objects, name, index)
  }

  /** The entry is what reading its object would give. */
  predicate ReadsBack(t: Track) {
    WellFormed(t.name) && Fits(t.index)
  }

  /** The device only has what can be read. */
  lemma OnDeviceReads(refs: seq<ObjectId>, objects: map<ObjectId, Object>, name: Name, index: int)
    requires TracksOk(refs, objects)
    ensures OnDevice(refs, objects, name, index) ==> WellFormed(name) && Fits(index)
  {
    forall id | id in refs && IsTrack(objects, id, name, index)
      ensures WellFormed(name) && Fits(index)
    {
      assert ObjectOk(objects[id]);
    }
  }

  /** A track is on the device under this name and number if and only if some entry comes to that. */
  lemma OnDeviceIff(tracks: seq<Track>, refs: seq<ObjectId>, objects: map<ObjectId, Object>, name: Name, index: int)
    requires Faithful(tracks, refs, objects)
    ensures OnDevice(refs, objects, name, index)
       <==> exists t | t in tracks :: Recoded(t.name) == name && Stored(t.index) == index
  {
    if OnDevice(refs, objects, name, index) {
      var id :| id in refs && IsTrack(objects, id, name, index);
      assert Indexed(tracks, id);
      var t :| t in tracks && t.id == id;
      assert Describes(t, objects);
    }
    if t :| t in tracks && Recoded(t.name) == name && Stored(t.index) == index {
      assert Describes(t, objects);
      assert IsTrack(objects, t.id, name, index);
    }
  }

  lemma EntriesNotNull(tracks: seq<Track>, refs: seq<ObjectId>, objects: map<ObjectId, Object>)
    requires Faithful(tracks, refs, objects) && TracksOk(refs, objects)
    ensures NoNullIds(tracks)
  {
  }

  /** An entry under this name that the device would not give, or one that it would and is cached
      under another name or number. */
  predicate Misleads(tracks: seq<Track>, t: Track, name: Name) {
    || (t.name == name && !ReadsBack(t))
    || (Recoded(t.name) == name && !HasEntry(tracks, name, Stored(t.index)))
  }

  /** The track index of an album is right about a name, whatever number is asked for, exactly when
      every entry under that name reads back, and every entry that the device has under that name is
      matched by one that is cached so. */
  lemma LookupIsFaithfulIff(tracks: seq<Track>, refs: seq<ObjectId>, objects: map<ObjectId, Object>, name: Name)
    requires Faithful(tracks, refs, objects) && TracksOk(refs, objects)
    ensures (forall index: int :: LookupRight(tracks, refs, objects, name, index))
       <==> (forall t | t in tracks :: !Misleads(tracks, t, name))
  {
    EntriesNotNull(tracks, refs, objects);
    if t :| t in tracks && Misleads(tracks, t, name) {
      MisleadingEntry(tracks, refs, objects, name, t);
    } else {
      forall index: int
        ensures LookupRight(tracks, refs, objects, name, index)
      {
        RightWhenNoneMisleads(tracks, refs, objects, name, index);
      }
    }
  }

  lemma MisleadingEntry(tracks: seq<Track>, refs: seq<ObjectId>, objects: map<ObjectId, Object>, name: Name, t: Track)
    requires Faithful(tracks, refs, objects) && TracksOk(refs, objects) && NoNullIds(tracks)
    requires t in tracks && Misleads(tracks, t, name)
    ensures !LookupRight(tracks, refs, objects, name, if t.name == name && !ReadsBack(t) then t.index else Stored(t.index))
  {
    FindTrackMeaning(tracks, name, t.index);
    FindTrackMeaning(tracks, name, Stored(t.index));
    OnDeviceIff(tracks, refs, objects, name, Stored(t.index));
    OnDeviceReads(refs, objects, name, t.index);
  }

  lemma RightWhenNoneMisleads(tracks: seq<Track>, refs: seq<ObjectId>, objects: map<ObjectId, Object>, name: Name, index: int)
    requires Faithful(tracks, refs, objects) && NoNullIds(tracks) && forall t | t in tracks :: !Misleads(tracks, t, name)
    ensures LookupRight(tracks, refs, objects, name, index)
  {
    hide Misleads, OnDevice, HasEntry, Faithful, NoNullIds;
    FindTrackMeaning(tracks, name, index);
    OnDeviceIff(tracks, refs, objects, name, index);
    EntriesAreThere(tracks, name, index);
    EntriesAreFound(tracks, name, index);
  }

  /** Entries under a name come to that name on the device, */
  lemma EntriesAreThere(tracks: seq<Track>, name: Name, index: int)
    requires forall t | t in tracks :: !Misleads(tracks, t, name)
    ensures HasEntry(tracks, name, index) ==> exists t | t in tracks :: Recoded(t.name) == name && Stored(t.index) == index
  {
    if t :| t in tracks && t.name == name && t.index == index {
      assert !Misleads(tracks, t, name);
      RecodedIff(name);
      assert Recoded(t.name) == name && Stored(t.index) == index;
    }
  }

  /** and what comes to it is found. */
  lemma EntriesAreFound(tracks: seq<Track>, name: Name, index: int)
    requires forall t | t in tracks :: !Misleads(tracks, t, name)
    ensures (exists t | t in tracks :: Recoded(t.name) == name && Stored(t.index) == index) ==> HasEntry(tracks, name, index)
  {
    hide HasEntry;
    if t :| t in tracks && Recoded(t.name) == name && Stored(t.index) == index {
      assert !Misleads(tracks, t, name);
    }
  }

  ghost predicate AllReadBack(tracks: seq<Track>) {
    forall t | t in tracks :: ReadsBack(t)
  }

  /** An index read from the device is right about everything. */
  lemma RightWhenAllReadBack(tracks: seq<Track>, refs: seq<ObjectId>, objects: map<ObjectId, Object>, name: Name, index: int)
    requires Faithful(tracks, refs, objects) && TracksOk(refs, objects) && AllReadBack(tracks)
    ensures LookupRight(tracks, refs, objects, name, index)
  {
    hide Faithful, TracksOk, AllReadBack, LookupRight, Misleads, NoNullIds;
    EntriesNotNull(tracks, refs, objects);
    NoneMisleads(tracks, name);
    RightWhenNoneMisleads(tracks, refs, objects, name, index);
  }

  lemma NoneMisleads(tracks: seq<Track>, name: Name)
    requires AllReadBack(tracks)
    ensures forall t | t in tracks :: !Misleads(tracks, t, name)
  {
    forall t | t in tracks
      ensures !Misleads(tracks, t, name)
    {
      assert ReadsBack(t);
      RecodedIff(t.name);
    }
  }

  /** A track of one session is found by the next, which reads names and numbers from the device, if
      and only if its name and number read back. */
  lemma FoundAgainIff(tracks: seq<Track>, again: seq<Track>, refs: seq<ObjectId>, objects: map<ObjectId, Object>, t: Track)
    requires Faithful(tracks, refs, objects) && TracksOk(refs, objects) && t in tracks
    requires Faithful(again, refs, objects) && AllReadBack(again)
    ensures FindTrack(again, t.name, t.index) != NO_OBJECT <==> ReadsBack(t)
  {
    RightWhenAllReadBack(again, refs, objects, t.name, t.index);
    OnDeviceIfReadsBack(tracks, refs, objects, t);
  }

  lemma OnDeviceIfReadsBack(tracks: seq<Track>, refs: seq<ObjectId>, objects: map<ObjectId, Object>, t: Track)
    requires Faithful(tracks, refs, objects) && TracksOk(refs, objects) && t in tracks
    ensures OnDevice(refs, objects, t.name, t.index) <==> ReadsBack(t)
  {
    RecodedIff(t.name);
    if ReadsBack(t) {
      assert Describes(t, objects);
      assert IsTrack(objects, t.id, t.name, t.index);
    }
    OnDeviceReads(refs, objects, t.name, t.index);
  }

  // -- Albums ----------------------------------------------------------------

  type Key = (Name, Name)                     // of an album: artist and name

  datatype Metadata = Metadata(artist: Name, album: Name, title: Name, track: int, genre: Name, year: int, date: Name,
                               filename: Name, cover: seq<int>)

  function ArtistKey(name: Name): Name {
    if name == [] then UNKNOWN_ARTIST else name
  }

  function AlbumKey(m: Metadata): Key {
    (ArtistKey(m.artist), if m.album == [] then UNKNOWN_ALBUM else m.album)
  }

  /** Where loading the library puts an album. */
  function KeyOf(o: Object): Key
    requires o.AlbumObject?
  {
    (ArtistKey(o.artist), o.name)
  }

  ghost predicate ListOk(listed: seq<ObjectId>, objects: map<ObjectId, Object>) {
    forall a | a in listed :: a in objects && a != NO_OBJECT && objects[a].AlbumObject? && ObjectOk(objects[a])
  }

  /** The album a session finds under a key: of several the first the device lists. */
  function FirstUnder(listed: seq<ObjectId>, objects: map<ObjectId, Object>, key: Key): (id: ObjectId)
    requires forall a | a in listed :: a in objects && objects[a].AlbumObject?
    ensures id != NO_OBJECT ==> id in listed && KeyOf(objects[id]) == key
  {
    if listed == [] then NO_OBJECT else
      var before, a := FirstUnder(listed[..|listed| - 1], objects, key), listed[|listed| - 1];
      if before != NO_OBJECT then before else if KeyOf(objects[a]) == key then a else NO_OBJECT
  }

  lemma {:induction false} SomeUnder(listed: seq<ObjectId>, objects: map<ObjectId, Object>, a: ObjectId, key: Key)
    requires ListOk(listed, objects) && a in listed && KeyOf(objects[a]) == key
    ensures FirstUnder(listed, objects, key) != NO_OBJECT
  {
    if listed[|listed| - 1] != a {
      SomeUnder(listed[..|listed| - 1], objects, a, key);
    }
  }

  lemma FirstUnderSnoc(listed: seq<ObjectId>, a: ObjectId, objects: map<ObjectId, Object>, key: Key)
    requires ListOk(listed, objects) && ListOk(listed + [a], objects)
    ensures a in objects && objects[a].AlbumObject?
    ensures FirstUnder(listed + [a], objects, key)
         == if FirstUnder(listed, objects, key) != NO_OBJECT then FirstUnder(listed, objects, key)
            else if KeyOf(objects[a]) == key then a else NO_OBJECT
  {
    assert (listed + [a])[..|listed|] == listed && (listed + [a])[|listed|] == a;
  }

  /** Later albums never hide earlier ones. */
  lemma {:induction false} FirstStays(before: seq<ObjectId>, after: seq<ObjectId>, was: map<ObjectId, Object>,
                                      now: map<ObjectId, Object>, key: Key)
    requires ListOk(before, was) && ListOk(after, now) && before <= after && Grown(was, now)
    requires FirstUnder(before, was, key) != NO_OBJECT
    ensures FirstUnder(after, now, key) == FirstUnder(before, was, key)
    decreases |after|
  {
    if |before| == |after| {
      assert before == after;
      SameFirst(before, was, now, key);
    } else {
      var front := after[..|after| - 1];
      assert before <= front && forall a | a in front :: a in after;
      FirstStays(before, front, was, now, key);
    }
  }

  lemma {:induction false} SameFirst(listed: seq<ObjectId>, was: map<ObjectId, Object>, now: map<ObjectId, Object>, key: Key)
    requires ListOk(listed, was) && ListOk(listed, now) && Grown(was, now)
    ensures FirstUnder(listed, now, key) == FirstUnder(listed, was, key)
  {
    if listed != [] {
      SameFirst(listed[..|listed| - 1], was, now, key);
    }
  }

  // -- What a new session finds ------------------------------------------------

  predicate KeyReads(m: Metadata) {
    WellFormed(AlbumKey(m).0) && WellFormed(AlbumKey(m).1)
  }

  /** Artist, album and title survive the way to the device and back, and the number fits. */
  predicate Reads(m: Metadata) {
    KeyReads(m) && WellFormed(m.title) && Fits(m.track)
  }

  /** The album a session opened now finds under a key, or the null id. */
  function AlbumUnder(s: State, key: Key): ObjectId
    requires forall a | a in s.listed :: a in s.objects && s.objects[a].AlbumObject?
  {
    FirstUnder(s.listed, s.objects, key)
  }

  /** A session opened now finds the track. */
  ghost predicate Finds(s: State, m: Metadata)
    requires StateOk(s)
  {
    var album := AlbumUnder(s, AlbumKey(m));
    album != NO_OBJECT && OnDevice(s.refs[album], s.objects, m.title, m.track)
  }

  lemma {:induction false} AsciiIsWellFormed(s: Name)
    requires forall c | c in s :: 0 < c < 0x80
    ensures WellFormed(s)
    decreases |s|
  {
    if s != [] {
      assert s[0] in s && SequenceLength(s) == 1;
      assert forall c | c in s[1..] :: c in s;
      AsciiIsWellFormed(s[1..]);
    }
  }

  lemma KeysRead(s: State, k: Key)
    requires StateOk(s) && AlbumUnder(s, k) != NO_OBJECT
    ensures WellFormed(k.0) && WellFormed(k.1)
  {
    assert ObjectOk(s.objects[AlbumUnder(s, k)]);
    AsciiIsWellFormed(UNKNOWN_ARTIST);
  }

  /** Only what reads is ever found. */
  lemma FoundReads(s: State, m: Metadata)
    requires StateOk(s) && Finds(s, m)
    ensures Reads(m)
  {
    var refs := s.refs[AlbumUnder(s, AlbumKey(m))];
    KeysRead(s, AlbumKey(m));
    ReferencesOk(s);
    OnDeviceReads(refs, s.objects, m.title, m.track);
  }

  /** What was found stays found. */
  lemma FindsStays(before: State, after: State, m: Metadata)
    requires StateOk(before) && StateOk(after) && Extends(before, after) && Finds(before, m)
    ensures Finds(after, m)
  {
    ReferencesOk(before);
    ReferencesOk(after);
    FirstStays(before.listed, after.listed, before.objects, after.objects, AlbumKey(m));
    var a := AlbumUnder(before, AlbumKey(m));
    var id :| id in before.refs[a] && IsTrack(before.objects, id, m.title, m.track);
    assert id in Elements(before.refs[a]) && IsTrack(after.objects, id, m.title, m.track);
  }
}
