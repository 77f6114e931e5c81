/** What has been pushed to each device, from tools/jellyfin-sync/jellyfin_sync/state.py. */
module SyncState {
  import opened Results
  import opened ObjectIds
  import opened Playlists

  type TrackId = string
  type Serial = string

  const UNKNOWN_DEVICE: Serial := "unknown-device"

  datatype Entry = Entry(description: string, filename: string, source: string, objectId: Option<ObjectId>)

  datatype Bucket = Bucket(tracks: map<TrackId, Entry>, playlists: map<Name, seq<TrackId>>)

  type Devices = map<Serial, Bucket>

  const EMPTY := Bucket(map[], map[])

  /** The bucket of a device, empty if it has none. */
  function BucketOf(devices: Devices, serial: Serial): Bucket {
    if serial in devices then devices[serial] else EMPTY
  }

  function KnownId(b: Bucket, id: TrackId): Option<ObjectId> {
    if id in b.tracks then b.tracks[id].objectId else None
  }

  /** A new entry takes over the object id known so far unless it brings one. */
  function Recorded(b: Bucket, id: TrackId, entry: Entry): Bucket {
    b.(tracks := b.tracks[id := if entry.objectId.None? then entry.(objectId := KnownId(b, id)) else entry])
  }

  /** Recording changes one track, and never forgets an object id. */
  lemma RecordedMeaning(b: Bucket, id: TrackId, entry: Entry)
    ensures var after := Recorded(b, id, entry);
      && after.tracks.Keys == b.tracks.Keys + {id} && after.playlists == b.playlists
      && KnownId(after, id) == (if entry.objectId.Some? then entry.objectId else KnownId(b, id))
      && after.tracks[id].description == entry.description && after.tracks[id].filename == entry.filename
      && after.tracks[id].source == entry.source
      && (forall other | other in b.tracks && other != id :: after.tracks[other] == b.tracks[other])
      && forall other | other != id :: KnownId(after, other) == KnownId(b, other)
  {
  }

  class State {
    var devices: Devices
    var device: Serial

    constructor (devices: Devices)
      ensures this.devices == devices && device == UNKNOWN_DEVICE
    {
      this.devices, device := devices, UNKNOWN_DEVICE;
    }

    function Bucket(): Bucket
      reads this
    {
      BucketOf(devices, device)
    }

    /** No device loses its bucket, and the selected one has one. */
    method SelectDevice(serial: Serial)
      modifies this
      ensures device == (if serial == "" then "unknown-device" else serial) && device in devices
      ensures forall d :: BucketOf(devices, d) == BucketOf(old(devices), d)
    {
      device := if serial == "" then UNKNOWN_DEVICE else serial;
      if device !in devices {
        devices := devices[device := EMPTY];
      }
    }

    method Record(id: TrackId, description: string, filename: string, source: string, objectId: Option<ObjectId>)
      modifies this`devices
      ensures devices == old(devices)[device := Recorded(old(Bucket()), id, Entry(description, filename, source, objectId))]
    {
      var bucket := Bucket();
      var entry := Entry(description, filename, source, None);
      if objectId.Some? {
        entry := entry.(objectId := objectId);
      } else if id in bucket.tracks && bucket.tracks[id].objectId.Some? {
        entry := entry.(objectId := bucket.tracks[id].objectId);
      }
      devices := devices[device := bucket.(tracks := bucket.tracks[id := entry])];
    }

    method RecordPlaylist(name: Name, trackIds: seq<TrackId>)
      modifies this`devices
      ensures devices == old(devices)[device := old(Bucket()).(playlists := old(Bucket()).playlists[name := trackIds])]
    {
      var bucket := Bucket();
      devices := devices[device := bucket.(playlists := bucket.playlists[name := trackIds])];
    }
  }
}
