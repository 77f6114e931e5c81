/** FuseWrapper of fuse/fuse.cpp, name operations: the maps updated in place, each method
    proved against the request it serves. Device calls succeed. */
module FuseWrapper {
  import opened Bytes
  import opened Results
  import opened Codec
  import opened MtpStrings
  import opened FuseNames
  import opened FuseTree
  import opened BulkQuery

  const OBJECT_FILENAME: u16 := 0xdc07
  const OBJECT_FORMAT: u16 := 0xdc02

  /** The device. The order of its handles and the shape of its property list replies are its
      own business: functions of its state, constrained only by Honest. */
  class Device {
    var objects: Objects
    const handles: (Objects, Inode) -> seq<ObjectId>
    const names: (Objects, Inode) -> seq<Item<Name>>
    const kinds: (Objects, Inode) -> seq<Item<bool>>

    constructor (objects: Objects, handles: (Objects, Inode) -> seq<ObjectId>,
                 names: (Objects, Inode) -> seq<Item<Name>>, kinds: (Objects, Inode) -> seq<Item<bool>>)
      ensures this.objects == objects
      ensures this.handles == handles && this.names == names && this.kinds == kinds
    {
      this.objects, this.handles, this.names, this.kinds := objects, handles, names, kinds;
    }

    /** Handles are exactly the children; a reply may repeat, omit or add entries but does not
        lie about the property asked for. */
    ghost predicate Honest() {
      && (forall o: Objects, p: Inode, id: ObjectId :: id in handles(o, p) <==> id in o && o[id].parent == p)
      && (forall o: Objects, p: Inode, item: Item<Name> | item in names(o, p) ::
            item.property == OBJECT_FILENAME && item.id in o ==> item.value == o[item.id].name)
      && (forall o: Objects, p: Inode, item: Item<bool> | item in kinds(o, p) ::
            item.property == OBJECT_FORMAT && item.id in o ==> item.value == o[item.id].isDir)
    }

    /** SendObjectInfo or CreateDirectory: the device keeps `stored` of the name it was sent, or
        refuses it. */
    method Create(p: Inode, isDir: bool, id: ObjectId, stored: Option<Name>) returns (ok: bool)
      modifies this
      ensures ok == stored.Some?
      ensures objects == if ok then old(objects)[id := Node(p, stored.value, isDir)] else old(objects)
    {
      ok := stored.Some?;
      if ok {
        objects := objects[id := Node(p, stored.value, isDir)];
      }
    }

    /** DeleteObject; gone is the object with everything in it. */
    method Delete(gone: set<ObjectId>)
      modifies this
      ensures objects == old(objects) - gone
    {
      objects := objects - gone;
    }

    /** SetObjectProperty; refused also for an object that is not there. */
    method SetName(id: ObjectId, stored: Option<Name>) returns (ok: bool)
      modifies this
      ensures ok == (id in old(objects) && stored.Some?)
      ensures objects == if ok then Renamed(old(objects), id, stored.value) else old(objects)
    {
      ok := id in objects && stored.Some?;
      if ok {
        objects := objects[id := objects[id].(name := stored.value)];
      }
    }
  }

  /** Every name sent goes through WriteString. */
  method IsSent(name: Name) returns (ok: bool)
    ensures ok == Encode(name).Ok?
  {
    var stream := new OutputStream([]);
    var r := WriteString(stream, name);
    ok := r.Ok?;
  }

  class FuseWrapper {
    const device: Device
    const propertyLists: bool     // _getObjectPropertyListSupported
    var files: map<Inode, map<Name, Inode>>
    var objectAttrs: map<ObjectId, bool>
    var directoryCache: map<Inode, seq<Entry>>

    /** Connect. */
    constructor (device: Device, propertyLists: bool)
      ensures this.device == device && this.propertyLists == propertyLists
      ensures files == map[] && objectAttrs == map[] && directoryCache == map[]
      ensures State() == Connected(device.objects)
    {
      this.device, this.propertyLists := device, propertyLists;
      files, objectAttrs, directoryCache := map[], map[], map[];
    }

    function State(): Fs
      reads this, device
    {
      Fs(device.objects, files, objectAttrs, directoryCache)
    }

    /** GetChildren below the root: afterwards the directory's names are loaded, whichever way
        the device reports them. */
    method GetChildren(p: Inode)
      requires p != ROOT && UniqueNames(device.objects) && device.Honest()
      modifies this
      ensures State() == Populate(old(State()), p)
    {
      if p in files {
        return;
      }
      files := files[p := map[]];
      var cache, kinds := Load(p);
      objectAttrs := objectAttrs + kinds;
      UpdateTwice(old(files), p, map[], cache);
      files := files[p := cache];
    }

    method Load(p: Inode) returns (cache: map<Name, Inode>, kinds: map<ObjectId, bool>)
      requires UniqueNames(device.objects) && device.Honest()
      ensures cache == Children(device.objects, p) && kinds == KindsOf(device.objects, p)
    {
      if propertyLists && !IsStorage(p) {
        cache := LoadNames(p);
        kinds := LoadKinds(p);
      } else {
        cache, kinds := LoadOneByOne(p);
      }
      ChildrenUnique(device.objects, p, cache, Children(device.objects, p));
    }

    /** The file names of a directory by property list. */
    method LoadNames(p: Inode) returns (cache: map<Name, Inode>)
      requires UniqueNames(device.objects) && device.Honest()
      ensures IsChildren(device.objects, p, cache)
    {
      var objects := device.objects;
      var requested := set id | id in device.handles(objects, p);
      var single := (id: ObjectId) => if id in objects then Some(objects[id].name) else None;
      var reply := device.names(objects, p);
      var calls := Query(requested, reply, OBJECT_FILENAME, single);
      forall j | 0 <= j < |calls|
        ensures calls[j].0 in objects && objects[calls[j].0].parent == p && calls[j].1 == objects[calls[j].0].name
      {
        HonestCall(requested, reply, OBJECT_FILENAME, single, calls, j);
      }
      forall id | id in objects && objects[id].parent == p
        ensures exists j | 0 <= j < |calls| :: calls[j].0 == id
      {
        var j := CallMade(requested, reply, OBJECT_FILENAME, single, calls, id);
      }
      cache := EmplaceAll(objects, p, calls);
    }

    /** The callback of the file name query, for every call. */
    method EmplaceAll(objects: Objects, p: Inode, calls: seq<(ObjectId, Name)>) returns (cache: map<Name, Inode>)
      requires UniqueNames(objects)
      requires forall j | 0 <= j < |calls| ::
        calls[j].0 in objects && objects[calls[j].0].parent == p && calls[j].1 == objects[calls[j].0].name
      requires forall id | id in objects && objects[id].parent == p :: exists j | 0 <= j < |calls| :: calls[j].0 == id
      ensures IsChildren(objects, p, cache)
    {
      cache := map[];
      ghost var seen: set<ObjectId> := {};
      var i := 0;
      while i < |calls|
        invariant 0 <= i <= |calls|
        invariant Gathered(objects, p, cache, seen)
        invariant forall j | 0 <= j < i :: calls[j].0 in seen
      {
        GatheredStep(objects, p, cache, seen, calls[i].0);
        cache := Emplace(cache, calls[i].1, ToFuse(calls[i].0));
        seen := seen + {calls[i].0};
        i := i + 1;
      }
      GatheredAll(objects, p, cache, seen);
    }

    /** The kinds of a directory's objects by property list. */
    method LoadKinds(p: Inode) returns (kinds: map<ObjectId, bool>)
      requires device.Honest()
      ensures kinds == KindsOf(device.objects, p)
    {
      var objects := device.objects;
      var requested := set id | id in device.handles(objects, p);
      var single := (id: ObjectId) => if id in objects then Some(objects[id].isDir) else None;
      var reply := device.kinds(objects, p);
      var calls := Query(requested, reply, OBJECT_FORMAT, single);
      kinds := map[];
      var i := 0;
      while i < |calls|
        invariant 0 <= i <= |calls|
        invariant forall id | id in kinds :: id in objects && objects[id].parent == p && kinds[id] == objects[id].isDir
        invariant forall j | 0 <= j < i :: calls[j].0 in kinds
      {
        HonestCall(requested, reply, OBJECT_FORMAT, single, calls, i);
        kinds := kinds[calls[i].0 := calls[i].1];
        i := i + 1;
      }
      forall id | id in objects && objects[id].parent == p
        ensures id in kinds
      {
        assert id in requested;
        var j := CallMade(requested, reply, OBJECT_FORMAT, single, calls, id);
      }
    }

    /** GetObjectInfo for every handle. */
    method LoadOneByOne(p: Inode) returns (cache: map<Name, Inode>, kinds: map<ObjectId, bool>)
      requires UniqueNames(device.objects) && device.Honest()
      ensures IsChildren(device.objects, p, cache) && kinds == KindsOf(device.objects, p)
    {
      var objects := device.objects;
      var handles := device.handles(objects, p);
      assert forall id :: id in handles <==> id in objects && objects[id].parent == p;
      cache, kinds := InfoOfAll(objects, p, handles);
    }

    /** GetObjectInfo into the two caches, for every handle. */
    method InfoOfAll(objects: Objects, p: Inode, handles: seq<ObjectId>)
      returns (cache: map<Name, Inode>, kinds: map<ObjectId, bool>)
      requires UniqueNames(objects)
      requires forall id :: id in handles <==> id in objects && objects[id].parent == p
      ensures IsChildren(objects, p, cache) && kinds == KindsOf(objects, p)
    {
      hide InfoGathered, IsChild, IsChildren, UniqueNames, KindsOf;
      cache, kinds := map[], map[];
      NoInfo(objects, p);
      ghost var seen: set<ObjectId> := {};
      var i := 0;
      while i < |handles|
        invariant 0 <= i <= |handles|
        invariant InfoGathered(objects, p, cache, kinds, seen)
        invariant forall j | 0 <= j < i :: handles[j] in seen
      {
        var id := handles[i];
        assert id in handles;
        InfoStep(objects, p, cache, kinds, seen, id);
        var info := objects[id];
        cache := Emplace(cache, info.name, ToFuse(id));
        kinds := kinds[id := info.isDir];
        seen := seen + {id};
        i := i + 1;
      }
      AllInfo(objects, p, cache, kinds, seen);
    }

    /** The root and storages are in the root; any other inode is in the directory its object names,
        if the device has the object. */
    method GetParentObject(inode: Inode) returns (r: Option<Inode>)
      ensures r == if inode == 1 || IsStorage(inode) then Some(1)
                   else if FromFuse(inode) in device.objects then Some(device.objects[FromFuse(inode)].parent)
                   else None
    {
      if inode == ROOT || IsStorage(inode) {
        return Some(ROOT);
      }
      r := if FromFuse(inode) in device.objects then Some(device.objects[FromFuse(inode)].parent) else None;
    }

    /** Is it a directory? The root and storages are, an object is if the device says so; nothing for
        one that neither the device nor the cache has. */
    method GetObjectAttr(inode: Inode) returns (r: Option<bool>)
      requires UniqueNames(device.objects) && device.Honest()
      requires forall id | id in device.objects :: device.objects[id].parent != ROOT
      modifies this
      ensures State() == WithAttr(old(State()), inode)
      ensures r == KindOf(State(), inode)
      ensures Agrees(old(State())) ==>
        var id := FromFuse(inode);
        if inode == 1 || IsStorage(inode) then r == Some(true)
        else if id in device.objects then r == Some(device.objects[id].isDir)
        else id !in old(objectAttrs) ==> r == None
    {
      if Agrees(State()) {
        KindIsRight(State(), inode);
      }
      if inode == ROOT || IsStorage(inode) {
        return Some(true);
      }
      var id := FromFuse(inode);
      if id !in objectAttrs {
        var parent := GetParentObject(inode);
        if parent.None? {
          return None;
        }
        GetChildren(parent.value);
      }
      r := if id in objectAttrs then Some(objectAttrs[id]) else None;
    }

    /** GetAttr. */
    method AnswerAttr(p: Inode) returns (r: Reply)
      requires device.Honest() && Agrees(State()) && Allowed(State(), GetAttr(p))
      modifies this
      ensures (State(), r) == AskKind(old(State()), p)
    {
      ParentsAreNotRoot(device.objects);
      var attr := GetObjectAttr(p);
      r := match attr case Some(isDir) => Kind(isDir) case None => Absent;
    }

    method Lookup(p: Inode, name: Name) returns (r: Reply)
      requires device.Honest() && Agrees(State()) && Allowed(State(), LookupName(p, name))
      modifies this
      ensures (State(), r) == LookUp(old(State()), p, name)
    {
      ParentsAreNotRoot(device.objects);
      LoadedNames(State(), p);
      GetChildren(p);
      if name in files[p] {
        KnownKind(State(), p, name);
        var attr := GetObjectAttr(files[p][name]);
        if attr.Some? {
          return Found(files[p][name], attr.value);
        }
      }
      r := Absent;
    }

    /** Lists a directory, from the cache if it was listed before; the order of the names is that
        of the name map. */
    method ReadDirectory(p: Inode, listing: seq<Entry>) returns (r: Reply)
      requires device.Honest() && Agrees(State()) && Allowed(State(), ListDir(p, listing))
      modifies this
      ensures (State(), r) == List(old(State()), p, listing)
    {
      ParentsAreNotRoot(device.objects);
      WithAttrAgrees(State(), p);
      KindIsRight(State(), p);
      var self := GetObjectAttr(p);
      if self.None? {
        return Failed;
      }
      if !self.value {
        return NotDirectory;
      }
      if p !in directoryCache {
        FillListing(p, listing);
      }
      r := Listed(directoryCache[p]);
    }

    /** The miss branch of ReadDir: the names and the kind of the directory's own parent are
        loaded for it. */
    method FillListing(p: Inode, listing: seq<Entry>)
      requires device.Honest() && Agrees(State()) && p != ROOT && IsDirectory(device.objects, p)
      requires IsListing(listing, ParentOf(device.objects, p), Children(device.objects, p))
      modifies this
      ensures var shown := WithAttr(Populate(old(State()), p), ParentOf(device.objects, p));
        State() == shown.(dirs := shown.dirs[p := listing])
    {
      ParentsAreNotRoot(device.objects);
      NamesShown(State(), p);
      LoadAndSerialise(p, listing);
    }

    method LoadAndSerialise(p: Inode, listing: seq<Entry>)
      requires device.Honest() && UniqueNames(device.objects)
      requires forall id | id in device.objects :: device.objects[id].parent != ROOT
      requires p != ROOT && IsDirectory(device.objects, p)
      requires IsListing(listing, ParentOf(device.objects, p), Children(device.objects, p))
      requires Shown(State(), p)
      modifies this
      ensures var shown := WithAttr(Populate(old(State()), p), ParentOf(device.objects, p));
        State() == shown.(dirs := shown.dirs[p := listing])
    {
      GetChildren(p);
      var parent := GetParentObject(p);
      var up := GetObjectAttr(parent.value);
      var entries := Serialise(p, parent.value, listing);
      directoryCache := directoryCache[p := entries];
    }

    /** ".", ".." and the loaded names, each with its attributes known. */
    method Serialise(p: Inode, parent: Inode, order: seq<Entry>) returns (entries: seq<Entry>)
      requires device.Honest() && UniqueNames(device.objects)
      requires forall id | id in device.objects :: device.objects[id].parent != ROOT
      requires p in files && KindsKnown(State(), p) && IsListing(order, parent, files[p])
      modifies this
      ensures State() == old(State()) && entries == order
    {
      ghost var fs := State();
      entries := [Entry(DOT, ROOT), Entry(DOT_DOT, parent)];
      for i := 2 to |order|
        invariant State() == fs && entries == order[..i]
      {
        var name := order[i].name;
        assert WithAttr(fs, fs.files[p][name]) == fs;
        var attr := GetObjectAttr(files[p][name]);
        entries := entries + [Entry(name, files[p][name])];
      }
    }

    /** Create, MakeNode and MakeDir below the root; the cache takes the name GetObjectInfo reports. */
    method CreateObject(p: Inode, name: Name, isDir: bool, id: ObjectId, stored: Option<Name>) returns (r: Reply)
      requires device.Honest() && Agrees(State()) && Allowed(State(), MakeObject(p, name, isDir, id, stored))
      modifies this, device
      ensures stored.Some? ==> UniqueNames(old(device.objects)[id := Node(p, stored.value, isDir)])
      ensures (State(), r) == MakeEntry(old(State()), p, isDir, id, stored)
    {
      hide DeviceOk;
      var sent := IsSent(name);
      if !sent {
        return Failed;
      }
      ParentsAreNotRoot(device.objects);
      MakeRefines(State(), MakeObject(p, name, isDir, id, stored));
      var ok := device.Create(p, isDir, id, stored);
      if !ok {
        return Failed;
      }
      NoteCreated(p, id, old(State()));
      r := Found(ToFuse(id), isDir);
    }

    /** The caches after a creation. */
    method NoteCreated(p: Inode, id: ObjectId, ghost before: Fs)
      requires device.Honest() && id in device.objects && device.objects[id].parent == p && UniqueNames(device.objects)
      requires forall c | c in device.objects :: device.objects[c].parent != ROOT
      requires State() == before.(objects := device.objects)
      requires before.objects[id := device.objects[id]] == device.objects
      modifies this
      ensures State() == Create(before, p, device.objects[id].name, device.objects[id].isDir, id)
    {
      assert device.objects[id] == Node(p, device.objects[id].name, device.objects[id].isDir);
      if p in files {
        files := files[p := Emplace(files[p], device.objects[id].name, ToFuse(id))];
        objectAttrs := objectAttrs[id := device.objects[id].isDir];
      }
      directoryCache := directoryCache - {p};
      InodesDistinct(id);
      var attr := GetObjectAttr(ToFuse(id));
    }

    method UnlinkImpl(inode: Inode, gone: set<ObjectId>)
      modifies this, device
      ensures State() == Drop(old(State()), FromFuse(inode), gone)
    {
      device.Delete(gone);
      objectAttrs := objectAttrs - {FromFuse(inode)};
    }

    /** Unlink and RemoveDir. */
    method UnlinkName(p: Inode, name: Name, gone: set<ObjectId>) returns (r: Reply)
      requires device.Honest() && Agrees(State()) && Allowed(State(), RemoveName(p, name, gone))
      modifies this, device
      ensures (State(), r) == RemoveEntry(old(State()), p, name, gone)
    {
      LoadedNames(State(), p);
      GetChildren(p);
      r := UnlinkLoaded(p, name, gone);
    }

    method UnlinkLoaded(p: Inode, name: Name, gone: set<ObjectId>) returns (r: Reply)
      requires device.Honest() && Agrees(State()) && p != ROOT && p in files
      modifies this, device
      ensures (State(), r) == Remove(old(State()), p, name, gone)
    {
      hide IsChildren;
      if name !in files[p] {
        return Absent;
      }
      var inode := files[p][name];
      KnownKind(State(), p, name);
      ParentsAreNotRoot(device.objects);
      var attr := GetObjectAttr(inode);
      if attr == Some(true) {
        GetChildren(inode);
        if files[inode] != map[] {
          return NotEmpty;
        }
      }
      UnlinkImpl(inode, gone);
      directoryCache := directoryCache - {p};
      files := files[p := files[p] - {name}];
      r := Done;
    }

    /** Rename within one directory. */
    method RenameEntry(p: Inode, name: Name, newName: Name, gone: set<ObjectId>, stored: Option<Name>) returns (r: Reply)
      requires device.Honest() && Agrees(State()) && Possible(State(), RenameName(p, name, newName, gone, stored))
      modifies this, device
      ensures (State(), r) == FuseTree.RenameEntry(old(State()), p, name, newName, gone, stored)
    {
      LoadedNames(State(), p);
      GetChildren(p);
      if name !in files[p] {
        return Absent;
      }
      KnownKind(State(), p, name);
      var ok := RenameLoaded(p, name, newName, gone, stored);
      r := if ok then Done else Failed;
    }

    /** The name is set between the two changes of the map; if that fails the second is not made. */
    method RenameLoaded(p: Inode, name: Name, newName: Name, gone: set<ObjectId>, stored: Option<Name>) returns (ok: bool)
      requires p in files && name in files[p] && FromFuse(files[p][name]) in device.objects && Stores(newName, stored)
      modifies this, device
      ensures ok <==> !RenameFails(old(files)[p], name, newName, gone, stored)
      ensures State() == if ok then Rename(old(State()), p, name, newName, gone, stored.value)
                         else if newName in old(files)[p] then RenameBroken(old(State()), p, newName, gone)
                         else old(State())
    {
      var inode := files[p][name];
      assert newName !in files[p] ==> files[p] - {newName} == files[p];
      UpdateTwice(files, p, files[p] - {newName}, Emplace(files[p] - {newName} - {name}, newName, inode));
      if newName in files[p] {
        UnlinkImpl(files[p][newName], gone);
        files := files[p := files[p] - {newName}];
      }
      ok := IsSent(newName);
      if !ok {
        return;
      }
      ok := device.SetName(FromFuse(inode), stored);
      if !ok {
        return;
      }
      files := files[p := Emplace(files[p] - {name}, newName, inode)];
      directoryCache := directoryCache - {p};
    }

    /** One request, by the method that serves it. */
    method Serve(r: Request) returns (reply: Reply)
      requires device.Honest() && Agrees(State()) && Allowed(State(), r)
      modifies this, device
      ensures r.MakeObject? && r.stored.Some? ==> UniqueNames(old(device.objects)[r.id := Node(r.p, r.stored.value, r.isDir)])
      ensures (State(), reply) == Handle(old(State()), r)
    {
      HandleRefines(State(), r);
      match r {
        case GetAttr(p) => reply := AnswerAttr(p);
        case LookupName(p, name) => reply := Lookup(p, name);
        case ListDir(p, listing) => reply := ReadDirectory(p, listing);
        case MakeObject(p, name, isDir, id, stored) => reply := CreateObject(p, name, isDir, id, stored);
        case RemoveName(p, name, gone) => reply := UnlinkName(p, name, gone);
        case RenameName(p, name, newName, gone, stored) => reply := RenameEntry(p, name, newName, gone, stored);
      }
    }

    /** Any run of requests: the caches agree with the device at the end, and the replies and the
        device are those of a file system without caches. */
    method Run(rs: seq<Request>) returns (replies: seq<Reply>)
      requires device.Honest() && Agrees(State()) && AllowedRun(State(), rs)
      modifies this, device
      ensures Agrees(State()) && (State(), replies) == RunAll(old(State()), rs)
      ensures MeantRun(old(device.objects), rs, device.objects, replies)
      decreases |rs|
    {
      RunRefines(State(), rs);
      if rs == [] {
        return [];
      }
      HandleRefines(State(), rs[0]);
      var first := Serve(rs[0]);
      var others := Run(rs[1..]);
      replies := [first] + others;
    }
  }

  /** From connecting on: a freshly connected wrapper over any sound device. */
  method Mount(device: Device, propertyLists: bool, rs: seq<Request>) returns (replies: seq<Reply>)
    requires device.Honest() && DeviceOk(device.objects) && AllowedFromStart(device.objects, rs)
    modifies device
    ensures MeantRun(old(device.objects), rs, device.objects, replies)
  {
    ConnectedAgrees(device.objects);
    var wrapper := new FuseWrapper(device, propertyLists);
    replies := wrapper.Run(rs);
  }

  lemma UpdateTwice<K, V>(m: map<K, V>, k: K, first: V, second: V)
    ensures m[k := first][k := second] == m[k := second]
  {
  }

  lemma ParentsAreNotRoot(objects: Objects)
    requires DeviceOk(objects)
    ensures forall id | id in objects :: objects[id].parent != ROOT
  {
    forall id | id in objects
      ensures objects[id].parent != ROOT
    {
      assert IsDirectory(objects, objects[id].parent);
    }
  }

  /** The names of the objects seen so far. */
  ghost predicate Gathered(objects: Objects, p: Inode, cache: map<Name, Inode>, seen: set<ObjectId>) {
    && (forall n | n in cache :: IsChild(objects, p, n, cache[n]))
    && (forall id | id in seen :: id in objects && objects[id].parent == p && objects[id].name in cache)
  }

  /** So are the kinds. */
  ghost predicate InfoGathered(objects: Objects, p: Inode, cache: map<Name, Inode>, kinds: map<ObjectId, bool>, seen: set<ObjectId>) {
    Gathered(objects, p, cache, seen) && kinds.Keys == seen && forall id | id in seen && id in objects :: kinds[id] == objects[id].isDir
  }

  lemma NoInfo(objects: Objects, p: Inode)
    ensures InfoGathered(objects, p, map[], map[], {})
  {
  }

  lemma InfoStep(objects: Objects, p: Inode, cache: map<Name, Inode>, kinds: map<ObjectId, bool>, seen: set<ObjectId>, id: ObjectId)
    requires InfoGathered(objects, p, cache, kinds, seen) && id in objects && objects[id].parent == p
    ensures InfoGathered(objects, p, Emplace(cache, objects[id].name, ToFuse(id)), kinds[id := objects[id].isDir], seen + {id})
  {
    hide Gathered;
    GatheredStep(objects, p, cache, seen, id);
  }

  lemma AllInfo(objects: Objects, p: Inode, cache: map<Name, Inode>, kinds: map<ObjectId, bool>, seen: set<ObjectId>)
    requires InfoGathered(objects, p, cache, kinds, seen) && UniqueNames(objects)
    requires forall id | id in objects && objects[id].parent == p :: id in seen
    ensures IsChildren(objects, p, cache) && kinds == KindsOf(objects, p)
  {
    GatheredAll(objects, p, cache, seen);
    assert forall id | id in seen :: id in objects && objects[id].parent == p;
  }

  lemma GatheredStep(objects: Objects, p: Inode, cache: map<Name, Inode>, seen: set<ObjectId>, id: ObjectId)
    requires Gathered(objects, p, cache, seen) && id in objects && objects[id].parent == p
    ensures Gathered(objects, p, Emplace(cache, objects[id].name, ToFuse(id)), seen + {id})
  {
    InodesDistinct(id);
  }

  lemma GatheredAll(objects: Objects, p: Inode, cache: map<Name, Inode>, seen: set<ObjectId>)
    requires Gathered(objects, p, cache, seen) && UniqueNames(objects)
    requires forall id | id in objects && objects[id].parent == p :: id in seen
    ensures IsChildren(objects, p, cache)
  {
    forall id | id in objects && objects[id].parent == p
      ensures objects[id].name in cache && cache[objects[id].name] == ToFuse(id)
    {
      assert id in seen;
      assert IsChild(objects, p, objects[id].name, cache[objects[id].name]);
    }
  }

  // -- What the callbacks are told -------------------------------------------

  lemma {:induction false} CallCounted<V>(calls: seq<(u32, V)>, j: nat)
    requires j < |calls|
    ensures calls[j].1 in ValuesFor(calls, calls[j].0)
  {
    if j > 0 {
      CallCounted(calls[1..], j - 1);
    }
  }

  lemma {:induction false} CallBehind<V>(calls: seq<(u32, V)>, id: u32) returns (j: nat)
    requires ValuesFor(calls, id) != []
    ensures j < |calls| && calls[j].0 == id && calls[j].1 == ValuesFor(calls, id)[0]
  {
    if calls[0].0 == id {
      j := 0;
    } else {
      j := CallBehind(calls[1..], id);
      j := j + 1;
    }
  }

  lemma {:induction false} MatchIsEntry<V>(reply: seq<Item<V>>, property: u16, id: u32)
    requires FirstMatch(reply, property, id).Some?
    ensures Item(id, property, FirstMatch(reply, property, id).value) in reply
  {
    if reply[0].id != id || reply[0].property != property {
      MatchIsEntry(reply[1..], property, id);
    }
  }

  /** A callback concerns a requested object and brings a value the device stands for. */
  lemma HonestCall<V>(requested: set<u32>, reply: seq<Item<V>>, property: u16, single: u32 -> Option<V>,
                      calls: seq<(u32, V)>, j: nat)
    requires forall id :: ValuesFor(calls, id)
                          == if id in requested then Expected(reply, property, single, id) else []
    requires j < |calls|
    ensures calls[j].0 in requested
    ensures Item(calls[j].0, property, calls[j].1) in reply || single(calls[j].0) == Some(calls[j].1)
  {
    CallCounted(calls, j);
    var id := calls[j].0;
    assert calls[j].1 in ValuesFor(calls, id);
    if FirstMatch(reply, property, id).Some? {
      MatchIsEntry(reply, property, id);
    }
  }

  /** Every requested object whose individual query would succeed is called back. */
  lemma CallMade<V>(requested: set<u32>, reply: seq<Item<V>>, property: u16, single: u32 -> Option<V>,
                    calls: seq<(u32, V)>, id: u32) returns (j: nat)
    requires forall id :: ValuesFor(calls, id)
                          == if id in requested then Expected(reply, property, single, id) else []
    requires id in requested && single(id).Some?
    ensures j < |calls| && calls[j].0 == id
    ensures Item(id, property, calls[j].1) in reply || single(id) == Some(calls[j].1)
  {
    assert ValuesFor(calls, id) == Expected(reply, property, single, id) != [];
    j := CallBehind(calls, id);
    HonestCall(requested, reply, property, single, calls, j);
  }
}
