/** The FUSE requests on names (fuse/fuse.cpp): the cached file system refines the uncached one. */
module FuseTree {
  import opened Results
  import opened MtpStrings
  import opened FuseNames

  // -- Requests on values ----------------------------------------------------

  /** A request on directory p; what the device contributes comes with it: the listing order,
      the new object's id, the subtree a deletion takes, and what it keeps of a name sent, or
      nothing if the name is not sent or refused. */
  datatype Request =
    | GetAttr(p: Inode)
    | LookupName(p: Inode, name: Name)
    | ListDir(p: Inode, listing: seq<Entry>)
    | MakeObject(p: Inode, name: Name, isDir: bool, id: ObjectId, stored: Option<Name>)
    | RemoveName(p: Inode, name: Name, gone: set<ObjectId>)
    | RenameName(p: Inode, name: Name, newName: Name, gone: set<ObjectId>, stored: Option<Name>)

  datatype Reply =
    | Kind(isDir: bool)
    | Found(inode: Inode, isDir: bool)
    | Absent
    | Listed(entries: seq<Entry>)
    | NotDirectory
    | NotEmpty
    | Failed      // an exception
    | Done

  /** Whether giving the new name fails: it was not sent or refused, or the target of the rename
      takes the object to rename with it. */
  predicate RenameFails(names: map<Name, Inode>, name: Name, newName: Name, gone: set<ObjectId>, stored: Option<Name>)
    requires name in names
  {
    stored.None? || (newName in names && FromFuse(names[name]) in gone)
  }

  /** What a rename must meet to keep the caches right: the new name survives the way to the device
      and back, and the target it deletes shows no cached names; if giving the name fails, that the
      directory was not listed takes the place of the former. */
  ghost predicate RenameIsSafe(fs: Fs, p: Inode, name: Name, newName: Name, gone: set<ObjectId>, stored: Option<Name>)
    requires UniqueNames(fs.objects)
  {
    var names := Children(fs.objects, p);
    name in names ==>
      && (newName in names ==> QuietBelow(Populate(fs, p), gone))
      && (if RenameFails(names, name, newName, gone, stored) then newName in names ==> p !in fs.dirs
          else Portable(newName))
  }

  /** What the device and the kernel guarantee: names are created only where none was found, ids are
      new, names on the device differ, deletions take whole subtrees; and what a rename must meet. */
  ghost predicate Allowed(fs: Fs, r: Request)
    requires UniqueNames(fs.objects)
  {
    Possible(fs, r) && (r.RenameName? ==> RenameIsSafe(fs, r.p, r.name, r.newName, r.gone, r.stored))
  }

  /** An inode of a storage or of an object. */
  predicate Exists(objects: Objects, p: Inode) {
    IsStorage(p) || (FromFuse(p) in objects && p == ToFuse(FromFuse(p)))
  }

  ghost predicate Possible(fs: Fs, r: Request)
    requires UniqueNames(fs.objects)
  {
    var names := Children(fs.objects, r.p);
    && (match r
        case GetAttr(p) => p == ROOT || Exists(fs.objects, p)
        case ListDir(p, _) => p != ROOT && Exists(fs.objects, p)
        case _ => r.p != ROOT && IsDirectory(fs.objects, r.p))
    && match r
       case GetAttr(_) => true
       case LookupName(_, _) => true
       case ListDir(p, listing) => IsDirectory(fs.objects, p) ==> IsListing(listing, ParentOf(fs.objects, p), names)
       case MakeObject(_, name, _, id, stored) =>
         name !in names && Stores(name, stored) && (stored.Some? ==> Unused(fs, id) && stored.value !in names)
       case RemoveName(_, name, gone) => name in names ==> IsSubtree(fs.objects, FromFuse(names[name]), gone)
       case RenameName(_, name, newName, gone, stored) =>
         Stores(newName, stored) && (newName in names ==> IsSubtree(fs.objects, FromFuse(names[newName]), gone))
  }

  // Each request through the caches.

  function AskKind(fs: Fs, p: Inode): (Fs, Reply)
    requires UniqueNames(fs.objects)
  {
    var known := WithAttr(fs, p);
    match KindOf(known, p)
    case Some(isDir) => (known, Kind(isDir))
    case None => (known, Absent)
  }

  function LookUp(fs: Fs, p: Inode, name: Name): (Fs, Reply)
    requires UniqueNames(fs.objects)
  {
    var loaded := Populate(fs, p);
    if name !in loaded.files[p] then (loaded, Absent)
    else
      var inode := loaded.files[p][name];
      var known := WithAttr(loaded, inode);
      match KindOf(known, inode)
      case Some(isDir) => (known, Found(inode, isDir))
      case None => (known, Absent)
  }

  function List(fs: Fs, p: Inode, listing: seq<Entry>): (Fs, Reply)
    requires UniqueNames(fs.objects)
  {
    match KindOf(WithAttr(fs, p), p)
    case None => (WithAttr(fs, p), Failed)
    case Some(isDir) =>
      if !isDir then (WithAttr(fs, p), NotDirectory)
      else
        var read := ReadDir(fs, p, listing);
        (read, Listed(read.dirs[p]))
  }

  /** Unlink on a populated directory: a directory must show no names itself. */
  function Remove(fs: Fs, p: Inode, name: Name, gone: set<ObjectId>): (Fs, Reply)
    requires UniqueNames(fs.objects) && p in fs.files
  {
    if name !in fs.files[p] then (fs, Absent)
    else
      var inode := fs.files[p][name];
      var known := WithAttr(fs, inode);
      if FromFuse(inode) in known.attrs && known.attrs[FromFuse(inode)] then
        var inner := Populate(known, inode);
        if inner.files[inode] != map[] then (inner, NotEmpty) else (Unlink(inner, p, name, gone), Done)
      else (Unlink(known, p, name, gone), Done)
  }

  function RemoveEntry(fs: Fs, p: Inode, name: Name, gone: set<ObjectId>): (Fs, Reply)
    requires UniqueNames(fs.objects)
  {
    Remove(Populate(fs, p), p, name, gone)
  }

  function MakeEntry(fs: Fs, p: Inode, isDir: bool, id: ObjectId, stored: Option<Name>): (Fs, Reply)
    requires stored.Some? ==> UniqueNames(fs.objects[id := Node(p, stored.value, isDir)])
  {
    match stored
    case Some(name) => (Create(fs, p, name, isDir, id), Found(ToFuse(id), isDir))
    case None => (fs, Failed)
  }

  function RenameEntry(fs: Fs, p: Inode, name: Name, newName: Name, gone: set<ObjectId>, stored: Option<Name>): (Fs, Reply)
    requires UniqueNames(fs.objects)
  {
    var loaded := Populate(fs, p);
    if name !in loaded.files[p] then (loaded, Absent)
    else if RenameFails(loaded.files[p], name, newName, gone, stored)
    then (if newName in loaded.files[p] then RenameBroken(loaded, p, newName, gone) else loaded, Failed)
    else (Rename(loaded, p, name, newName, gone, stored.value), Done)
  }

  /** The request through the caches. */
  function Handle(fs: Fs, r: Request): (Fs, Reply)
    requires UniqueNames(fs.objects)
    requires r.MakeObject? && r.stored.Some? ==> UniqueNames(fs.objects[r.id := Node(r.p, r.stored.value, r.isDir)])
  {
    match r
    case GetAttr(p) => AskKind(fs, p)
    case LookupName(p, name) => LookUp(fs, p, name)
    case ListDir(p, listing) => List(fs, p, listing)
    case MakeObject(p, _, isDir, id, stored) => MakeEntry(fs, p, isDir, id, stored)
    case RemoveName(p, name, gone) => RemoveEntry(fs, p, name, gone)
    case RenameName(p, name, newName, gone, stored) => RenameEntry(fs, p, name, newName, gone, stored)
  }

  /** The request with no caches at all: the device before and after, and the reply. */
  ghost predicate Meant(objects: Objects, r: Request, after: Objects, reply: Reply)
    requires UniqueNames(objects)
  {
    var names := Children(objects, r.p);
    match r
    case GetAttr(p) =>
      after == objects && reply == Kind(p == 1 || IsStorage(p) || (FromFuse(p) in objects && objects[FromFuse(p)].isDir))
    case LookupName(_, name) =>
      && after == objects
      && (if name in names
          then FromFuse(names[name]) in objects && reply == Found(names[name], objects[FromFuse(names[name])].isDir)
          else reply == Absent)
    case ListDir(p, _) =>
      && after == objects
      && (if !IsDirectory(objects, p) then reply == NotDirectory
          else reply.Listed? && IsListing(reply.entries, if IsStorage(p) then 1 else objects[FromFuse(p)].parent, names))
    case MakeObject(p, _, isDir, id, stored) =>
      if stored.None? then after == objects && reply == Failed
      else after == objects[id := Node(p, stored.value, isDir)] && reply == Found(ToFuse(id), isDir)
    case RemoveName(_, name, _) =>
      if name !in names then after == objects && reply == Absent
      else if Children(objects, names[name]) != map[] then after == objects && reply == NotEmpty
      else after == objects - {FromFuse(names[name])} && reply == Done
    case RenameName(p, name, newName, gone, stored) =>
      var without := objects - if newName in names then gone else {};
      if name !in names then after == objects && reply == Absent
      else
        var id := FromFuse(names[name]);
        if stored.None? || (newName in names && id in gone) then after == without && reply == Failed
        else id in objects && after == without[id := Node(p, stored.value, objects[id].isDir)] && reply == Done
  }

  lemma LoadedNames(fs: Fs, p: Inode)
    requires Agrees(fs) && p != ROOT
    ensures var loaded := Populate(fs, p);
      Agrees(loaded) && loaded.objects == fs.objects && loaded.files[p] == Children(fs.objects, p)
  {
    PopulateAgrees(fs, p);
    ChildrenUnique(fs.objects, p, Populate(fs, p).files[p], Children(fs.objects, p));
  }

  /** The kind of a name in a populated directory is known. */
  lemma KnownKind(fs: Fs, p: Inode, name: Name)
    requires Agrees(fs) && p != ROOT && p in fs.files && name in fs.files[p]
    ensures var id := FromFuse(fs.files[p][name]);
      && id in fs.objects && id in fs.attrs && fs.attrs[id] == fs.objects[id].isDir
      && fs.files[p][name] == ToFuse(id) && id != 0
      && WithAttr(fs, fs.files[p][name]) == fs
  {
    assert IsChild(fs.objects, p, name, fs.files[p][name]);
  }

  lemma LookupRefines(fs: Fs, p: Inode, name: Name)
    requires Agrees(fs) && Allowed(fs, LookupName(p, name))
    ensures var (after, reply) := LookUp(fs, p, name);
      Agrees(after) && Meant(fs.objects, LookupName(p, name), after.objects, reply)
  {
    hide IsChildren, WithAttr, KindOf, FilesAgree, DirsAgree, AttrsAgree;
    LoadedNames(fs, p);
    if name in Populate(fs, p).files[p] {
      KnownKind(Populate(fs, p), p, name);
      KindIsRight(Populate(fs, p), Populate(fs, p).files[p][name]);
    }
  }

  lemma AttrRefines(fs: Fs, p: Inode)
    requires Agrees(fs) && Allowed(fs, GetAttr(p))
    ensures var (after, reply) := AskKind(fs, p);
      Agrees(after) && Meant(fs.objects, GetAttr(p), after.objects, reply)
  {
    WithAttrAgrees(fs, p);
    KindIsRight(fs, p);
  }

  lemma ListRefines(fs: Fs, p: Inode, listing: seq<Entry>)
    requires Agrees(fs) && Allowed(fs, ListDir(p, listing))
    ensures var (after, reply) := List(fs, p, listing);
      Agrees(after) && Meant(fs.objects, ListDir(p, listing), after.objects, reply)
  {
    hide Agrees, IsChildren, IsListing, ReadDir, WithAttr, KindOf, UniqueNames;
    WithAttrAgrees(fs, p);
    KindIsRight(fs, p);
    if IsDirectory(fs.objects, p) {
      ListedRight(fs, p, listing);
    }
  }

  lemma ListedRight(fs: Fs, p: Inode, listing: seq<Entry>)
    requires Agrees(fs) && p != ROOT && IsDirectory(fs.objects, p)
    requires IsListing(listing, ParentOf(fs.objects, p), Children(fs.objects, p))
    ensures var after := ReadDir(fs, p, listing);
      Agrees(after) && IsListing(after.dirs[p], ParentOf(fs.objects, p), Children(fs.objects, p))
  {
    ReadDirAgrees(fs, p, listing);
    var after := ReadDir(fs, p, listing);
    WithAttrAgrees(fs, p);
    if p !in fs.dirs {
      PopulateAgrees(WithAttr(fs, p), p);
      WithAttrAgrees(Populate(WithAttr(fs, p), p), ParentOf(fs.objects, p));
    }
    assert DirAgrees(after, p);
    ChildrenUnique(fs.objects, p, after.files[p], Children(fs.objects, p));
  }

  /** Only directories have children. */
  lemma FilesAreLeaves(objects: Objects, id: ObjectId)
    requires DeviceOk(objects) && id in objects && !objects[id].isDir
    ensures Children(objects, ToFuse(id)) == map[]
  {
    assert !IsDirectory(objects, ToFuse(id));
    assert forall c | c in objects :: objects[c].parent != ToFuse(id);
    var names := Children(objects, ToFuse(id));
    assert forall n :: n !in names;
  }

  lemma LeafIsQuiet(fs: Fs, id: ObjectId)
    requires Agrees(fs) && id in fs.objects && Children(fs.objects, ToFuse(id)) == map[]
    ensures QuietBelow(fs, {id})
  {
    if ToFuse(id) in fs.files {
      ChildrenUnique(fs.objects, ToFuse(id), fs.files[ToFuse(id)], map[]);
    }
  }

  lemma RemoveRefines(fs: Fs, p: Inode, name: Name, gone: set<ObjectId>)
    requires Agrees(fs) && p != ROOT && p in fs.files && name in fs.files[p]
    requires IsSubtree(fs.objects, FromFuse(fs.files[p][name]), gone)
    ensures var (after, reply) := Remove(fs, p, name, gone);
      && Agrees(after)
      && (if Children(fs.objects, fs.files[p][name]) != map[] then after.objects == fs.objects && reply == NotEmpty
          else after.objects == fs.objects - {FromFuse(fs.files[p][name])} && reply == Done)
  {
    var inode := fs.files[p][name];
    var id := FromFuse(inode);
    KnownKind(fs, p, name);
    var inner := fs;
    if fs.objects[id].isDir {
      LoadedNames(fs, inode);
      inner := Populate(fs, inode);
    } else {
      FilesAreLeaves(fs.objects, id);
    }
    if Children(fs.objects, inode) == map[] {
      SubtreeOfLeaf(fs.objects, id, gone);
      LeafIsQuiet(inner, id);
      UnlinkAgrees(inner, p, name, gone);
    }
  }

  /** One request: the caches still agree, and the reply and the device's new state are those
      of the uncached file system. */
  lemma HandleRefines(fs: Fs, r: Request)
    requires Agrees(fs) && Allowed(fs, r)
    ensures r.MakeObject? && r.stored.Some? ==> UniqueNames(fs.objects[r.id := Node(r.p, r.stored.value, r.isDir)])
    ensures var (after, reply) := Handle(fs, r);
      Agrees(after) && Meant(fs.objects, r, after.objects, reply)
  {
    match r
    case GetAttr(p) => AttrRefines(fs, p);
    case LookupName(p, name) => LookupRefines(fs, p, name);
    case ListDir(p, listing) => ListRefines(fs, p, listing);
    case MakeObject(p, name, isDir, id, stored) => MakeRefines(fs, r);
    case RemoveName(p, name, gone) =>
      LoadedNames(fs, p);
      if name in Children(fs.objects, p) {
        RemoveRefines(Populate(fs, p), p, name, gone);
      }
    case RenameName(p, name, newName, gone, stored) =>
      RenameRefines(fs, r);
      RenameAgrees(fs, r);
  }

  /** Renaming does what it does on the uncached device. */
  lemma RenameRefines(fs: Fs, r: Request)
    requires Agrees(fs) && r.RenameName? && Possible(fs, r)
    ensures var (after, reply) := Handle(fs, r); Meant(fs.objects, r, after.objects, reply)
  {
    LoadedNames(fs, r.p);
    if r.name in Children(fs.objects, r.p) {
      RenamedObjects(Populate(fs, r.p), r.p, r.name, r.newName, r.gone, r.stored);
    }
  }

  lemma RenamedObjects(fs: Fs, p: Inode, name: Name, newName: Name, gone: set<ObjectId>, stored: Option<Name>)
    requires p in fs.files && name in fs.files[p]
    ensures var without := fs.objects - if newName in fs.files[p] then gone else {};
      && (stored.Some? ==>
            Rename(fs, p, name, newName, gone, stored.value).objects
            == Renamed(without, FromFuse(fs.files[p][name]), stored.value))
      && (if newName in fs.files[p] then RenameBroken(fs, p, newName, gone).objects == without else fs.objects == without)
  {
    assert fs.objects - {} == fs.objects;
  }

  /** And keeps the caches right. */
  lemma RenameAgrees(fs: Fs, r: Request)
    requires Agrees(fs) && r.RenameName? && Allowed(fs, r)
    ensures Agrees(Handle(fs, r).0)
  {
    LoadedNames(fs, r.p);
    if r.name in Children(fs.objects, r.p) {
      RenameLoadedAgreesIff(Populate(fs, r.p), r.p, r.name, r.newName, r.gone, r.stored);
    }
  }

  /** The exact condition, with the names loaded. */
  lemma RenameLoadedAgreesIff(fs: Fs, p: Inode, name: Name, newName: Name, gone: set<ObjectId>, stored: Option<Name>)
    requires Agrees(fs) && p != ROOT && p in fs.files && name in fs.files[p] && Stores(newName, stored)
    requires newName in fs.files[p] ==> IsSubtree(fs.objects, FromFuse(fs.files[p][newName]), gone)
    ensures Agrees(if RenameFails(fs.files[p], name, newName, gone, stored)
                   then if newName in fs.files[p] then RenameBroken(fs, p, newName, gone) else fs
                   else Rename(fs, p, name, newName, gone, stored.value))
       <==> && (newName in fs.files[p] ==> QuietBelow(fs, gone))
            && (if RenameFails(fs.files[p], name, newName, gone, stored) then newName in fs.files[p] ==> p !in fs.dirs
                else Portable(newName))
  {
    if RenameFails(fs.files[p], name, newName, gone, stored) {
      if newName in fs.files[p] {
        BrokenRenameAgreesIff(fs, p, newName, gone);
      }
    } else {
      assert name != newName;
      RenameAgreesIff(fs, p, name, newName, gone, stored.value);
    }
  }

  /** What a listing is made of: asking for the kinds of a directory's names loads nothing more. */
  ghost predicate KindsKnown(fs: Fs, p: Inode)
    requires UniqueNames(fs.objects) && p in fs.files
  {
    forall name | name in fs.files[p] :: WithAttr(fs, fs.files[p][name]) == fs
  }

  /** With its names and the kind of its parent loaded, a directory can be listed. */
  ghost predicate Shown(fs: Fs, p: Inode)
    requires UniqueNames(fs.objects)
  {
    var shown := WithAttr(Populate(fs, p), ParentOf(fs.objects, p));
    shown.files[p] == Children(fs.objects, p) && KindsKnown(shown, p)
  }

  lemma NamesShown(fs: Fs, p: Inode)
    requires Agrees(fs) && p != ROOT
    ensures Shown(fs, p)
  {
    var shown := WithAttr(Populate(fs, p), ParentOf(fs.objects, p));
    LoadedNames(fs, p);
    WithAttrAgrees(Populate(fs, p), ParentOf(fs.objects, p));
    forall name | name in shown.files[p]
      ensures WithAttr(shown, shown.files[p][name]) == shown
    {
      KnownKind(shown, p, name);
    }
  }

  /** The cache takes the name the device reports, whatever became of the one sent. */
  lemma MakeRefines(fs: Fs, r: Request)
    requires Agrees(fs) && r.MakeObject? && Allowed(fs, r)
    ensures r.stored.Some? ==> UniqueNames(fs.objects[r.id := Node(r.p, r.stored.value, r.isDir)])
    ensures var (after, reply) := Handle(fs, r);
      Agrees(after) && Meant(fs.objects, r, after.objects, reply)
  {
    if r.stored.Some? {
      CreateAgrees(fs, r.p, r.stored.value, r.isDir, r.id);
    }
  }

  /** The state a connection starts from. */
  function Connected(objects: Objects): Fs {
    Fs(objects, map[], map[], map[])
  }

  lemma ConnectedAgrees(objects: Objects)
    requires DeviceOk(objects)
    ensures Agrees(Connected(objects))
  {
    var fs := Connected(objects);
    assert FilesAgree(fs);
    assert DirsAgree(fs);
    assert AttrsAgree(fs);
  }

  /** A run in which every request is allowed when its turn comes. */
  ghost predicate AllowedRun(fs: Fs, rs: seq<Request>)
    requires Agrees(fs)
    decreases |rs|
  {
    rs == [] || (Allowed(fs, rs[0]) && (HandleRefines(fs, rs[0]); AllowedRun(Handle(fs, rs[0]).0, rs[1..])))
  }

  ghost predicate AllowedFromStart(objects: Objects, rs: seq<Request>)
    requires DeviceOk(objects)
  {
    ConnectedAgrees(objects);
    AllowedRun(Connected(objects), rs)
  }

  ghost function RunAll(fs: Fs, rs: seq<Request>): (Fs, seq<Reply>)
    requires Agrees(fs) && AllowedRun(fs, rs)
    decreases |rs|
  {
    if rs == [] then (fs, [])
    else
      HandleRefines(fs, rs[0]);
      var (next, reply) := Handle(fs, rs[0]);
      var (last, replies) := RunAll(next, rs[1..]);
      (last, [reply] + replies)
  }

  /** A run of the uncached file system. */
  ghost predicate MeantRun(objects: Objects, rs: seq<Request>, after: Objects, replies: seq<Reply>)
    decreases |rs|
  {
    if rs == [] then after == objects && replies == []
    else
      && replies != [] && UniqueNames(objects)
      && exists mid :: Meant(objects, rs[0], mid, replies[0]) && MeantRun(mid, rs[1..], after, replies[1..])
  }

  /** Over every run the caches agree with the device at the end, and every reply is what the
      file system without caches would have answered. */
  lemma {:induction false} RunRefines(fs: Fs, rs: seq<Request>)
    requires Agrees(fs) && AllowedRun(fs, rs)
    ensures var (after, replies) := RunAll(fs, rs);
      Agrees(after) && MeantRun(fs.objects, rs, after.objects, replies)
    decreases |rs|
  {
    if rs != [] {
      HandleRefines(fs, rs[0]);
      var (next, reply) := Handle(fs, rs[0]);
      RunRefines(next, rs[1..]);
      var (after, replies) := RunAll(fs, rs);
      assert replies[1..] == RunAll(next, rs[1..]).1;
      assert Meant(fs.objects, rs[0], next.objects, replies[0]);
    }
  }
}
