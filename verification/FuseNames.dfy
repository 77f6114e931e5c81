/** The name caches of fuse/fuse.cpp as values: what every request does to them and why they
    keep agreeing with the device. */
module FuseNames {
  import opened Bytes
  import opened Results
  import opened MtpStrings

  type Inode = nat
  type ObjectId = u32
  type Name = bytes

  // -- Inodes ----------------------------------------------------------------

  const ROOT: Inode := 1
  const STORAGE_SHIFT: nat := ROOT + 1
  const OBJECT_SHIFT: nat := 999998 + STORAGE_SHIFT

  function ToFuse(id: ObjectId): Inode {
    id + OBJECT_SHIFT
  }

  /** 64-bit subtraction cut to 32 bits. */
  function FromFuse(inode: Inode): ObjectId {
    (inode - OBJECT_SHIFT) % 0x1_0000_0000
  }

  predicate IsStorage(inode: Inode) {
    STORAGE_SHIFT <= inode <= OBJECT_SHIFT
  }

  /** Inodes of objects, storages and the root never meet, null ids aside. */
  lemma InodesDistinct(id: ObjectId)
    ensures ToFuse(id) == id + 1_000_000 && FromFuse(ToFuse(id)) == id
    ensures !IsStorage(ToFuse(id)) && ToFuse(id) != 1 <==> id != 0
    ensures forall inode: Inode :: IsStorage(inode) <==> 2 <= inode <= 1_000_000
  {
  }

  // -- The device ------------------------------------------------------------

  /** An object: the directory it is in (a storage or another object), its name as the host reads it,
      its kind. */
  datatype Node = Node(parent: Inode, name: Name, isDir: bool)

  type Objects = map<ObjectId, Node>

  ghost predicate UniqueNames(objects: Objects) {
    forall a, b | a in objects && b in objects
        && objects[a].parent == objects[b].parent && objects[a].name == objects[b].name :: a == b
  }

  predicate IsDirectory(objects: Objects, p: Inode) {
    IsStorage(p) || (FromFuse(p) in objects && p == ToFuse(FromFuse(p)) && objects[FromFuse(p)].isDir)
  }

  /** Nesting is well founded. */
  ghost predicate Ranked(objects: Objects, rank: map<ObjectId, nat>) {
    && objects.Keys <= rank.Keys
    && forall id | id in objects && !IsStorage(objects[id].parent) ::
         FromFuse(objects[id].parent) in rank && rank[FromFuse(objects[id].parent)] < rank[id]
  }

  ghost predicate DeviceOk(objects: Objects) {
    && UniqueNames(objects)
    && (forall id | id in objects :: id != 0 && IsDirectory(objects, objects[id].parent))
    && (exists rank :: Ranked(objects, rank))
  }

  /** The children of a directory by name. */
  function Children(objects: Objects, p: Inode): (m: map<Name, Inode>)
    requires UniqueNames(objects)
    ensures IsChildren(objects, p, m)
  {
    ByNameIsRight(objects, p);
    ByName(objects, p)
  }

  function ByName(objects: Objects, p: Inode): map<Name, Inode>
    requires UniqueNames(objects)
  {
    map id | id in objects && objects[id].parent == p :: objects[id].name := ToFuse(id)
  }

  lemma ByNameIsRight(objects: Objects, p: Inode)
    requires UniqueNames(objects)
    ensures IsChildren(objects, p, ByName(objects, p))
  {
    var m := ByName(objects, p);
    forall id | id in objects && objects[id].parent == p
      ensures objects[id].name in m && m[objects[id].name] == ToFuse(id)
    {
    }
  }

  ghost predicate IsChildren(objects: Objects, p: Inode, m: map<Name, Inode>) {
    && (forall id | id in objects && objects[id].parent == p ::
          objects[id].name in m && m[objects[id].name] == ToFuse(id))
    && (forall name | name in m :: IsChild(objects, p, name, m[name]))
  }

  predicate IsChild(objects: Objects, p: Inode, name: Name, inode: Inode) {
    && FromFuse(inode) in objects && ToFuse(FromFuse(inode)) == inode
    && objects[FromFuse(inode)].parent == p && objects[FromFuse(inode)].name == name
  }

  lemma ChildrenUnique(objects: Objects, p: Inode, a: map<Name, Inode>, b: map<Name, Inode>)
    requires IsChildren(objects, p, a) && IsChildren(objects, p, b)
    ensures a == b
  {
    forall name | name in a
      ensures name in b && a[name] == b[name]
    {
      assert IsChild(objects, p, name, a[name]);
    }
    forall name | name in b
      ensures name in a
    {
      assert IsChild(objects, p, name, b[name]);
    }
  }

  // -- Deletion --------------------------------------------------------------

  /** A set of objects that contains everything inside its members. */
  ghost predicate Closed(objects: Objects, s: set<ObjectId>) {
    forall id | id in objects && !IsStorage(objects[id].parent) && FromFuse(objects[id].parent) in s :: id in s
  }

  /** The object with everything beneath it: what deleting it removes. */
  ghost predicate IsSubtree(objects: Objects, id: ObjectId, gone: set<ObjectId>) {
    && id in gone && Closed(objects, gone)
    && forall s: set<ObjectId> | id in s && Closed(objects, s) :: gone <= s
  }

  lemma SubtreeParents(objects: Objects, id: ObjectId, gone: set<ObjectId>, c: ObjectId)
    requires IsSubtree(objects, id, gone) && c in gone && c != id && c in objects
    ensures !IsStorage(objects[c].parent) && FromFuse(objects[c].parent) in gone
  {
    if IsStorage(objects[c].parent) || FromFuse(objects[c].parent) !in gone {
      assert Closed(objects, gone - {c});
    }
  }

  /** An object without children is deleted alone. */
  lemma SubtreeOfLeaf(objects: Objects, id: ObjectId, gone: set<ObjectId>)
    requires IsSubtree(objects, id, gone) && UniqueNames(objects) && Children(objects, ToFuse(id)) == map[]
    requires forall c | c in objects :: IsDirectory(objects, objects[c].parent)
    ensures gone == {id}
  {
    assert IsChildren(objects, ToFuse(id), map[]);
    forall c | c in objects
      ensures !IsStorage(objects[c].parent) ==> FromFuse(objects[c].parent) != id
    {
      assert IsDirectory(objects, objects[c].parent);
    }
    assert Closed(objects, {id});
  }

  lemma SubtreeRanks(objects: Objects, id: ObjectId, gone: set<ObjectId>, rank: map<ObjectId, nat>)
    requires Ranked(objects, rank) && id in objects && IsSubtree(objects, id, gone)
    ensures forall x | x in gone && x in rank :: rank[x] >= rank[id]
  {
    var s := set x | x in gone && (x in rank ==> rank[x] >= rank[id]);
    forall c | c in objects && !IsStorage(objects[c].parent) && FromFuse(objects[c].parent) in s
      ensures c in s
    {
    }
    assert Closed(objects, s);
  }

  /** The directory of a deleted object survives, and so do its siblings. */
  lemma ParentSurvives(objects: Objects, id: ObjectId, gone: set<ObjectId>)
    requires DeviceOk(objects) && id in objects && IsSubtree(objects, id, gone) && !IsStorage(objects[id].parent)
    ensures FromFuse(objects[id].parent) !in gone
  {
    var rank :| Ranked(objects, rank);
    SubtreeRanks(objects, id, gone, rank);
  }

  lemma SubtreeExists(objects: Objects, id: ObjectId, gone: set<ObjectId>)
    requires id in objects && IsSubtree(objects, id, gone)
    ensures gone <= objects.Keys
  {
    assert Closed(objects, objects.Keys);
  }

  // -- The caches ------------------------------------------------------------

  /** A serialised directory entry. */
  datatype Entry = Entry(name: Name, inode: Inode)

  datatype Fs = Fs(
    objects: Objects,
    files: map<Inode, map<Name, Inode>>,     // _files
    attrs: map<ObjectId, bool>,              // _objectAttrs, the directory bit
    dirs: map<Inode, seq<Entry>>)            // _directoryCache

  function ParentOf(objects: Objects, p: Inode): Inode {
    if IsStorage(p) || FromFuse(p) !in objects then ROOT else objects[FromFuse(p)].parent
  }

  const DOT: Name := [0x2e]
  const DOT_DOT: Name := [0x2e, 0x2e]

  /** "." (with the root's inode, as the code has it), "..", and one entry a child. */
  ghost predicate IsListing(l: seq<Entry>, parent: Inode, children: map<Name, Inode>) {
    && |l| >= 2 && l[0] == Entry([0x2e], 1) && l[1] == Entry([0x2e, 0x2e], parent)
    && (forall i, j | 2 <= i < j < |l| :: l[i].name != l[j].name)
    && (forall i | 2 <= i < |l| :: l[i].name in children && l[i].inode == children[l[i].name])
    && (forall name | name in children :: Shows(l, name))
  }

  predicate Shows(l: seq<Entry>, name: Name) {
    exists i | 2 <= i < |l| :: l[i].name == name
  }

  ghost predicate FilesAgree(fs: Fs) {
    forall p | p in fs.files && p != ROOT :: IsChildren(fs.objects, p, fs.files[p])
  }

  /** A cached listing belongs to a populated directory and shows exactly its children. */
  ghost predicate DirAgrees(fs: Fs, p: Inode)
    requires p in fs.dirs
  {
    && p in fs.files && |fs.dirs[p]| >= 2
    && IsListing(fs.dirs[p], fs.dirs[p][1].inode, fs.files[p])
    && (IsDirectory(fs.objects, p) ==> fs.dirs[p][1].inode == ParentOf(fs.objects, p))
  }

  ghost predicate DirsAgree(fs: Fs) {
    forall p | p in fs.dirs && p != ROOT :: DirAgrees(fs, p)
  }

  ghost predicate AttrsAgree(fs: Fs) {
    && (forall id | id in fs.attrs && id in fs.objects :: fs.attrs[id] == fs.objects[id].isDir)
    && (forall id | id in fs.objects && fs.objects[id].parent in fs.files && fs.objects[id].parent != ROOT ::
          id in fs.attrs)
  }

  /** Every populated name map below the root equals the device's, every cached listing shows
      exactly those names, and the kinds of all names shown are known. */
  ghost predicate Agrees(fs: Fs) {
    DeviceOk(fs.objects) && FilesAgree(fs) && DirsAgree(fs) && AttrsAgree(fs)
  }

  // -- What requests do ------------------------------------------------------

  function KindsOf(objects: Objects, p: Inode): map<ObjectId, bool> {
    map id | id in objects && objects[id].parent == p :: objects[id].isDir
  }

  /** GetChildren below the root. */
  function Populate(fs: Fs, p: Inode): (r: Fs)
    requires UniqueNames(fs.objects)
    ensures r.objects == fs.objects && r.dirs == fs.dirs && p in r.files
    ensures forall q | q in fs.files :: q in r.files && r.files[q] == fs.files[q]
  {
    if p in fs.files then fs
    else fs.(files := fs.files[p := Children(fs.objects, p)], attrs := fs.attrs + KindsOf(fs.objects, p))
  }

  /** GetObjectAttr of an existing inode: an unknown kind populates the parent. */
  function WithAttr(fs: Fs, inode: Inode): (r: Fs)
    requires UniqueNames(fs.objects)
    ensures r.objects == fs.objects && r.dirs == fs.dirs
    ensures forall q | q in fs.files :: q in r.files && r.files[q] == fs.files[q]
  {
    if inode == ROOT || IsStorage(inode) || FromFuse(inode) in fs.attrs || FromFuse(inode) !in fs.objects then fs
    else Populate(fs, fs.objects[FromFuse(inode)].parent)
  }

  /** The kind the caches show: is it a directory? */
  function KindOf(fs: Fs, inode: Inode): Option<bool> {
    if inode == ROOT || IsStorage(inode) then Some(true)
    else if FromFuse(inode) in fs.attrs then Some(fs.attrs[FromFuse(inode)])
    else None
  }

  /** ReadDir, with the listing it serialises if none is cached. */
  function ReadDir(fs: Fs, p: Inode, listing: seq<Entry>): (r: Fs)
    requires UniqueNames(fs.objects)
    ensures r.objects == fs.objects && p in r.dirs
  {
    var known := WithAttr(fs, p);
    if p in fs.dirs then known
    else
      var shown := WithAttr(Populate(known, p), ParentOf(fs.objects, p));
      shown.(dirs := shown.dirs[p := listing])
  }

  /** CreateObject, name being what the device keeps: the new object is on the device, in its directory's names if these were
      loaded, and asking for its attributes loads them otherwise. */
  function Create(fs: Fs, p: Inode, name: Name, isDir: bool, id: ObjectId): (r: Fs)
    requires UniqueNames(fs.objects[id := Node(p, name, isDir)])
    ensures r.objects == fs.objects[id := Node(p, name, isDir)]
  {
    var made := fs.(objects := fs.objects[id := Node(p, name, isDir)], dirs := fs.dirs - {p});
    if p in fs.files
    then made.(files := fs.files[p := Emplace(fs.files[p], name, ToFuse(id))], attrs := fs.attrs[id := isDir])
    else WithAttr(made, ToFuse(id))
  }

  /** std::map::emplace keeps an existing entry. */
  function Emplace(m: map<Name, Inode>, name: Name, inode: Inode): map<Name, Inode> {
    if name in m then m else m[name := inode]
  }

  /** UnlinkImpl, gone being the subtree the device drops. */
  function Drop(fs: Fs, id: ObjectId, gone: set<ObjectId>): Fs {
    fs.(objects := fs.objects - gone, attrs := fs.attrs - {id})
  }

  /** Unlink and RemoveDir of a name that exists and is not a populated directory. */
  function Unlink(fs: Fs, p: Inode, name: Name, gone: set<ObjectId>): Fs
    requires p in fs.files && name in fs.files[p]
  {
    var dropped := Drop(fs, FromFuse(fs.files[p][name]), gone);
    dropped.(files := fs.files[p := fs.files[p] - {name}], dirs := fs.dirs - {p})
  }

  /** Rename within a directory; an existing target is unlinked first, whatever it is. The device
      keeps `stored` of the new name, the cache the name as given. */
  function Rename(fs: Fs, p: Inode, name: Name, newName: Name, gone: set<ObjectId>, stored: Name): Fs
    requires p in fs.files && name in fs.files[p]
  {
    var inode := fs.files[p][name];
    var without := if newName in fs.files[p]
                   then Drop(fs, FromFuse(fs.files[p][newName]), gone) else fs;
    without.(objects := Renamed(without.objects, FromFuse(inode), stored),
             files := fs.files[p := (fs.files[p] - {newName} - {name})[newName := inode]],
             dirs := fs.dirs - {p})
  }

  function Renamed(objects: Objects, id: ObjectId, name: Name): Objects {
    if id in objects then objects[id := objects[id].(name := name)] else objects
  }

  // -- Why they agree --------------------------------------------------------

  lemma PopulateFilesAgree(fs: Fs, p: Inode)
    requires UniqueNames(fs.objects) && FilesAgree(fs) && p != ROOT
    ensures FilesAgree(Populate(fs, p)) && IsChildren(fs.objects, p, Populate(fs, p).files[p])
  {
  }

  lemma PopulateDirsAgree(fs: Fs, p: Inode)
    requires UniqueNames(fs.objects) && DirsAgree(fs)
    ensures DirsAgree(Populate(fs, p))
  {
    forall q | q in fs.dirs && q != ROOT
      ensures DirAgrees(Populate(fs, p), q)
    {
      assert DirAgrees(fs, q);
    }
  }

  lemma PopulateAttrsAgree(fs: Fs, p: Inode)
    requires UniqueNames(fs.objects) && AttrsAgree(fs)
    ensures AttrsAgree(Populate(fs, p))
  {
  }

  lemma PopulateAgrees(fs: Fs, p: Inode)
    requires Agrees(fs) && p != ROOT
    ensures Agrees(Populate(fs, p))
    ensures IsChildren(fs.objects, p, Populate(fs, p).files[p])
  {
    PopulateFilesAgree(fs, p);
    PopulateDirsAgree(fs, p);
    PopulateAttrsAgree(fs, p);
  }

  lemma WithAttrAgrees(fs: Fs, inode: Inode)
    requires Agrees(fs)
    ensures Agrees(WithAttr(fs, inode))
    ensures WithAttr(fs, inode).objects == fs.objects && WithAttr(fs, inode).dirs == fs.dirs
    ensures fs.files.Keys <= WithAttr(fs, inode).files.Keys
  {
    var id := FromFuse(inode);
    if id in fs.objects {
      assert IsDirectory(fs.objects, fs.objects[id].parent);
      PopulateAgrees(fs, fs.objects[id].parent);
    }
  }

  /** Asked for the kind of an inode the caches end up with the device's: true for the root and for
      storages, that of the object, and nothing for an object that neither has. */
  lemma KindIsRight(fs: Fs, inode: Inode)
    requires Agrees(fs)
    ensures var id, kind := FromFuse(inode), KindOf(WithAttr(fs, inode), inode);
      if inode == 1 || IsStorage(inode) then kind == Some(true)
      else if id in fs.objects then kind == Some(fs.objects[id].isDir)
      else id !in fs.attrs ==> kind == None
  {
    WithAttrAgrees(fs, inode);
    var id := FromFuse(inode);
    if id in fs.objects {
      assert IsDirectory(fs.objects, fs.objects[id].parent);
    }
  }

  lemma ReadDirAgrees(fs: Fs, p: Inode, listing: seq<Entry>)
    requires Agrees(fs) && p != ROOT && IsDirectory(fs.objects, p)
    requires IsListing(listing, ParentOf(fs.objects, p), Children(fs.objects, p))
    ensures Agrees(ReadDir(fs, p, listing))
  {
    WithAttrAgrees(fs, p);
    if p !in fs.dirs {
      var known := WithAttr(fs, p);
      PopulateAgrees(known, p);
      var populated := Populate(known, p);
      WithAttrAgrees(populated, ParentOf(fs.objects, p));
      var shown := WithAttr(populated, ParentOf(fs.objects, p));
      ChildrenUnique(fs.objects, p, shown.files[p], Children(fs.objects, p));
      var after := ReadDir(fs, p, listing);
      forall q | q in after.dirs && q != ROOT
        ensures DirAgrees(after, q)
      {
        if q != p {
          assert DirAgrees(shown, q);
        }
      }
    }
  }

  /** An id never used before. */
  ghost predicate Unused(fs: Fs, id: ObjectId) {
    id != 0 && id !in fs.objects && id !in fs.attrs && ToFuse(id) !in fs.files && ToFuse(id) !in fs.dirs
  }

  lemma CreatedDeviceOk(objects: Objects, p: Inode, name: Name, isDir: bool, id: ObjectId)
    requires DeviceOk(objects) && IsDirectory(objects, p) && id != 0 && id !in objects
    requires name !in Children(objects, p)
    ensures DeviceOk(objects[id := Node(p, name, isDir)])
  {
    var after := objects[id := Node(p, name, isDir)];
    var rank :| Ranked(objects, rank);
    var above := if IsStorage(p) then 0 else rank[FromFuse(p)] + 1;
    assert Ranked(after, rank[id := above]);
    forall c | c in after
      ensures c != 0 && IsDirectory(after, after[c].parent)
    {
      assert IsDirectory(objects, after[c].parent);
    }
  }

  lemma ChildrenAfterCreate(objects: Objects, p: Inode, name: Name, isDir: bool, id: ObjectId, q: Inode, m: map<Name, Inode>)
    requires id !in objects && IsChildren(objects, q, m) && (q == p ==> name !in m)
    ensures IsChildren(objects[id := Node(p, name, isDir)], q, if q == p then m[name := ToFuse(id)] else m)
  {
    var after := objects[id := Node(p, name, isDir)];
    var now := if q == p then m[name := ToFuse(id)] else m;
    forall n | n in now
      ensures IsChild(after, q, n, now[n])
    {
      if q != p || n != name {
        assert IsChild(objects, q, n, m[n]);
      }
    }
  }

  lemma CreateFilesAgree(fs: Fs, p: Inode, name: Name, isDir: bool, id: ObjectId)
    requires FilesAgree(fs) && id !in fs.objects && p != ROOT && (p in fs.files ==> name !in fs.files[p])
    ensures var files := if p in fs.files then fs.files[p := Emplace(fs.files[p], name, ToFuse(id))] else fs.files;
      FilesAgree(fs.(objects := fs.objects[id := Node(p, name, isDir)], files := files))
  {
    forall q | q in fs.files && q != ROOT
      ensures IsChildren(fs.objects[id := Node(p, name, isDir)], q,
                         if q == p then fs.files[q][name := ToFuse(id)] else fs.files[q])
    {
      ChildrenAfterCreate(fs.objects, p, name, isDir, id, q, fs.files[q]);
    }
  }

  lemma CreateRestAgrees(fs: Fs, p: Inode, name: Name, isDir: bool, id: ObjectId)
    requires DirsAgree(fs) && AttrsAgree(fs) && Unused(fs, id)
    ensures var objects := fs.objects[id := Node(p, name, isDir)];
      if p in fs.files then
        var files := fs.files[p := Emplace(fs.files[p], name, ToFuse(id))];
        var after := Fs(objects, files, fs.attrs[id := isDir], fs.dirs - {p});
        DirsAgree(after) && AttrsAgree(after)
      else
        var made := fs.(objects := objects, dirs := fs.dirs - {p});
        DirsAgree(made) && AttrsAgree(made)
  {
    var objects := fs.objects[id := Node(p, name, isDir)];
    assert PlacesKept(fs, objects);
    if p in fs.files {
      var files := fs.files[p := Emplace(fs.files[p], name, ToFuse(id))];
      OtherDirsAgree(fs, Fs(objects, files, fs.attrs[id := isDir], fs.dirs - {p}), p);
    } else {
      OtherDirsAgree(fs, fs.(objects := objects, dirs := fs.dirs - {p}), p);
    }
  }

  lemma CreateAgrees(fs: Fs, p: Inode, name: Name, isDir: bool, id: ObjectId)
    requires Agrees(fs) && p != ROOT && IsDirectory(fs.objects, p)
    requires Unused(fs, id) && name !in Children(fs.objects, p)
    ensures UniqueNames(fs.objects[id := Node(p, name, isDir)])
    ensures Agrees(Create(fs, p, name, isDir, id))
  {
    CreatedDeviceOk(fs.objects, p, name, isDir, id);
    if p in fs.files {
      ChildrenUnique(fs.objects, p, fs.files[p], Children(fs.objects, p));
    }
    CreateFilesAgree(fs, p, name, isDir, id);
    CreateRestAgrees(fs, p, name, isDir, id);
    if p !in fs.files {
      WithAttrAgrees(fs.(objects := fs.objects[id := Node(p, name, isDir)], dirs := fs.dirs - {p}), ToFuse(id));
    }
  }

  /** Listings of other directories stay right as long as their names and places do. */
  lemma OtherDirsAgree(fs: Fs, after: Fs, p: Inode)
    requires DirsAgree(fs) && after.dirs == fs.dirs - {p}
    requires forall q | q in fs.files && q != p :: q in after.files && after.files[q] == fs.files[q]
    requires PlacesKept(fs, after.objects)
    ensures DirsAgree(after)
  {
    forall q | q in after.dirs && q != ROOT
      ensures DirAgrees(after, q)
    {
      assert DirAgrees(fs, q);
    }
  }

  /** No object with a cached listing appears, moves or changes kind. */
  ghost predicate PlacesKept(fs: Fs, objects: Objects) {
    forall id | id in objects && ToFuse(id) in fs.dirs ::
      && id in fs.objects
      && objects[id].parent == fs.objects[id].parent && objects[id].isDir == fs.objects[id].isDir
  }

  lemma DroppedDeviceOk(objects: Objects, gone: set<ObjectId>)
    requires DeviceOk(objects) && Closed(objects, gone)
    ensures DeviceOk(objects - gone)
  {
    var rank :| Ranked(objects, rank);
    assert Ranked(objects - gone, rank);
    forall c | c in objects - gone
      ensures IsDirectory(objects - gone, objects[c].parent)
    {
      assert IsDirectory(objects, objects[c].parent);
    }
  }

  /** A directory's names after a deletion that takes at most one of its children. */
  lemma ChildrenAfterDelete(objects: Objects, gone: set<ObjectId>, q: Inode, m: map<Name, Inode>, lost: set<Name>)
    requires IsChildren(objects, q, m)
    requires forall c | c in objects && objects[c].parent == q :: c in gone <==> objects[c].name in lost
    ensures IsChildren(objects - gone, q, m - lost)
  {
    forall n | n in m - lost
      ensures IsChild(objects - gone, q, n, (m - lost)[n])
    {
      assert IsChild(objects, q, n, m[n]);
    }
  }

  /** No populated directory is non-empty among the objects about to go. */
  ghost predicate QuietBelow(fs: Fs, gone: set<ObjectId>) {
    forall q | q in fs.files && q == ToFuse(FromFuse(q)) && FromFuse(q) in gone :: fs.files[q] == map[]
  }

  /** A deletion of the child called name takes that child and no other populated name. */
  lemma DeletedNames(fs: Fs, p: Inode, name: Name, gone: set<ObjectId>, q: Inode)
    requires DeviceOk(fs.objects) && FilesAgree(fs) && QuietBelow(fs, gone)
    requires p in fs.files && p != ROOT && name in fs.files[p] && q in fs.files && q != ROOT
    requires IsSubtree(fs.objects, FromFuse(fs.files[p][name]), gone)
    ensures IsChildren(fs.objects - gone, q, if q == p then fs.files[q] - {name} else fs.files[q])
  {
    hide UniqueNames;
    var id := FromFuse(fs.files[p][name]);
    assert IsChild(fs.objects, p, name, fs.files[p][name]);
    var lost := if q == p then {name} else {};
    forall c | c in fs.objects && fs.objects[c].parent == q
      ensures c in gone <==> fs.objects[c].name in lost
    {
      assert fs.objects[c].name in fs.files[q];
      assert IsDirectory(fs.objects, fs.objects[c].parent);
      if c in gone && c != id {
        SubtreeParents(fs.objects, id, gone, c);
      }
    }
    ChildrenAfterDelete(fs.objects, gone, q, fs.files[q], lost);
    assert q != p ==> fs.files[q] - lost == fs.files[q];
  }

  lemma UnlinkFilesAgree(fs: Fs, p: Inode, name: Name, gone: set<ObjectId>)
    requires Agrees(fs) && p != ROOT && p in fs.files && name in fs.files[p]
    requires IsSubtree(fs.objects, FromFuse(fs.files[p][name]), gone) && QuietBelow(fs, gone)
    ensures FilesAgree(Unlink(fs, p, name, gone))
  {
    var after := Unlink(fs, p, name, gone);
    forall q | q in after.files && q != ROOT
      ensures IsChildren(after.objects, q, after.files[q])
    {
      DeletedNames(fs, p, name, gone, q);
    }
  }

  lemma UnlinkRestAgrees(fs: Fs, p: Inode, name: Name, gone: set<ObjectId>)
    requires DirsAgree(fs) && AttrsAgree(fs) && p in fs.files && name in fs.files[p]
    requires FromFuse(fs.files[p][name]) in gone
    ensures DirsAgree(Unlink(fs, p, name, gone)) && AttrsAgree(Unlink(fs, p, name, gone))
  {
    var after := Unlink(fs, p, name, gone);
    assert PlacesKept(fs, after.objects);
    OtherDirsAgree(fs, after, p);
    DropAttrsAgree(fs, FromFuse(fs.files[p][name]), gone);
  }

  lemma UnlinkAgrees(fs: Fs, p: Inode, name: Name, gone: set<ObjectId>)
    requires Agrees(fs) && p != ROOT && p in fs.files && name in fs.files[p]
    requires IsSubtree(fs.objects, FromFuse(fs.files[p][name]), gone) && QuietBelow(fs, gone)
    ensures Agrees(Unlink(fs, p, name, gone))
  {
    DroppedDeviceOk(fs.objects, gone);
    UnlinkFilesAgree(fs, p, name, gone);
    UnlinkRestAgrees(fs, p, name, gone);
  }

  lemma DropAttrsAgree(fs: Fs, id: ObjectId, gone: set<ObjectId>)
    requires AttrsAgree(fs) && id in gone
    ensures AttrsAgree(Drop(fs, id, gone))
  {
  }

  // -- Renaming --------------------------------------------------------------

  lemma RenamedDeviceOk(objects: Objects, id: ObjectId, name: Name)
    requires DeviceOk(objects) && id in objects && name !in Children(objects, objects[id].parent)
    ensures DeviceOk(Renamed(objects, id, name))
  {
    var after := Renamed(objects, id, name);
    var rank :| Ranked(objects, rank);
    assert Ranked(after, rank);
    forall c | c in after
      ensures IsDirectory(after, after[c].parent)
    {
      assert IsDirectory(objects, objects[c].parent);
    }
  }

  /** One name of a directory changes; every other directory keeps its names. */
  lemma ChildrenAfterRename(objects: Objects, id: ObjectId, name: Name, q: Inode, m: map<Name, Inode>)
    requires UniqueNames(objects) && id in objects && IsChildren(objects, q, m)
    requires name != objects[id].name && (q == objects[id].parent ==> name !in m)
    ensures IsChildren(Renamed(objects, id, name), q,
                       if q == objects[id].parent then (m - {objects[id].name})[name := ToFuse(id)] else m)
  {
    var after := Renamed(objects, id, name);
    var p := objects[id].parent;
    var now := if q == p then (m - {objects[id].name})[name := ToFuse(id)] else m;
    forall n | n in now
      ensures IsChild(after, q, n, now[n])
    {
      if q != p || n != name {
        assert IsChild(objects, q, n, m[n]);
        assert q == p ==> FromFuse(m[n]) != id;
      }
    }
  }

  /** A rename without a target. */
  function RenameFree(fs: Fs, p: Inode, name: Name, newName: Name): Fs
    requires p in fs.files && name in fs.files[p]
  {
    var inode := fs.files[p][name];
    fs.(objects := Renamed(fs.objects, FromFuse(inode), newName),
        files := fs.files[p := (fs.files[p] - {name})[newName := inode]],
        dirs := fs.dirs - {p})
  }

  lemma RenameFreeFilesAgree(fs: Fs, p: Inode, name: Name, newName: Name)
    requires Agrees(fs) && p != ROOT && p in fs.files && name in fs.files[p] && newName !in fs.files[p]
    ensures FilesAgree(RenameFree(fs, p, name, newName))
  {
    var id := FromFuse(fs.files[p][name]);
    assert IsChild(fs.objects, p, name, fs.files[p][name]);
    forall q | q in fs.files && q != ROOT
      ensures IsChildren(Renamed(fs.objects, id, newName), q, RenameFree(fs, p, name, newName).files[q])
    {
      ChildrenAfterRename(fs.objects, id, newName, q, fs.files[q]);
    }
  }

  lemma RenameFreeRestAgrees(fs: Fs, p: Inode, name: Name, newName: Name)
    requires DirsAgree(fs) && AttrsAgree(fs)
    requires p in fs.files && name in fs.files[p] && FromFuse(fs.files[p][name]) in fs.objects
    ensures DirsAgree(RenameFree(fs, p, name, newName)) && AttrsAgree(RenameFree(fs, p, name, newName))
  {
    var after := RenameFree(fs, p, name, newName);
    assert PlacesKept(fs, after.objects);
    OtherDirsAgree(fs, after, p);
  }

  lemma RenameFreeAgrees(fs: Fs, p: Inode, name: Name, newName: Name)
    requires Agrees(fs) && p != ROOT && p in fs.files && name in fs.files[p] && newName !in fs.files[p]
    ensures Agrees(RenameFree(fs, p, name, newName))
  {
    assert IsChild(fs.objects, p, name, fs.files[p][name]);
    ChildrenUnique(fs.objects, p, fs.files[p], Children(fs.objects, p));
    RenamedDeviceOk(fs.objects, FromFuse(fs.files[p][name]), newName);
    RenameFreeFilesAgree(fs, p, name, newName);
    RenameFreeRestAgrees(fs, p, name, newName);
  }

  /** Renaming onto an existing name is unlinking that name, then renaming. */
  lemma RenameInTwoSteps(fs: Fs, p: Inode, name: Name, newName: Name, gone: set<ObjectId>)
    requires p in fs.files && name in fs.files[p] && newName in fs.files[p] && name != newName
    ensures var mid := Unlink(fs, p, newName, gone);
      name in mid.files[p] && Rename(fs, p, name, newName, gone, newName) == RenameFree(mid, p, name, newName)
  {
    var mid := Unlink(fs, p, newName, gone);
    var after, two := Rename(fs, p, name, newName, gone, newName), RenameFree(mid, p, name, newName);
    assert after.dirs == two.dirs;
    assert after.files == two.files;
  }

  lemma GoneDirectoryIsElsewhere(fs: Fs, p: Inode, name: Name, gone: set<ObjectId>, q: Inode)
    requires DeviceOk(fs.objects) && p in fs.files && name in fs.files[p]
    requires IsChild(fs.objects, p, name, fs.files[p][name]) && IsSubtree(fs.objects, FromFuse(fs.files[p][name]), gone)
    requires q == ToFuse(FromFuse(q)) && FromFuse(q) in gone
    ensures q != p && q != ROOT && !IsStorage(q)
  {
    var id := FromFuse(fs.files[p][name]);
    SubtreeExists(fs.objects, id, gone);
    if !IsStorage(p) {
      ParentSurvives(fs.objects, id, gone);
    }
  }

  /** The directory replaced by a rename keeps its names in the cache, though the device has
      dropped them. */
  lemma LoudRenameDisagrees(fs: Fs, p: Inode, name: Name, newName: Name, gone: set<ObjectId>, stored: Name)
    requires Agrees(fs) && p != ROOT && p in fs.files && name in fs.files[p] && newName in fs.files[p] && name != newName
    requires IsSubtree(fs.objects, FromFuse(fs.files[p][newName]), gone) && !QuietBelow(fs, gone)
    ensures !FilesAgree(Rename(fs, p, name, newName, gone, stored))
  {
    var q :| q in fs.files && q == ToFuse(FromFuse(q)) && FromFuse(q) in gone && fs.files[q] != map[];
    assert IsChild(fs.objects, p, newName, fs.files[p][newName]);
    GoneDirectoryIsElsewhere(fs, p, newName, gone, q);
    RenameFrame(fs, p, name, newName, gone, stored, q);
    NamesGone(fs, gone, q, Rename(fs, p, name, newName, gone, stored));
  }

  lemma RenameFrame(fs: Fs, p: Inode, name: Name, newName: Name, gone: set<ObjectId>, stored: Name, q: Inode)
    requires p in fs.files && name in fs.files[p] && newName in fs.files[p] && q in fs.files && q != p
    ensures var after := Rename(fs, p, name, newName, gone, stored);
      q in after.files && after.files[q] == fs.files[q] && after.objects.Keys !! gone
  {
  }

  /** A populated directory that went with its names and stays in the cache. */
  lemma NamesGone(fs: Fs, gone: set<ObjectId>, q: Inode, after: Fs)
    requires FilesAgree(fs) && Closed(fs.objects, gone) && q in fs.files && q != ROOT && !IsStorage(q)
    requires FromFuse(q) in gone && fs.files[q] != map[]
    requires q in after.files && after.files[q] == fs.files[q] && after.objects.Keys !! gone
    ensures !FilesAgree(after)
  {
    var n :| n in fs.files[q];
    assert IsChild(fs.objects, q, n, fs.files[q][n]);
    assert FromFuse(fs.files[q][n]) in gone;
    assert !IsChild(after.objects, q, n, after.files[q][n]);
  }

  /** The target of a rename does not take the object to rename with it. */
  lemma SourceSurvives(fs: Fs, p: Inode, name: Name, newName: Name, gone: set<ObjectId>)
    requires Agrees(fs) && p != ROOT && p in fs.files && name in fs.files[p] && name != newName
    requires newName in fs.files[p] ==> IsSubtree(fs.objects, FromFuse(fs.files[p][newName]), gone) && QuietBelow(fs, gone)
    ensures FromFuse(fs.files[p][name]) in fs.objects
    ensures newName in fs.files[p] ==> FromFuse(fs.files[p][name]) !in gone
  {
    assert IsChild(fs.objects, p, name, fs.files[p][name]);
    if newName in fs.files[p] {
      var after := Unlink(fs, p, newName, gone);
      UnlinkAgrees(fs, p, newName, gone);
      assert IsChild(after.objects, p, name, after.files[p][name]);
    }
  }

  /** The cache shows the new name and the device has another. */
  lemma ChangedNameDisagrees(fs: Fs, p: Inode, name: Name, newName: Name, gone: set<ObjectId>, stored: Name)
    requires p in fs.files && name in fs.files[p] && p != ROOT && stored != newName
    requires FromFuse(fs.files[p][name]) in fs.objects && (newName in fs.files[p] ==> FromFuse(fs.files[p][name]) !in gone)
    ensures !FilesAgree(Rename(fs, p, name, newName, gone, stored))
  {
    var after := Rename(fs, p, name, newName, gone, stored);
    assert !IsChild(after.objects, p, newName, after.files[p][newName]);
  }

  lemma RenameKeepsAgreeing(fs: Fs, p: Inode, name: Name, newName: Name, gone: set<ObjectId>)
    requires Agrees(fs) && p != ROOT && p in fs.files && name in fs.files[p] && name != newName
    requires newName in fs.files[p] ==> IsSubtree(fs.objects, FromFuse(fs.files[p][newName]), gone) && QuietBelow(fs, gone)
    ensures Agrees(Rename(fs, p, name, newName, gone, newName))
  {
    if newName !in fs.files[p] {
      assert fs.files[p] - {newName} == fs.files[p];
      assert Rename(fs, p, name, newName, gone, newName) == RenameFree(fs, p, name, newName);
      RenameFreeAgrees(fs, p, name, newName);
    } else {
      UnlinkAgrees(fs, p, newName, gone);
      RenameInTwoSteps(fs, p, name, newName, gone);
      RenameFreeAgrees(Unlink(fs, p, newName, gone), p, name, newName);
    }
  }

  /** Renaming within a directory keeps the caches right exactly when the new name survives the way
      to the device and back, and no populated directory that the replaced target takes with it
      shows any names. The code checks neither: it caches the name it was given, and deletes an
      existing target without asking whether it is an empty directory. */
  lemma RenameAgreesIff(fs: Fs, p: Inode, name: Name, newName: Name, gone: set<ObjectId>, stored: Name)
    requires Agrees(fs) && p != ROOT && p in fs.files && name in fs.files[p] && name != newName
    requires newName in fs.files[p] ==> IsSubtree(fs.objects, FromFuse(fs.files[p][newName]), gone)
    requires Stores(newName, Some(stored))
    ensures Agrees(Rename(fs, p, name, newName, gone, stored))
       <==> Portable(newName) && (newName in fs.files[p] ==> QuietBelow(fs, gone))
  {
    StoredAsSentIff(newName, stored);
    if newName in fs.files[p] && !QuietBelow(fs, gone) {
      LoudRenameDisagrees(fs, p, name, newName, gone, stored);
    } else if Portable(newName) {
      RenameKeepsAgreeing(fs, p, name, newName, gone);
    } else {
      SourceSurvives(fs, p, name, newName, gone);
      ChangedNameDisagrees(fs, p, name, newName, gone, stored);
    }
  }

  /** When a name cannot be given, the rest of the changes is not made: if the string is too big, if
      the device refuses it, or if the target of the rename took the object to rename with it, as
      renaming a name to itself does. */
  function RenameBroken(fs: Fs, p: Inode, newName: Name, gone: set<ObjectId>): Fs
    requires p in fs.files && newName in fs.files[p]
  {
    Drop(fs, FromFuse(fs.files[p][newName]), gone).(files := fs.files[p := fs.files[p] - {newName}])
  }

  lemma ListingStaysBehind(fs: Fs, p: Inode, name: Name, gone: set<ObjectId>)
    requires DirsAgree(fs) && p != ROOT && p in fs.dirs && p in fs.files && name in fs.files[p]
    ensures !DirsAgree(RenameBroken(fs, p, name, gone))
  {
    var after := RenameBroken(fs, p, name, gone);
    assert DirAgrees(fs, p) && Shows(fs.dirs[p], name);
    var i :| 2 <= i < |fs.dirs[p]| && fs.dirs[p][i].name == name;
    assert name !in after.files[p];
    assert !DirAgrees(after, p);
  }

  lemma LoudUnlinkDisagrees(fs: Fs, p: Inode, name: Name, gone: set<ObjectId>)
    requires Agrees(fs) && p != ROOT && p in fs.files && name in fs.files[p]
    requires IsSubtree(fs.objects, FromFuse(fs.files[p][name]), gone) && !QuietBelow(fs, gone)
    ensures !FilesAgree(RenameBroken(fs, p, name, gone))
  {
    var q :| q in fs.files && q == ToFuse(FromFuse(q)) && FromFuse(q) in gone && fs.files[q] != map[];
    assert IsChild(fs.objects, p, name, fs.files[p][name]);
    GoneDirectoryIsElsewhere(fs, p, name, gone, q);
    BrokenFrame(fs, p, name, gone, q);
    NamesGone(fs, gone, q, RenameBroken(fs, p, name, gone));
  }

  lemma BrokenFrame(fs: Fs, p: Inode, name: Name, gone: set<ObjectId>, q: Inode)
    requires p in fs.files && name in fs.files[p] && q in fs.files && q != p
    ensures var after := RenameBroken(fs, p, name, gone);
      q in after.files && after.files[q] == fs.files[q] && after.objects.Keys !! gone
  {
  }

  /** A rename that fails has deleted its target, the object itself if the name was its own. The
      caches stay right exactly when the directory was not listed and nothing that goes with the
      target shows names. */
  lemma BrokenRenameAgreesIff(fs: Fs, p: Inode, newName: Name, gone: set<ObjectId>)
    requires Agrees(fs) && p != ROOT && p in fs.files && newName in fs.files[p]
    requires IsSubtree(fs.objects, FromFuse(fs.files[p][newName]), gone)
    ensures FromFuse(fs.files[p][newName]) in fs.objects
    ensures FromFuse(fs.files[p][newName]) !in RenameBroken(fs, p, newName, gone).objects
    ensures Agrees(RenameBroken(fs, p, newName, gone)) <==> p !in fs.dirs && QuietBelow(fs, gone)
  {
    assert IsChild(fs.objects, p, newName, fs.files[p][newName]);
    if p in fs.dirs {
      ListingStaysBehind(fs, p, newName, gone);
    } else if QuietBelow(fs, gone) {
      assert fs.dirs - {p} == fs.dirs;
      UnlinkAgrees(fs, p, newName, gone);
    } else {
      LoudUnlinkDisagrees(fs, p, newName, gone);
    }
  }

  // Two directories of a storage, the second with a file in it and both listed.
  const NAME_A: Name := [0x61]
  const NAME_B: Name := [0x62]
  const NAME_C: Name := [0x63]
  const A: ObjectId := 1
  const B: ObjectId := 5
  const C: ObjectId := 7
  const TWO_DIRECTORIES: Objects :=
    map[A := Node(STORAGE_SHIFT, NAME_A, true), B := Node(STORAGE_SHIFT, NAME_B, true), C := Node(ToFuse(B), NAME_C, false)]
  const LISTED: map<Inode, map<Name, Inode>> :=
    map[STORAGE_SHIFT := map[NAME_A := ToFuse(A), NAME_B := ToFuse(B)], ToFuse(B) := map[NAME_C := ToFuse(C)]]

  lemma TwoDirectoriesOk()
    ensures DeviceOk(TWO_DIRECTORIES) && IsSubtree(TWO_DIRECTORIES, B, {B, C})
  {
    var rank: map<ObjectId, nat> := map[A := 0, B := 0, C := 1];
    assert Ranked(TWO_DIRECTORIES, rank);
    assert TWO_DIRECTORIES[C].parent == ToFuse(B);
    forall s: set<ObjectId> | B in s && Closed(TWO_DIRECTORIES, s)
      ensures {B, C} <= s
    {
      assert C in TWO_DIRECTORIES;
    }
  }

  lemma ListedOk()
    ensures IsChildren(TWO_DIRECTORIES, STORAGE_SHIFT, LISTED[STORAGE_SHIFT])
    ensures IsChildren(TWO_DIRECTORIES, ToFuse(B), LISTED[ToFuse(B)])
  {
    ListedInStorage();
    ListedInB();
  }

  lemma ListedInStorage()
    ensures IsChildren(TWO_DIRECTORIES, STORAGE_SHIFT, LISTED[STORAGE_SHIFT])
  {
  }

  lemma ListedInB()
    ensures IsChildren(TWO_DIRECTORIES, ToFuse(B), LISTED[ToFuse(B)])
  {
  }

  const KINDS: map<ObjectId, bool> := map[A := true, B := true, C := false]

  lemma ListedAgrees(fs: Fs)
    requires fs == Fs(TWO_DIRECTORIES, LISTED, KINDS, map[])
    ensures Agrees(fs)
  {
    TwoDirectoriesOk();
    ListedFiles(fs);
    ListedAttrs(fs);
  }

  lemma ListedFiles(fs: Fs)
    requires fs == Fs(TWO_DIRECTORIES, LISTED, KINDS, map[])
    ensures FilesAgree(fs)
  {
    ListedOk();
    assert fs.files.Keys == {STORAGE_SHIFT, ToFuse(B)};
  }

  lemma ListedAttrs(fs: Fs)
    requires fs == Fs(TWO_DIRECTORIES, LISTED, KINDS, map[])
    ensures AttrsAgree(fs)
  {
    assert TWO_DIRECTORIES.Keys == {A, B, C} == KINDS.Keys;
  }

  lemma ListedNames()
    ensures STORAGE_SHIFT in LISTED && NAME_A in LISTED[STORAGE_SHIFT] && NAME_B in LISTED[STORAGE_SHIFT]
    ensures FromFuse(LISTED[STORAGE_SHIFT][NAME_B]) == B
    ensures ToFuse(B) in LISTED && FromFuse(ToFuse(B)) == B && LISTED[ToFuse(B)] != map[]
  {
    assert NAME_C in LISTED[ToFuse(B)];
  }

  lemma PlainName()
    ensures Stores(NAME_B, Some(NAME_B))
  {
    assert NAME_B[1..] == [] && Utf8Length(NAME_B) == 1;
    RecodedIff(NAME_B);
  }

  const LATIN: Name := [0xff]

  lemma LatinName()
    ensures Stores(LATIN, Some([QUESTION_MARK])) && !Portable(LATIN)
  {
    assert LATIN[1..] == [] && Utf8Length(LATIN) == 1;
    assert Units(LATIN, 2) == [QUESTION_MARK];
    assert Recoded(LATIN) == Utf8Of(QUESTION_MARK) + Utf8([]);
    RecodedIff(LATIN);
  }

  lemma LatinNotListed()
    ensures STORAGE_SHIFT in LISTED && LATIN !in LISTED[STORAGE_SHIFT]
  {
    assert LATIN[0] != NAME_A[0] && LATIN[0] != NAME_B[0];
  }

  /** So renaming "a" over "b" leaves names the device no longer has. */
  lemma RenameCanDisagree(fs: Fs)
    requires fs == Fs(TWO_DIRECTORIES, LISTED, KINDS, map[])
    requires STORAGE_SHIFT in fs.files && NAME_A in fs.files[STORAGE_SHIFT]
    ensures Agrees(fs) && !Agrees(Rename(fs, STORAGE_SHIFT, NAME_A, NAME_B, {B, C}, NAME_B))
  {
    TwoDirectoriesOk();
    ListedAgrees(fs);
    ListedNames();
    PlainName();
    assert !QuietBelow(fs, {B, C});
    RenameAgreesIff(fs, STORAGE_SHIFT, NAME_A, NAME_B, {B, C}, NAME_B);
  }

  /** And renaming "a" to the byte 0xff, a character of Latin-1, leaves that in the cache where the
      device has a question mark. */
  lemma RenameCanChangeName(fs: Fs)
    requires fs == Fs(TWO_DIRECTORIES, LISTED, KINDS, map[])
    requires STORAGE_SHIFT in fs.files && NAME_A in fs.files[STORAGE_SHIFT]
    ensures Stores(LATIN, Some([QUESTION_MARK]))
    ensures Agrees(fs) && !Agrees(Rename(fs, STORAGE_SHIFT, NAME_A, LATIN, {}, [QUESTION_MARK]))
  {
    ListedAgrees(fs);
    LatinName();
    LatinNotListed();
    RenameAgreesIff(fs, STORAGE_SHIFT, NAME_A, LATIN, {}, [QUESTION_MARK]);
  }
}
