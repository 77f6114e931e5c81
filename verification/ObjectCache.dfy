/** The whole-object cache behind FuseWrapper::Read (fuse/fuse.cpp) for devices that cannot
    read parts of objects. */
module ObjectCache {
  import opened Bytes
  import opened Results
  import opened Sequences
  import opened FuseFiles

  /** ObjectCacheEntry. */
  datatype Entry = Entry(id: u32, data: bytes)

  type Contents = map<u32, bytes>

  ghost predicate Distinct(entries: seq<Entry>) {
    forall i, j | 0 <= i < j < |entries| :: entries[i].id != entries[j].id
  }

  /** Every entry is the object as it is on the device. */
  ghost predicate Current(entries: seq<Entry>, contents: Contents) {
    forall e | e in entries :: e.id in contents && e.data == contents[e.id]
  }

  function Ids(entries: seq<Entry>): seq<u32> {
    seq(|entries|, i requires 0 <= i < |entries| => entries[i].id)
  }

  /** The position of an object, or the length if it is not cached. */
  function Find(entries: seq<Entry>, id: u32): (n: nat)
    ensures n <= |entries| && (n < |entries| ==> entries[n].id == id)
    ensures forall i | 0 <= i < n :: entries[i].id != id
  {
    assert forall i | 0 <= i < |entries| :: Ids(entries)[i] == entries[i].id;
    FirstAt(Ids(entries), id)
  }

  predicate IsCached(entries: seq<Entry>, id: u32) {
    Find(entries, id) < |entries|
  }

  /** What the cache takes the object for. */
  function Known(entries: seq<Entry>, contents: Contents, id: u32): bytes
    requires id in contents
  {
    var n := Find(entries, id);
    if n < |entries| then entries[n].data else contents[id]
  }

  /** What a read gets; nothing for one that runs past the cached bytes, where the original
      copies from memory it does not own. */
  function Served(entries: seq<Entry>, contents: Contents, id: u32, begin: nat, n: nat): Option<bytes>
    requires id in contents
  {
    var known := Known(entries, contents, id);
    if begin + n <= |known| then Some(known[begin..begin + n]) else None
  }

  /** The entries after a read: a hit swaps with the front, a miss goes to the front and the
      last one leaves if there are too many. */
  function After(entries: seq<Entry>, id: u32, fetched: bytes, capacity: nat): seq<Entry> {
    var n := Find(entries, id);
    if n < |entries| then entries[0 := entries[n]][n := entries[0]]
    else
      var more := [Entry(id, fetched)] + entries;
      if |more| > capacity then more[..capacity] else more
  }

  class Cache {
    const capacity: nat
    var entries: seq<Entry>

    constructor (capacity: nat)
      ensures this.capacity == capacity && entries == []
    {
      this.capacity, entries := capacity, [];
    }

    ghost predicate Valid()
      reads this
    {
      |entries| <= capacity && Distinct(entries)
    }

    /** The branch of Read for whole objects; the device's objects are a parameter. The cache
        stays within its size with each object in it at most once, entries that were as on the
        device stay so, and with such entries the bytes are those of the device. */
    method Read(contents: Contents, id: u32, begin: nat, rsize: nat) returns (data: Option<bytes>)
      requires Valid() && id in contents && begin + rsize <= |contents[id]|
      modifies this
      ensures Valid() && entries == After(old(entries), id, contents[id], capacity)
      ensures data == Served(old(entries), contents, id, begin, rsize)
      ensures Current(old(entries), contents) ==>
        Current(entries, contents) && data == Some(contents[id][begin..begin + rsize])
    {
      var size := Search(id);
      AfterKeeps(entries, contents, id, capacity);
      if size < |entries| {
        assert entries[size] in entries;
        var known := entries[size].data;
        data := if begin + rsize <= |known| then Some(known[begin..begin + rsize]) else None;
        if size != 0 {
          entries := entries[0 := entries[size]][size := entries[0]];
        }
      } else {
        var object_ := contents[id];
        data := Some(object_[begin..begin + rsize]);
        entries := [Entry(id, object_)] + entries;
        Purge(size + 1);
      }
    }

    method Search(id: u32) returns (size: nat)
      ensures size == Find(entries, id)
    {
      size := 0;
      while size < |entries| && entries[size].id != id
        invariant 0 <= size <= |entries|
        invariant forall i | 0 <= i < size :: entries[i].id != id
      {
        size := size + 1;
      }
    }

    /** The last entries leave. */
    method Purge(count: nat)
      requires count == |entries|
      modifies this
      ensures entries == if count > capacity then old(entries)[..capacity] else old(entries)
    {
      var size := count;
      while size > capacity
        invariant 0 <= size == |entries| <= count && (size < count ==> size >= capacity)
        invariant entries == old(entries)[..size]
      {
        entries := entries[..|entries| - 1];
        size := size - 1;
      }
    }

    /** Reading an object, changing it and reading all of it: the second read gets the old bytes,
        so it is right if and only if the new contents begin the old ones. */
    method ReadChangeRead(contents: Contents, id: u32, change: Change) returns (data: Option<bytes>)
      requires Valid() && capacity > 0 && Current(entries, contents) && id in contents
      modifies this
      ensures var was, now := contents[id], Changed(contents[id], change);
        && data == (if |now| <= |was| then Some(was[..|now|]) else None)
        && (data == Some(now) <==> now <= was)
    {
      var _ := Read(contents, id, 0, 0);
      var now := Changed(contents[id], change);
      CachedNow(old(entries), id, contents[id], capacity);
      assert entries[Find(entries, id)] in entries;
      WholeServed(entries, contents[id := now], id);
      data := Read(contents[id := now], id, 0, |now|);
    }
  }

  lemma AfterKeeps(entries: seq<Entry>, contents: Contents, id: u32, capacity: nat)
    requires |entries| <= capacity && Distinct(entries) && id in contents
    ensures var after := After(entries, id, contents[id], capacity);
      |after| <= capacity && Distinct(after) && (Current(entries, contents) ==> Current(after, contents))
  {
    var n := Find(entries, id);
    if n < |entries| {
      assert entries[n] in entries && entries[0] in entries;
    }
  }

  /** The object read is in front, as it was known. A hit changes places with the entry that was
      there; a miss moves the others back, and only the last may leave, from a full cache. */
  lemma AfterMeaning(entries: seq<Entry>, id: u32, fetched: bytes, capacity: nat)
    requires |entries| <= capacity && Distinct(entries) && capacity > 0
    ensures var after := After(entries, id, fetched, capacity);
      && (forall i | 0 <= i < |entries| && entries[i].id == id ::
            && |after| == |entries| && after[0] == entries[i] && after[i] == entries[0]
            && forall j | 0 < j < |entries| && j != i :: after[j] == entries[j])
      && ((forall i | 0 <= i < |entries| :: entries[i].id != id) ==>
            && |after| == (if |entries| < capacity then |entries| + 1 else capacity)
            && after[0] == Entry(id, fetched) && forall j | 0 < j < |after| :: after[j] == entries[j - 1])
  {
    hide Distinct;
    forall i | 0 <= i < |entries| && entries[i].id == id
      ensures i == Find(entries, id)
    {
      OnlyOne(entries, i, Find(entries, id));
    }
  }

  lemma OnlyOne(entries: seq<Entry>, i: nat, j: nat)
    requires Distinct(entries) && i < |entries| && j < |entries| && entries[i].id == entries[j].id
    ensures i == j
  {
  }

  /** An object just read is cached. */
  lemma CachedNow(entries: seq<Entry>, id: u32, fetched: bytes, capacity: nat)
    requires capacity > 0
    ensures IsCached(After(entries, id, fetched, capacity), id)
  {
    var after := After(entries, id, fetched, capacity);
    assert after[0].id == id;
  }

  // -- When the objects change -----------------------------------------------

  /** Every read within the object's true size is answered with its true bytes. */
  ghost predicate RightAbout(entries: seq<Entry>, contents: Contents, id: u32)
    requires id in contents
  {
    forall begin: nat, n: nat | begin + n <= |contents[id]| ::
      Served(entries, contents, id, begin, n) == Some(contents[id][begin..begin + n])
  }

  ghost predicate ReadsRight(entries: seq<Entry>, contents: Contents) {
    forall id | id in contents :: RightAbout(entries, contents, id)
  }

  lemma WholeServed(entries: seq<Entry>, contents: Contents, id: u32)
    requires id in contents
    ensures Served(entries, contents, id, 0, |contents[id]|) == Some(contents[id])
       <==> contents[id] <= Known(entries, contents, id)
  {
    var now, known := contents[id], Known(entries, contents, id);
    if |now| <= |known| {
      assert known[0..0 + |now|] == known[..|now|] && known[..|now|] <= known;
      assert now <= known ==> known[..|now|] == now;
    }
  }

  /** Reads of an object are right if and only if what the device holds begins what the cache
      takes it for. */
  lemma RightAboutIff(entries: seq<Entry>, contents: Contents, id: u32)
    requires id in contents
    ensures RightAbout(entries, contents, id) <==> contents[id] <= Known(entries, contents, id)
  {
    var now, known := contents[id], Known(entries, contents, id);
    WholeServed(entries, contents, id);
    if RightAbout(entries, contents, id) {
      assert 0 + |now| <= |now| && now[0..0 + |now|] == now;
    }
    if now <= known {
      forall begin: nat, n: nat | begin + n <= |now|
        ensures Served(entries, contents, id, begin, n) == Some(now[begin..begin + n])
      {
        assert known[begin..begin + n] == now[begin..begin + n];
      }
    }
  }

  /** A change after which the file is a beginning of what it was: a cut, or writing what is
      there already. */
  predicate OnlyCuts(f: bytes, c: Change) {
    match c
    case Resize(n) => n <= |f|
    case Write(off, data) => off + |data| <= |f| && f[off..off + |data|] == data
  }

  lemma OnlyCutsMeaning(f: bytes, c: Change)
    ensures Changed(f, c) <= f <==> OnlyCuts(f, c)
  {
    match c
    case Resize(n) =>
    case Write(off, data) =>
      if off + |data| <= |f| {
        var now := Changed(f, c);
        assert now[off..off + |data|] == data;
        if OnlyCuts(f, c) {
          assert f == f[..off] + f[off..off + |data|] + f[off + |data|..];
        }
      }
  }

  /** Writes and size changes do not reach the cache. Reads stay right after one if and only if
      its object is not cached, or all it does is to cut the file or to write what was there. */
  lemma ChangeKeepsReadsRightIff(entries: seq<Entry>, contents: Contents, id: u32, c: Change)
    requires Current(entries, contents) && id in contents
    ensures ReadsRight(entries, contents[id := Changed(contents[id], c)])
       <==> !IsCached(entries, id) || OnlyCuts(contents[id], c)
  {
    var now := contents[id := Changed(contents[id], c)];
    OnlyCutsMeaning(contents[id], c);
    forall other | other in now
      ensures Known(entries, now, other)
           == if IsCached(entries, other) then contents[other] else now[other]
    {
      if IsCached(entries, other) {
        assert entries[Find(entries, other)] in entries;
      }
    }
    forall other | other in now
      ensures RightAbout(entries, now, other) <==> now[other] <= Known(entries, now, other)
    {
      RightAboutIff(entries, now, other);
    }
  }

  /** One byte written over another: the next read still gets the old one. */
  method StaleByte(old_: u8, new_: u8) returns (data: Option<bytes>)
    requires old_ != new_
    ensures data == Some([old_])
  {
    var cache := new Cache(1);
    var contents := map[1 := [old_]];
    assert Changed([old_], Write(0, [new_])) == [new_] && [new_][0] != [old_][0] && [old_][..1] == [old_];
    data := cache.ReadChangeRead(contents, 1, Write(0, [new_]));
  }
}
