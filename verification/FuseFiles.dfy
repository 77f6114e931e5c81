/** File contents through FUSE (fuse/fuse.cpp): writes, size changes and reads of one object
    refine a byte array; 64-bit positions travel in halves (mtp/ptp/Session.cpp). */
module FuseFiles {
  import opened Bytes
  import opened Results

  const U32_MAX: nat := 0xffff_ffff

  // -- The file as a byte array ----------------------------------------------

  function Zeros(n: nat): bytes {
    seq(n, _ => 0)
  }

  function Resized(f: bytes, n: nat): (r: bytes)
    ensures |r| == n
  {
    if n <= |f| then f[..n] else f + Zeros(n - |f|)
  }

  /** data written at off; a gap before it is filled with zeros. */
  function WriteAt(f: bytes, off: nat, data: bytes): (r: bytes)
    ensures |r| == if off + |data| > |f| then off + |data| else |f|
  {
    var room := if off + |data| > |f| then Resized(f, off + |data|) else f;
    room[..off] + data + room[off + |data|..]
  }

  /** The bytes of a read, clipped at the end of the file. */
  function Clipped(f: bytes, begin: nat, size: nat): bytes {
    if begin >= |f| then [] else f[begin..if begin + size <= |f| then begin + size else |f|]
  }

  /** A read of what is there of the bytes asked for. */
  lemma ClippedTo(f: bytes, begin: nat, size: nat)
    ensures var there := if |f| - begin < size then |f| - begin else size;
      if there > 0 then
        && |Clipped(f, begin, size)| == there && Clipped(f, begin, there) == Clipped(f, begin, size)
        && forall k | 0 <= k < there :: Clipped(f, begin, size)[k] == f[begin + k]
      else Clipped(f, begin, size) == []
  {
  }

  datatype Change = Write(off: nat, data: bytes) | Resize(size: nat)

  function Changed(f: bytes, c: Change): bytes {
    match c
    case Write(off, data) => WriteAt(f, off, data)
    case Resize(n) => Resized(f, n)
  }

  function AllChanged(f: bytes, cs: seq<Change>): bytes
    decreases |cs|
  {
    if cs == [] then f else Changed(AllChanged(f, cs[..|cs| - 1]), cs[|cs| - 1])
  }

  /** The byte at position k after a run, told from the run alone: that of the last write over
      k, zero if the file last grew past k without one, and the original byte otherwise. */
  function ByteAfter(f: bytes, cs: seq<Change>, k: nat): u8
    decreases |cs|
  {
    if cs == [] then (if k < |f| then f[k] else 0)
    else
      var before, last := cs[..|cs| - 1], cs[|cs| - 1];
      match last
      case Write(off, data) => if off <= k < off + |data| then data[k - off] else ByteAfter(f, before, k)
      case Resize(n) => if k >= n then 0 else ByteAfter(f, before, k)
  }

  /** Every byte of the file is the one its history says, whatever the order of writes, size
      changes and gaps. */
  lemma {:induction false} HistoryOfBytes(f: bytes, cs: seq<Change>, k: nat)
    ensures k < |AllChanged(f, cs)| ==> AllChanged(f, cs)[k] == ByteAfter(f, cs, k)
    ensures k >= |AllChanged(f, cs)| ==> ByteAfter(f, cs, k) == 0
    decreases |cs|
  {
    if cs != [] {
      HistoryOfBytes(f, cs[..|cs| - 1], k);
      var file := AllChanged(f, cs[..|cs| - 1]);
      match cs[|cs| - 1]
      case Write(off, data) => ByteOfWrite(file, off, data, k);
      case Resize(n) =>
        if k < n {
          ByteOfResize(file, n, k);
        }
    }
  }

  lemma ByteOfResize(f: bytes, n: nat, k: nat)
    requires k < n
    ensures Resized(f, n)[k] == if k < |f| then f[k] else 0
  {
  }

  lemma ByteOfWrite(f: bytes, off: nat, data: bytes, k: nat)
    ensures k < |WriteAt(f, off, data)| ==>
      WriteAt(f, off, data)[k]
      == if off <= k < off + |data| then data[k - off] else if k < |f| then f[k] else 0
  {
    if off + |data| > |f| && k < off + |data| {
      ByteOfResize(f, off + |data|, k);
    }
  }

  lemma GrowThenWrite(f: bytes, off: nat, data: bytes)
    requires off + |data| > |f|
    ensures WriteAt(Resized(f, off + |data|), off, data) == WriteAt(f, off, data)
  {
  }

  // -- Sizes -----------------------------------------------------------------

  /** st_blocks. */
  function Blocks(n: nat): nat {
    (n + 511) / 512
  }

  /** The fewest blocks that hold the file. */
  lemma BlocksCover(n: nat)
    ensures forall b: nat :: b >= Blocks(n) <==> b * 512 >= n
  {
  }

  // -- Positions on the wire -------------------------------------------------

  function Low(v: u64): u32 {
    v % 0x1_0000_0000
  }

  function High(v: u64): u32 {
    v / 0x1_0000_0000
  }

  function Joined(low: u32, high: u32): u64 {
    low as nat + 0x1_0000_0000 * high as nat
  }

  lemma HalvesJoin(v: u64)
    ensures Joined(Low(v), High(v)) == v == Low(v) as nat + 0x1_0000_0000 * High(v) as nat
  {
  }

  /** The object on the device, with the edit extensions: positions come as two words. */
  class Device {
    var content: bytes
    var editing: bool

    constructor (content: bytes)
      ensures this.content == content && !editing
    {
      this.content, editing := content, false;
    }

    method BeginEdit()
      requires !editing
      modifies this`editing
      ensures editing
    {
      editing := true;
    }

    method EndEdit()
      requires editing
      modifies this`editing
      ensures !editing
    {
      editing := false;
    }

    method Truncate(low: u32, high: u32)
      requires editing
      modifies this`content
      ensures content == Resized(old(content), Joined(low, high))
    {
      content := Resized(content, Joined(low, high));
    }

    method SendPartial(low: u32, high: u32, data: bytes)
      requires editing
      modifies this`content
      ensures content == WriteAt(old(content), Joined(low, high), data)
    {
      content := WriteAt(content, Joined(low, high), data);
    }

    method GetPartial(low: u32, high: u32, size: u32) returns (r: bytes)
      ensures r == Clipped(content, Joined(low, high), size)
    {
      r := Clipped(content, Joined(low, high), size);
    }
  }

  datatype ReadError = Overflow32

  /** FuseWrapper's view of one object: cached size and blocks, and its edit session. Edits
      reach the device only inside a session, and no second one is ever opened. */
  class File {
    const device: Device
    const partial64: bool      // _getPartialObject64Supported
    var size: nat              // st_size
    var blocks: nat            // st_blocks
    var inEdit: bool           // in _openedFiles

    constructor (device: Device, partial64: bool)
      requires !device.editing
      ensures this.device == device && this.partial64 == partial64 && Valid()
    {
      this.device, this.partial64 := device, partial64;
      size, blocks, inEdit := |device.content|, Blocks(|device.content|), false;
    }

    predicate Valid()
      reads this, device
    {
      && size == |device.content| && blocks == Blocks(size)
      && (inEdit <==> device.editing)
    }

    method SetSize(n: nat)
      modifies this`size, this`blocks
      ensures size == n && blocks == Blocks(n)
    {
      size := n;
      blocks := Blocks(n);
    }

    /** ObjectEditSession::Truncate. */
    method Truncate(n: u64)
      requires device.editing
      modifies device`content
      ensures device.content == Resized(old(device.content), n)
    {
      HalvesJoin(n);
      device.Truncate(Low(n), High(n));
    }

    /** ObjectEditSession::Send. */
    method Send(off: u64, data: bytes)
      requires device.editing
      modifies device`content
      ensures device.content == WriteAt(old(device.content), off, data)
    {
      HalvesJoin(off);
      device.SendPartial(Low(off), High(off), data);
    }

    method GetTransaction()
      requires Valid()
      modifies this`inEdit, device`editing
      ensures Valid() && inEdit
    {
      if !inEdit {
        device.BeginEdit();
        inEdit := true;
      }
    }

    method ReleaseTransaction()
      requires Valid()
      modifies this`inEdit, device`editing
      ensures Valid() && !inEdit
    {
      if inEdit {
        device.EndEdit();
        inEdit := false;
      }
    }

    /** Write: grow first if need be, then send. */
    method Write(buf: bytes, off: nat)
      requires Valid() && off + |buf| < 0x8000_0000_0000_0000
      modifies this, device
      ensures Valid() && device.content == WriteAt(old(device.content), off, buf)
    {
      GetTransaction();
      var newSize := off + |buf|;
      if newSize > size {
        GrowThenWrite(device.content, off, buf);
        Truncate(newSize);
        SetSize(newSize);
      }
      Send(off, buf);
    }

    /** SetAttr with a size. */
    method SetAttrSize(n: nat)
      requires Valid() && n < 0x8000_0000_0000_0000
      modifies this, device
      ensures Valid() && device.content == Resized(old(device.content), n)
    {
      GetTransaction();
      Truncate(n);
      SetSize(n);
    }

    /** Read by partial object: the exact clipped slice; without the 64-bit operation it fails
        exactly when a nonempty read ends past 32 bits. The edit session is closed first. */
    method Read(count: u32, begin: nat) returns (r: Result<bytes, ReadError>)
      requires Valid() && begin < 0x8000_0000_0000_0000 && size < 0x8000_0000_0000_0000
      modifies this`inEdit, device`editing
      ensures Valid() && !inEdit
      ensures var want := Clipped(device.content, begin, count);
        r == if partial64 || want == [] || begin + |want| <= 0xffff_ffff then Ok(want) else Err(Overflow32)
    {
      ReleaseTransaction();
      ClippedTo(device.content, begin, count);
      var rsize := if size - begin < count then size - begin else count;
      if rsize > 0 {
        if !partial64 && begin + rsize > U32_MAX {
          return Err(Overflow32);
        }
        HalvesJoin(begin);
        var data := device.GetPartial(Low(begin), High(begin), rsize);
        return Ok(data);
      }
      r := Ok([]);
    }

    method Apply(c: Change)
      requires Valid() && InRange(c)
      modifies this, device
      ensures Valid() && device.content == Changed(old(device.content), c)
    {
      match c {
        case Write(off, data) => Write(data, off);
        case Resize(n) => SetAttrSize(n);
      }
    }

    /** Any run of writes and size changes leaves the abstract file on the device. */
    method Run(cs: seq<Change>)
      requires Valid() && forall i | 0 <= i < |cs| :: InRange(cs[i])
      modifies this, device
      ensures Valid() && device.content == AllChanged(old(device.content), cs)
    {
      ghost var f := device.content;
      var i := 0;
      while i < |cs|
        invariant 0 <= i <= |cs| && Valid()
        invariant device.content == AllChanged(f, cs[..i])
      {
        NextChanged(f, cs, i);
        Apply(cs[i]);
        i := i + 1;
      }
      assert cs[..i] == cs;
    }
  }

  /** File positions are signed 64-bit numbers. */
  predicate InRange(c: Change) {
    match c
    case Write(off, data) => off + |data| < 0x8000_0000_0000_0000
    case Resize(n) => n < 0x8000_0000_0000_0000
  }

  lemma NextChanged(f: bytes, cs: seq<Change>, i: nat)
    requires i < |cs|
    ensures AllChanged(f, cs[..i + 1]) == Changed(AllChanged(f, cs[..i]), cs[i])
  {
    assert cs[..i + 1][..i] == cs[..i];
  }
}
