/** The object streams of mtp/ptp/ByteArrayObjectStream.h and JoinedObjectStream.h.
    Cancellation is not part of the model. */
module ObjectStreams {
  import opened Bytes

  /** ByteArrayObjectInputStream; it also stands for the file behind SendObject. */
  class ByteSource {
    const data: bytes
    var offset: nat

    constructor (data: bytes)
      ensures Valid() && Left() == data && this.data == data && offset == 0
    {
      this.data := data;
      offset := 0;
    }

    predicate Valid()
      reads this
    {
      offset <= |data|
    }

    /** What is still to be read. */
    function Left(): bytes
      requires Valid()
      reads this
    {
      data[offset..]
    }

    function GetSize(): nat {
      |data|
    }

    /** Fills buf[from..from + size] as far as the data goes. */
    method Read(buf: array<u8>, from: nat, size: nat) returns (n: nat)
      requires Valid() && from + size <= buf.Length
      modifies this, buf
      ensures Valid()
      ensures n == Min(size, |old(Left())|)
      ensures Left() == old(Left())[n..]
      ensures buf[..] == Overlay(old(buf[..]), from, old(Left())[..n])
    {
      n := Min(size, |data| - offset);
      forall k | 0 <= k < n {
        buf[from + k] := data[offset + k];
      }
      offset := offset + n;
    }
  }

  function Min(a: int, b: int): int {
    if a <= b then a else b
  }

  /** b with x written over it at position from. */
  function Overlay(b: bytes, from: nat, x: bytes): (r: bytes)
    requires from + |x| <= |b|
    ensures |r| == |b| && r[from..from + |x|] == x
  {
    b[..from] + x + b[from + |x|..]
  }

  lemma OverlayTwice(b: bytes, from: nat, x: bytes, y: bytes)
    requires from + |x| + |y| <= |b|
    ensures Overlay(Overlay(b, from, x), from + |x|, y) == Overlay(b, from, x + y)
  {
  }

  /** JoinedObjectInputStream: the second stream starts when a read of the first comes up short. */
  class JoinedSource {
    const stream1: ByteSource
    const stream2: ByteSource
    var stream1Exhausted: bool

    constructor (s1: ByteSource, s2: ByteSource)
      requires s1 != s2 && s1.Valid() && s2.Valid()
      ensures stream1 == s1 && stream2 == s2
      ensures Valid() && Left() == s1.Left() + s2.Left()
    {
      stream1, stream2, stream1Exhausted := s1, s2, false;
    }

    predicate Valid()
      reads this, stream1, stream2
    {
      && stream1 != stream2
      && stream1.Valid() && stream2.Valid()
      && (stream1Exhausted ==> stream1.Left() == [])
    }

    function Left(): bytes
      requires Valid()
      reads this, stream1, stream2
    {
      stream1.Left() + stream2.Left()
    }

    function GetSize(): nat {
      stream1.GetSize() + stream2.GetSize()
    }

    method Read(buf: array<u8>, from: nat, size: nat) returns (r: nat)
      requires Valid() && from + size <= buf.Length
      modifies this, stream1, stream2, buf
      ensures Valid()
      ensures r == Min(size, |old(Left())|)
      ensures Left() == old(Left())[r..]
      ensures buf[..] == Overlay(old(buf[..]), from, old(Left())[..r])
    {
      if !stream1Exhausted {
        r := stream1.Read(buf, from, size);
        if r < size {
          r := ReadSecond(buf, from, size, r, old(buf[..]), old(stream1.Left()));
          EndOfFirst(old(stream1.Left()), old(stream2.Left()), size);
        } else {
          InsideFirst(old(stream1.Left()), old(stream2.Left()), size);
        }
      } else {
        r := stream2.Read(buf, from, size);
        assert old(Left()) == old(stream2.Left());
      }
    }

    /** The rest of a read that the first stream could not fill. */
    method ReadSecond(buf: array<u8>, from: nat, size: nat, got: nat, ghost was: bytes, ghost first: bytes)
      returns (r: nat)
      requires Valid() && stream1.Left() == []
      requires got == |first| && got < size && from + size <= buf.Length == |was|
      requires buf[..] == Overlay(was, from, first)
      modifies this, stream2, buf
      ensures Valid() && stream1.Left() == []
      ensures r == got + Min(size - got, |old(stream2.Left())|)
      ensures stream2.Left() == old(stream2.Left())[r - got..]
      ensures buf[..] == Overlay(was, from, first + old(stream2.Left())[..r - got])
    {
      stream1Exhausted := true;
      var more := stream2.Read(buf, from + got, size - got);
      OverlayTwice(was, from, first, old(stream2.Left())[..more]);
      r := got + more;
    }
  }

  lemma InsideFirst(first: bytes, second: bytes, size: nat)
    requires size <= |first|
    ensures (first + second)[..size] == first[..size]
    ensures (first + second)[size..] == first[size..] + second
  {
  }

  lemma EndOfFirst(first: bytes, second: bytes, size: nat)
    requires |first| < size
    ensures var more := Min(size - |first|, |second|);
      && (first + second)[..|first| + more] == first + second[..more]
      && (first + second)[|first| + more..] == second[more..]
  {
  }

  /** What IObjectInputStreamPtr may point at here. */
  datatype Source = Plain(bytesOnly: ByteSource) | Joined(both: JoinedSource) {

    predicate Valid()
      reads Objects()
    {
      match this
      case Plain(s) => s.Valid()
      case Joined(j) => j.Valid()
    }

    function Objects(): set<object> {
      match this
      case Plain(s) => {s}
      case Joined(j) => {j, j.stream1, j.stream2}
    }

    function Left(): bytes
      requires Valid()
      reads Objects()
    {
      match this
      case Plain(s) => s.Left()
      case Joined(j) => j.Left()
    }

    /** The virtual Read, into the front of buf. */
    method Read(buf: array<u8>, size: nat) returns (r: nat)
      requires Valid() && size <= buf.Length
      modifies Objects(), buf
      ensures Valid()
      ensures r == Min(size, |old(Left())|)
      ensures Left() == old(Left())[r..]
      ensures buf[..r] == old(Left())[..r]
    {
      match this {
        case Plain(s) => r := s.Read(buf, 0, size);
        case Joined(j) => r := j.Read(buf, 0, size);
      }
      assert buf[..r] == buf[..][0..0 + r];
    }
  }

  /** ByteArrayObjectOutputStream: accepts everything. */
  class ByteSink {
    var data: bytes

    constructor ()
      ensures data == []
    {
      data := [];
    }

    method Write(chunk: bytes) returns (n: nat)
      modifies this
      ensures data == old(data) + chunk && n == |chunk|
    {
      data := data + chunk;
      n := |chunk|;
    }
  }

  /** FixedSizeByteArrayObjectOutputStream: accepts what fits. */
  class FixedSizeSink {
    const data: array<u8>
    var offset: nat
    ghost var contents: bytes   // the part written so far

    constructor (size: nat)
      ensures Valid() && fresh(data) && data.Length == size && contents == []
    {
      data := new u8[size](_ => 0);
      offset := 0;
      contents := [];
    }

    ghost predicate Valid()
      reads this, data
    {
      offset == |contents| <= data.Length && data[..offset] == contents
    }

    method Write(chunk: bytes) returns (n: nat)
      requires Valid()
      modifies this, data
      ensures Valid()
      ensures n == Min(|chunk|, data.Length - |old(contents)|)
      ensures contents == old(contents) + chunk[..n]
    {
      n := Min(|chunk|, data.Length - offset);
      forall k | 0 <= k < n {
        data[offset + k] := chunk[k];
      }
      offset := offset + n;
      contents := contents + chunk[..n];
    }

    /** GetData on a full buffer. */
    method GetData() returns (b: bytes)
      requires Valid() && offset == data.Length
      ensures b == contents
    {
      b := data[..];
    }
  }
}
