/** The binary writer and reader every MTP message goes through
    (mtp/ptp/OutputStream.h, mtp/ptp/InputStream.h), numbers only. */
module Codec {
  import opened Bytes
  import opened Results

  datatype Error =
    | OutOfRange
    | StringTooBig
    | UnexpectedLength
    | InvalidType

  class OutputStream {
    var data: bytes

    /** The original appends to a byte array it is given. */
    constructor (initial: bytes)
      ensures data == initial
    {
      data := initial;
    }

    method Write8(value: u8)
      modifies this
      ensures data == old(data) + [value]
    {
      data := data + [value];
    }

    method Write16(value: u16)
      modifies this
      ensures data == old(data) + LeBytes(value, 2) == old(data) + [value % 0x100, value / 0x100]
    {
      LeBytesHalves(value);
      Write8(value % 0x100);
      Write8(value / 0x100);
    }

    method Write32(value: u32)
      modifies this
      ensures data == old(data) + LeBytes(value, 4)
    {
      LeBytesOfHalves(value);
      Associative(data, LeBytes(value % 0x1_0000, 2), LeBytes(value / 0x1_0000, 2));
      Write16(value % 0x1_0000);
      Write16(value / 0x1_0000);
    }

    /** The parameter is 32 bits wide and the second word is the first shifted by 16. */
    method Write64(value: u32)
      modifies this
      ensures data == old(data) + Written64(value)
    {
      Write32(value);
      Write32(value / 0x1_0000);
    }

    method WriteData(value: bytes)
      modifies this
      ensures data == old(data) + value
    {
      var i := 0;
      while i < |value|
        invariant 0 <= i <= |value|
        invariant data == old(data) + value[..i]
      {
        assert value[..i + 1] == value[..i] + [value[i]];
        Write8(value[i]);
        i := i + 1;
      }
    }

    /** WriteArray over 32-bit elements: a count, then the elements. */
    method WriteArray32(values: seq<u32>)
      requires |values| < 0x1_0000_0000
      modifies this
      ensures data == old(data) + Array32(values)
    {
      Write32(|values|);
      ghost var head := data;
      var i := 0;
      while i < |values|
        invariant 0 <= i <= |values|
        invariant data == head + Words(values[..i])
      {
        WordsSnoc(values[..i], values[i]);
        assert values[..i + 1] == values[..i] + [values[i]];
        Associative(head, Words(values[..i]), LeBytes(values[i], 4));
        Write32(values[i]);
        i := i + 1;
      }
      assert values[..i] == values;
      Associative(old(data), LeBytes(|values|, 4), Words(values));
    }
  }

  class InputStream {
    const data: bytes
    var offset: nat

    constructor (data: bytes, offset: nat := 0)
      ensures this.data == data && this.offset == offset
    {
      this.data := data;
      this.offset := offset;
    }

    /** vector::at throws past the end; the offset has moved on even so. */
    method Read8() returns (r: Result<u8, Error>)
      modifies this
      ensures r == if old(offset) < |data| then Ok(data[old(offset)]) else Err(OutOfRange)
      ensures offset == old(offset) + 1
    {
      r := if offset < |data| then Ok(data[offset]) else Err(OutOfRange);
      offset := offset + 1;
    }

    method Read16() returns (r: Result<u16, Error>)
      modifies this
      ensures r == NumberAt(data, old(offset), 2)
      ensures r.Ok? ==> offset == old(offset) + 2 <= |data| && r.value == Word16(data, old(offset))
    {
      ghost var start := offset;
      var l :- Read8();
      var h :- Read8();
      Word16IsValue(data, start);
      r := Ok(l as nat + 0x100 * h as nat);
    }

    method Read32() returns (r: Result<u32, Error>)
      modifies this
      ensures r == NumberAt(data, old(offset), 4)
      ensures r.Ok? ==> offset == old(offset) + 4
    {
      ghost var start := offset;
      var l :- Read16();
      var h :- Read16();
      NumberInHalves(data, start, 2);
      Pow256Values();
      r := Ok(l as nat + 0x1_0000 * h as nat);
    }

    method Read64() returns (r: Result<u64, Error>)
      modifies this
      ensures r == NumberAt(data, old(offset), 8)
      ensures r.Ok? ==> offset == old(offset) + 8
    {
      ghost var start := offset;
      var l :- Read32();
      var h :- Read32();
      NumberInHalves(data, start, 4);
      Pow256Values();
      r := Ok(l as nat + 0x1_0000_0000 * h as nat);
    }

    /** ReadArray over 32-bit elements; an exhausted stream reads as an empty array. */
    method ReadArray32() returns (r: Result<seq<u32>, Error>)
      modifies this
      ensures old(offset) <= |data| ==>
        match Array32At(data[old(offset)..])
        case Err(error) => r == Err(error)
        case Ok((values, n)) => r == Ok(values) && offset == old(offset) + n
    {
      if offset >= |data| {
        return Ok([]);
      }
      ghost var start := offset;
      var count :- Read32();
      var size: nat := count;
      var left, values := size, [];
      ArrayStart(data, start);
      hide WordsOf, Array32At, LeValue;
      while left > 0
        invariant 0 <= left && left + |values| == size
        invariant offset == start + 4 + 4 * |values| <= |data|
        invariant values == WordsOf(data[start + 4..start + 4 + 4 * |values|])
      {
        left := left - 1;
        ArrayTooShort(data, start, size, |values|);
        ghost var at := offset;
        var value :- Read32();
        ArrayNext(data, start, values, value);
        values := values + [value];
      }
      WholeArray(data, start, size);
      r := Ok(values);
    }
  }

  lemma WholeArray(data: bytes, start: nat, size: nat)
    requires start + 4 + 4 * size <= |data| && LeValue(data[start..start + 4]) == size
    ensures Array32At(data[start..]) == Ok((WordsOf(data[start + 4..start + 4 + 4 * size]), 4 + 4 * size))
  {
    assert data[start..][4..4 + 4 * size] == data[start + 4..start + 4 + 4 * size];
    assert data[start..][..4] == data[start..start + 4];
  }

  /** One more word of an array. */
  lemma WordsNext(data: bytes, start: nat, at: nat)
    requires start <= at && at + 4 <= |data| && (at - start) % 4 == 0
    ensures WordsOf(data[start..at + 4]) == WordsOf(data[start..at]) + [LeValue(data[at..at + 4])]
  {
    var word := data[at..at + 4];
    WordsOfSnoc(data[start..at], word);
    SliceSplit(data, start, at, at + 4);
    assert word[..4] == word && WordsOf(word) == [LeValue(word)] + WordsOf(word[4..]);
  }

  lemma ArrayStart(data: bytes, start: nat)
    requires start + 4 <= |data|
    ensures WordsOf(data[start + 4..start + 4]) == []
  {
  }

  lemma ArrayNext(data: bytes, start: nat, values: seq<u32>, value: u32)
    requires start + 8 + 4 * |values| <= |data| && values == WordsOf(data[start + 4..start + 4 + 4 * |values|])
    requires NumberAt(data, start + 4 + 4 * |values|, 4) == Ok(value)
    ensures values + [value] == WordsOf(data[start + 4..start + 8 + 4 * |values|])
  {
    WordsNext(data, start + 4, start + 4 + 4 * |values|);
  }

  /** An array whose next word is missing is no array. */
  lemma ArrayTooShort(data: bytes, start: nat, size: nat, done: nat)
    requires start + 4 <= |data| && NumberAt(data, start, 4) == Ok(size) && done < size
    ensures NumberAt(data, start + 4 + 4 * done, 4).Err? ==> Array32At(data[start..]) == Err(OutOfRange)
  {
    assert data[start..][..4] == data[start..start + 4];
  }

  /** A stream read that either has all n bytes or throws. */
  function NumberAt(data: bytes, at: nat, n: nat): (r: Result<nat, Error>) {
    if at + n <= |data| then Ok(LeValue(data[at..at + n])) else Err(OutOfRange)
  }

  lemma SliceSplit(b: bytes, i: nat, j: nat, k: nat)
    requires i <= j <= k <= |b|
    ensures b[i..k] == b[i..j] + b[j..k]
  {
  }

  lemma NumberFits(b: bytes)
    ensures LeValue(b) < Pow256(|b|)
  {
    LeBytesOfLeValue(b);
  }

  lemma NumberInHalves(data: bytes, at: nat, n: nat)
    requires at + 2 * n <= |data|
    ensures LeValue(data[at..at + 2 * n])
         == LeValue(data[at..at + n]) + Pow256(n) * LeValue(data[at + n..at + 2 * n])
  {
    assert data[at..at + 2 * n] == data[at..at + n] + data[at + n..at + 2 * n];
    LeValueOfConcat(data[at..at + n], data[at + n..at + 2 * n]);
  }

  function Written64(value: u32): (b: bytes) {
    LeBytes(value, 4) + LeBytes(value / 0x1_0000, 4)
  }

  /** Write64 is undone by Read64 below 2^16 and nowhere else. */
  lemma Write64Inverse(value: u32)
    ensures |Written64(value)| == 8
    ensures LeValue(Written64(value)) == value <==> value < 0x1_0000
  {
    var low, high := LeBytes(value, 4), LeBytes(value / 0x1_0000, 4);
    Pow256Values();
    LeValueOfConcat(low, high);
    LeValueOfLeBytes(value, 4);
    LeValueOfLeBytes(value / 0x1_0000, 4);
  }

  function Words(values: seq<u32>): (b: bytes)
    ensures |b| == 4 * |values|
  {
    if values == [] then [] else LeBytes(values[0], 4) + Words(values[1..])
  }

  lemma {:induction false} WordAt(values: seq<u32>, i: nat)
    requires i < |values|
    ensures NumberAt(Words(values), 4 * i, 4) == Ok(values[i])
    decreases i
  {
    var b := Words(values);
    Pow256Values();
    if i == 0 {
      LeValueOfLeBytes(values[0], 4);
      assert b[0..4] == LeBytes(values[0], 4);
    } else {
      WordAt(values[1..], i - 1);
      assert b[4 * i..4 * i + 4] == Words(values[1..])[4 * (i - 1)..4 * (i - 1) + 4];
    }
  }

  function WordsOf(b: bytes): (values: seq<u32>)
    requires |b| % 4 == 0
    ensures |values| == |b| / 4
  {
    if b == [] then [] else
      Pow256Values();
      NumberFits(b[..4]);
      [LeValue(b[..4])] + WordsOf(b[4..])
  }

  lemma {:induction false} WordsSnoc(values: seq<u32>, last: u32)
    ensures Words(values + [last]) == Words(values) + LeBytes(last, 4)
  {
    if values == [] {
      assert Words([last]) == LeBytes(last, 4) + Words([]);
    } else {
      WordsSnoc(values[1..], last);
      assert (values + [last])[1..] == values[1..] + [last];
      Associative(LeBytes(values[0], 4), Words(values[1..]), LeBytes(last, 4));
    }
  }

  lemma {:induction false} WordsOfSnoc(b: bytes, last: bytes)
    requires |b| % 4 == 0 && |last| == 4
    ensures WordsOf(b + last) == WordsOf(b) + WordsOf(last)
  {
    if b == [] {
      assert b + last == last;
    } else {
      WordsOfSnoc(b[4..], last);
      assert (b + last)[..4] == b[..4] && (b + last)[4..] == b[4..] + last;
    }
  }

  function Array32(values: seq<u32>): (b: bytes)
    requires |values| < 0x1_0000_0000
  {
    LeBytes(|values|, 4) + Words(values)
  }

  /** The array b starts with, and the bytes it takes up. */
  function Array32At(b: bytes): (r: Result<(seq<u32>, nat), Error>) {
    if b == [] then Ok(([], 0))
    else if |b| < 4 then Err(OutOfRange)
    else
      var n := LeValue(b[..4]);
      if 4 + 4 * n <= |b| then Ok((WordsOf(b[4..4 + 4 * n]), 4 + 4 * n)) else Err(OutOfRange)
  }

  /** Nothing is an empty array; any other array that is not all there cannot be read. */
  lemma Array32FailsIff(b: bytes)
    ensures b == [] ==> Array32At(b) == Ok(([], 0))
    ensures Array32At(b).Err? <==> 0 < |b| < 4 || (|b| >= 4 && |b| < 4 + 4 * Word32(b, 0))
  {
    if |b| >= 4 {
      Word32IsValue(b, 0);
      assert b[0..4] == b[..4];
    }
  }

  /** A counted array survives the trip, whatever follows it, and its bytes are consumed. */
  lemma Array32RoundTrip(values: seq<u32>, rest: bytes)
    requires |values| < 0x1_0000_0000
    ensures Array32At(Array32(values) + rest) == Ok((values, |Array32(values)|))
  {
    var b := Array32(values) + rest;
    Pow256Values();
    LeValueOfLeBytes(|values|, 4);
    assert b[..4] == LeBytes(|values|, 4);
    assert b[4..4 + 4 * |values|] == Words(values);
    WordsRoundTrip(values);
  }

  lemma {:induction false} WordsRoundTrip(values: seq<u32>)
    ensures WordsOf(Words(values)) == values
  {
    if values == [] {
    } else {
      Pow256Values();
      LeValueOfLeBytes(values[0], 4);
      WordsRoundTrip(values[1..]);
      assert Words(values)[..4] == LeBytes(values[0], 4);
      assert Words(values)[4..] == Words(values[1..]);
    }
  }

  // Numeric object properties travel in the fewest whole words.

  /** The bytes SetObjectProperty(u64) sends: shift out digits, pad to 4 or 8. */
  method PackInteger(value: u64) returns (b: bytes)
    ensures |b| == if value < 0x1_0000_0000 then 4 else 8
    ensures LeValue(b) == value
  {
    var data := new u8[8](_ => 0);
    var i: nat, rest: nat := 0, value;
    Pow256Values();
    while i < data.Length && rest != 0
      invariant i <= 8
      invariant rest < Pow256(8 - i)
      invariant forall k :: i <= k < 8 ==> data[k] == 0
      invariant LeValue(data[..i]) + Pow256(i) * rest == value
      invariant i > 4 ==> value >= 0x1_0000_0000
    {
      ghost var low := data[..i];
      data[i] := rest % 0x100;
      assert data[..i + 1] == low + [rest % 0x100];
      LeValueOfConcat(low, [rest % 0x100]);
      assert LeValue([rest % 0x100]) == rest % 0x100;
      PowStep(i, rest);
      if i == 4 {
        assert LeValue(low) >= 0 && Pow256(4) * rest >= Pow256(4);
      }
      i, rest := i + 1, rest / 0x100;
    }
    ghost var used := i;
    assert rest == 0;
    i := if i <= 4 then 4 else 8;
    b := data[..i];
    PadKeepsValue(data[..used], i - used);
    assert b == data[..used] + seq(i - used, _ => 0);
    NumberFits(b);
  }

  lemma PowStep(i: nat, rest: nat)
    ensures Pow256(i + 1) == 0x100 * Pow256(i)
    ensures Pow256(i) * rest == Pow256(i) * (rest % 0x100) + Pow256(i + 1) * (rest / 0x100)
  {
    var p, q, r := Pow256(i), rest / 0x100, rest % 0x100;
    assert rest == 0x100 * q + r;
    assert p * (0x100 * q + r) == p * (0x100 * q) + p * r;
    assert p * (0x100 * q) == (0x100 * p) * q;
  }

  lemma {:induction false} PadKeepsValue(b: bytes, n: nat)
    ensures LeValue(b + seq(n, _ => 0)) == LeValue(b)
  {
    var zeros: bytes := seq(n, _ => 0);
    LeValueOfConcat(b, zeros);
    ZeroValue(n);
  }

  lemma {:induction false} ZeroValue(n: nat)
    ensures LeValue(seq(n, _ => 0)) == 0
  {
    if n == 0 {
    } else {
      ZeroValue(n - 1);
      var zeros: bytes := seq(n, _ => 0);
      var fewer: bytes := seq(n - 1, _ => 0);
      assert zeros[1..] == fewer;
    }
  }

  /** ReadSingleInteger: the length alone decides the width. */
  method ReadSingleInteger(data: bytes) returns (r: Result<u64, Error>)
    ensures r == if |data| in {1, 2, 4, 8} then Ok(LeValue(data)) else Err(UnexpectedLength)
  {
    var s := new InputStream(data);
    assert data[0..|data|] == data;
    if |data| == 8 {
      r := s.Read64();
    } else if |data| == 4 {
      r := s.Read32();
    } else if |data| == 2 {
      r := s.Read16();
    } else if |data| == 1 {
      r := s.Read8();
      assert LeValue(data) == data[0] + 0x100 * LeValue(data[1..]);
    } else {
      r := Err(UnexpectedLength);
    }
  }

  /** Every 64-bit property value reads back as it was set. */
  method IntegerRoundTrip(value: u64) returns (r: Result<u64, Error>)
    ensures r == Ok(value)
  {
    var b := PackInteger(value);
    r := ReadSingleInteger(b);
  }
}
