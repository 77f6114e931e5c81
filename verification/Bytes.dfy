/** Fixed-width integers, byte strings and little-endian numbers. */
module Bytes {

  type u8 = x: int | 0 <= x < 0x100
  type u16 = x: int | 0 <= x < 0x1_0000
  type u32 = x: int | 0 <= x < 0x1_0000_0000
  type u64 = x: int | 0 <= x < 0x1_0000_0000_0000_0000

  type bytes = seq<u8>

  /** The value of a little-endian digit string. */
  function LeValue(b: bytes): (v: nat) {
    if b == [] then 0 else b[0] + 0x100 * LeValue(b[1..])
  }

  /** The n low digits of v, least significant first. */
  function LeBytes(v: nat, n: nat): (b: bytes)
    ensures |b| == n
  {
    if n == 0 then [] else [v % 0x100] + LeBytes(v / 0x100, n - 1)
  }

  function Pow256(n: nat): (p: nat)
    ensures p > 0
  {
    if n == 0 then 1 else 0x100 * Pow256(n - 1)
  }

  lemma {:induction false} LeValueOfLeBytes(v: nat, n: nat)
    requires v < Pow256(n)
    ensures LeValue(LeBytes(v, n)) == v
  {
    if n == 0 {
    } else {
      LeValueOfLeBytes(v / 0x100, n - 1);
      assert LeBytes(v, n)[1..] == LeBytes(v / 0x100, n - 1);
    }
  }

  lemma {:induction false} LeBytesOfLeValue(b: bytes)
    ensures LeValue(b) < Pow256(|b|)
    ensures LeBytes(LeValue(b), |b|) == b
  {
    if b == [] {
    } else {
      LeBytesOfLeValue(b[1..]);
      assert LeValue(b) % 0x100 == b[0] && LeValue(b) / 0x100 == LeValue(b[1..]);
    }
  }

  lemma {:induction false} LeValueOfConcat(a: bytes, b: bytes)
    ensures LeValue(a + b) == LeValue(a) + Pow256(|a|) * LeValue(b)
  {
    if a == [] {
      assert a + b == b;
    } else {
      LeValueOfConcat(a[1..], b);
      assert (a + b)[1..] == a[1..] + b;
      MulAssociative(0x100, Pow256(|a| - 1), LeValue(b));
    }
  }

  lemma MulAssociative(x: nat, y: nat, z: nat)
    ensures x * (y * z) == (x * y) * z
  {
  }

  /** Two narrow writes make one wide one, low half first. */
  lemma LeBytesHalves(v: nat)
    ensures LeBytes(v, 2) == [v % 0x100, v / 0x100 % 0x100]
    ensures LeBytes(v, 4) == LeBytes(v, 2) + LeBytes(v / 0x1_0000, 2)
  {
    assert LeBytes(v, 1) == [v % 0x100];
    assert LeBytes(v, 2) == [v % 0x100] + LeBytes(v / 0x100, 1);
    assert LeBytes(v, 3) == [v % 0x100] + LeBytes(v / 0x100, 2);
    assert LeBytes(v, 4) == [v % 0x100] + LeBytes(v / 0x100, 3);
    assert v / 0x100 / 0x100 == v / 0x1_0000;
  }

  lemma LeBytesOfLowHalf(v: nat)
    ensures LeBytes(v % 0x1_0000, 2) == LeBytes(v, 2)
  {
    var low := v % 0x1_0000;
    assert low % 0x100 == v % 0x100 && low / 0x100 % 0x100 == v / 0x100 % 0x100;
    assert LeBytes(v / 0x100, 1) == [v / 0x100 % 0x100] && LeBytes(low / 0x100, 1) == [low / 0x100 % 0x100];
  }

  /** The low half of a 32-bit value may be cut off first. */
  lemma LeBytesOfHalves(v: nat)
    ensures LeBytes(v % 0x1_0000, 2) + LeBytes(v / 0x1_0000, 2) == LeBytes(v, 4)
  {
    LeBytesOfLowHalf(v);
    LeBytesHalves(v);
  }

  /** The 16-bit number at a position. */
  function Word16(b: bytes, at: nat): u16
    requires at + 2 <= |b|
  {
    b[at] as nat + 0x100 * b[at + 1] as nat
  }

  function Word32(b: bytes, at: nat): u32
    requires at + 4 <= |b|
  {
    Word16(b, at) as nat + 0x1_0000 * Word16(b, at + 2) as nat
  }

  lemma Word16IsValue(b: bytes, at: nat)
    requires at + 2 <= |b|
    ensures LeValue(b[at..at + 2]) == Word16(b, at)
  {
    var w := b[at..at + 2];
    assert w[1..] == [b[at + 1]] && LeValue([b[at + 1]]) == b[at + 1];
  }

  lemma Word32IsValue(b: bytes, at: nat)
    requires at + 4 <= |b|
    ensures LeValue(b[at..at + 4]) == Word32(b, at)
  {
    Word16IsValue(b, at);
    Word16IsValue(b, at + 2);
    Pow256Values();
    LeValueOfConcat(b[at..at + 2], b[at + 2..at + 4]);
    assert b[at..at + 4] == b[at..at + 2] + b[at + 2..at + 4];
  }

  lemma Pow256Values()
    ensures Pow256(1) == 0x100
    ensures Pow256(2) == 0x1_0000
    ensures Pow256(4) == 0x1_0000_0000
    ensures Pow256(8) == 0x1_0000_0000_0000_0000
  {
    assert Pow256(2) == 0x100 * Pow256(1);
    assert Pow256(3) == 0x100 * Pow256(2);
    assert Pow256(4) == 0x100 * Pow256(3);
    assert Pow256(5) == 0x100 * Pow256(4);
    assert Pow256(6) == 0x100 * Pow256(5);
    assert Pow256(7) == 0x100 * Pow256(6);
    assert Pow256(8) == 0x100 * Pow256(7);
  }

  lemma Associative<T>(a: seq<T>, b: seq<T>, c: seq<T>)
    ensures a + (b + c) == a + b + c
  {
  }

  lemma Regrouped<T>(a: seq<T>, b: seq<T>, c: seq<T>, d: seq<T>)
    ensures a + (b + c + d) == a + b + c + d
  {
  }

  lemma TakeDrop<T>(s: seq<T>, n: nat)
    requires n <= |s|
    ensures s[..n] + s[n..] == s
  {
  }

  lemma HeadAndRest<T>(s: seq<T>, i: nat)
    requires i < |s|
    ensures s[i..] == [s[i]] + s[i + 1..]
  {
  }

  /** All chunks, end to end. */
  function Flatten<T>(chunks: seq<seq<T>>): (r: seq<T>) {
    if chunks == [] then [] else chunks[0] + Flatten(chunks[1..])
  }

  lemma {:induction false} FlattenConcat<T>(a: seq<seq<T>>, b: seq<seq<T>>)
    ensures Flatten(a + b) == Flatten(a) + Flatten(b)
  {
    if a == [] {
      assert a + b == b;
    } else {
      FlattenConcat(a[1..], b);
      assert (a + b)[0] == a[0] && (a + b)[1..] == a[1..] + b;
      Associative(a[0], Flatten(a[1..]), Flatten(b));
    }
  }

  lemma FlattenOne<T>(c: seq<T>)
    ensures Flatten([c]) == c
  {
    assert Flatten([c]) == c + Flatten([]);
  }
}
