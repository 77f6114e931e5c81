/** MTP strings: a count, 16-bit units, a terminator (section 3.2.3 of MTP 1.1), to and from
    UTF-8 (section 3 of RFC 3629), as OutputStream.h and InputStream.h convert them. */
module MtpStrings {
  import opened Bytes
  import opened Results
  import opened Codec

  const QUESTION_MARK: u16 := 0x3f

  predicate IsContinuation(c: u8) {
    0x80 <= c < 0xc0
  }

  /** Utf8Length: bytes that do not continue a sequence. */
  function Utf8Length(s: bytes): nat {
    if s == [] then 0 else (if IsContinuation(s[0]) then 0 else 1) + Utf8Length(s[1..])
  }

  method ComputeUtf8Length(s: bytes) returns (size: nat)
    ensures size == Utf8Length(s)
  {
    size := 0;
    var i := 0;
    while i < |s|
      invariant 0 <= i <= |s|
      invariant size + Utf8Length(s[i..]) == Utf8Length(s)
    {
      assert s[i..][1..] == s[i + 1..];
      if s[i] < 0x80 || !IsContinuation(s[i]) {
        size := size + 1;
      }
      i := i + 1;
    }
  }

  /** How many there are. */
  lemma {:induction false} Utf8LengthCounts(s: bytes)
    ensures Utf8Length(s) == |Starts(s)|
  {
    if s == [] {
      assert Starts(s) == {};
    } else {
      var k := |s| - 1;
      Utf8LengthCounts(s[..k]);
      Utf8LengthSnoc(s[..k], s[k]);
      assert s == s[..k] + [s[k]];
      assert Starts(s) == if 0x80 <= s[k] < 0xc0 then Starts(s[..k]) else Starts(s[..k]) + {k};
    }
  }

  /** Where characters start. */
  function Starts(s: bytes): set<nat> {
    set i | 0 <= i < |s| && !(0x80 <= s[i] < 0xc0)
  }

  lemma {:induction false} Utf8LengthSnoc(s: bytes, c: u8)
    ensures Utf8Length(s + [c]) == Utf8Length(s) + if IsContinuation(c) then 0 else 1
  {
    if s == [] {
      assert (s + [c])[0] == c && (s + [c])[1..] == [];
    } else {
      Utf8LengthSnoc(s[1..], c);
      assert (s + [c])[0] == s[0] && (s + [c])[1..] == s[1..] + [c];
    }
  }

  // -- UTF-8 to units ------------------------------------------------------

  /** Character p of a std::string. The terminator is readable; the one byte past it, which
      a truncated sequence can reach, is taken to be zero as well. */
  function At(s: bytes, p: nat): u8 {
    if p < |s| then s[p] else 0
  }

  /** How far the writer moves on for a lead byte. */
  function Step(c0: u8): (n: nat)
    ensures 1 <= n <= 3
  {
    if c0 < 0x80 || c0 == 0xc0 || c0 == 0xc1 || c0 >= 0xf5 then 1
    else if 0xc2 <= c0 <= 0xdf then 2
    else 3
  }

  /** The unit it writes. */
  function UnitOf(c0: u8, c1: u8, c2: u8): u16 {
    if c0 == 0xc0 || c0 == 0xc1 || c0 >= 0xf5 then QUESTION_MARK
    else if c0 < 0x80 then c0
    else if 0xc2 <= c0 <= 0xdf then (c0 as nat % 0x20) * 0x40 + c1 as nat % 0x40
    else if 0xe0 <= c0 <= 0xef then (c0 as nat % 0x10) * 0x1000 + (c1 as nat % 0x40) * 0x40 + c2 as nat % 0x40
    else QUESTION_MARK
  }

  /** The units the loop writes for s, at most limit of them. */
  function Units(s: bytes, limit: nat): (us: seq<u16>)
    ensures |us| <= limit
    decreases limit
  {
    if limit == 0 || s == [] then []
    else
      var n := Step(s[0]);
      [UnitOf(s[0], At(s, 1), At(s, 2))] + Units(if n <= |s| then s[n..] else [], limit - 1)
  }

  function UnitBytes(us: seq<u16>): (b: bytes)
    ensures |b| == 2 * |us|
  {
    if us == [] then [] else LeBytes(us[0], 2) + UnitBytes(us[1..])
  }

  /** The counted form of units. */
  function Counted(us: seq<u16>): (b: bytes)
    requires |us| < 0x100
    ensures |b| == 1 + 2 * |us|
  {
    var n: u8 := |us|;
    [n] + UnitBytes(us)
  }

  /** The unit for each kind of lead byte, and where the next one starts, whatever follows: bytes
      missing at the end count as zeros. */
  lemma UnitsByLead(s: bytes, limit: nat)
    requires s != [] && limit > 0
    ensures var us, c := Units(s, limit), s[0];
      var c1, c2 := if |s| > 1 then s[1] else 0, if |s| > 2 then s[2] else 0;
      && (c < 0x80 ==> us == [c] + Units(s[1..], limit - 1))
      && (c in {0xc0, 0xc1} || c >= 0xf5 ==> us == [0x3f] + Units(s[1..], limit - 1))
      && (0xc2 <= c < 0xe0 ==>
            us == [(c as nat - 0xc0) * 64 + c1 as nat % 64] + Units(if |s| <= 2 then [] else s[2..], limit - 1))
      && (0xe0 <= c < 0xf0 ==>
            us == [(c as nat - 0xe0) * 4096 + c1 as nat % 64 * 64 + c2 as nat % 64] + Units(if |s| <= 3 then [] else s[3..], limit - 1))
      && (0x80 <= c < 0xc0 || 0xf0 <= c < 0xf5 ==> us == [0x3f] + Units(if |s| <= 3 then [] else s[3..], limit - 1))
  {
  }

  /** What WriteString appends. */
  function Encode(s: bytes): (r: Result<bytes, Error>) {
    if s == [] then Ok([0])
    else
      var n := 1 + Utf8Length(s);
      if n > 255 then Err(StringTooBig) else Ok([n] + UnitBytes(Units(s, n)) + [0, 0])
  }

  method WriteString(stream: OutputStream, value: bytes) returns (r: Result<(), Error>)
    modifies stream
    ensures match Encode(value)
            case Ok(b) => r == Ok(()) && stream.data == old(stream.data) + b
            case Err(e) => r == Err(e) && stream.data == old(stream.data)
  {
    if value == [] {
      stream.Write8(0);
      return Ok(());
    }
    var size := ComputeUtf8Length(value);
    var len := 1 + size;
    if len > 255 {
      return Err(StringTooBig);
    }
    ghost var before, count := stream.data, [len];
    stream.Write8(len);
    WriteUnits(stream, value, len);
    LeBytesHalves(0);
    stream.Write16(0);
    Regrouped(before, count, UnitBytes(Units(value, len)), LeBytes(0, 2));
    r := Ok(());
  }

  /** The writer's loop. */
  method WriteUnits(stream: OutputStream, value: bytes, len: nat)
    modifies stream
    ensures stream.data == old(stream.data) + UnitBytes(Units(value, len))
  {
    ghost var head, units := stream.data, Units(value, len);
    ghost var seen: seq<u16> := [];
    var i, p := 0, 0;
    while i < len && p < |value|
      invariant 0 <= i <= len && 0 <= p
      invariant units == seen + Units(From(value, p), len - i)
      invariant stream.data == head + UnitBytes(seen)
      decreases len - i
    {
      var uni, next := ConvertAt(value, p);
      OneMoreUnit(value, p, len - i, uni, next, seen, head);
      stream.Write16(uni);
      seen := seen + [uni];
      i, p := i + 1, next;
    }
    assert seen == units;
  }

  lemma OneMoreUnit(value: bytes, p: nat, limit: nat, uni: u16, next: nat, seen: seq<u16>, head: bytes)
    requires p < |value| && limit > 0
    requires uni == UnitOf(value[p], At(value, p + 1), At(value, p + 2)) && next == p + Step(value[p])
    ensures seen + Units(From(value, p), limit) == seen + [uni] + Units(From(value, next), limit - 1)
    ensures head + UnitBytes(seen) + LeBytes(uni, 2) == head + UnitBytes(seen + [uni])
  {
    UnitsStep(value, p, limit);
    Associative(seen, [uni], Units(From(value, next), limit - 1));
    UnitBytesSnoc(seen, uni);
    Associative(head, UnitBytes(seen), LeBytes(uni, 2));
  }

  function From(s: bytes, p: nat): bytes {
    if p <= |s| then s[p..] else []
  }

  lemma UnitsStep(s: bytes, p: nat, limit: nat)
    requires p < |s| && limit > 0
    ensures Units(From(s, p), limit)
         == [UnitOf(s[p], At(s, p + 1), At(s, p + 2))] + Units(From(s, p + Step(s[p])), limit - 1)
  {
    var rest, n := s[p..], Step(s[p]);
    assert rest[0] == s[p] && At(rest, 1) == At(s, p + 1) && At(rest, 2) == At(s, p + 2);
    if n <= |rest| {
      assert rest[n..] == s[p + n..];
    }
  }

  /** One turn of the writer's loop: the unit at p and where the next one starts. */
  method ConvertAt(value: bytes, start: nat) returns (uni: u16, p: nat)
    requires start < |value|
    ensures uni == UnitOf(value[start], At(value, start + 1), At(value, start + 2))
    ensures p == start + Step(value[start])
  {
    var c0 := value[start];
    p := start + 1;
    if c0 == 0xc0 || c0 == 0xc1 || c0 >= 0xf5 {
      uni := QUESTION_MARK;
    } else if c0 < 0x80 {
      uni := c0;
    } else {
      var c1 := At(value, p);
      p := p + 1;
      if 0xc2 <= c0 <= 0xdf {
        uni := (c0 as nat % 0x20) * 0x40 + c1 as nat % 0x40;
      } else {
        var c2 := At(value, p);
        p := p + 1;
        if 0xe0 <= c0 <= 0xef {
          uni := (c0 as nat % 0x10) * 0x1000 + (c1 as nat % 0x40) * 0x40 + c2 as nat % 0x40;
        } else {
          uni := QUESTION_MARK;
        }
      }
    }
  }

  lemma {:induction false} UnitBytesSnoc(us: seq<u16>, u: u16)
    ensures UnitBytes(us + [u]) == UnitBytes(us) + LeBytes(u, 2)
  {
    if us == [] {
      assert UnitBytes([u]) == LeBytes(u, 2) + UnitBytes([]);
    } else {
      UnitBytesSnoc(us[1..], u);
      assert (us + [u])[1..] == us[1..] + [u];
      Associative(LeBytes(us[0], 2), UnitBytes(us[1..]), LeBytes(u, 2));
    }
  }

  // -- Units to UTF-8 ------------------------------------------------------

  /** The bytes ReadString appends for one unit; zero units are skipped. */
  function Utf8Of(u: u16): (b: bytes)
    ensures |b| <= 3
  {
    if u == 0 then []
    else if u <= 0x7f then [u]
    else if u <= 0x7ff then [0xc0 + u / 0x40, 0x80 + u % 0x40]
    else [0xe0 + u / 0x1000, 0x80 + u / 0x40 % 0x40, 0x80 + u % 0x40]
  }

  function Utf8(us: seq<u16>): bytes {
    if us == [] then [] else Utf8Of(us[0]) + Utf8(us[1..])
  }

  /** n units read from position at, or the exception of the first read past the end. */
  function ReadUnits(data: bytes, at: nat, n: nat): (r: Result<seq<u16>, Error>)
    ensures r.Ok? ==> |r.value| == n && at + 2 * n <= |data|
    decreases n
  {
    if n == 0 then (if at <= |data| then Ok([]) else Err(OutOfRange))
    else if at + 2 > |data| then Err(OutOfRange)
    else
      match ReadUnits(data, at + 2, n - 1)
      case Err(e) => Err(e)
      case Ok(us) => Ok([Word16(data, at)] + us)
  }

  /** The units of the string at a position, and where it ends. */
  function UnitsAt(data: bytes, at: nat): (r: Result<(seq<u16>, nat), Error>) {
    if at >= |data| then Err(OutOfRange)
    else
      match ReadUnits(data, at + 1, data[at])
      case Err(e) => Err(e)
      case Ok(us) => Ok((us, at + 1 + 2 * |us|))
  }

  /** What ReadString makes of data from position at: the string and where it ends. */
  function Decode(data: bytes, at: nat): (r: Result<(bytes, nat), Error>) {
    match UnitsAt(data, at)
    case Err(e) => Err(e)
    case Ok((us, end)) => Ok((Utf8(us), end))
  }

  method ReadString(stream: InputStream) returns (r: Result<bytes, Error>)
    modifies stream
    ensures match Decode(stream.data, old(stream.offset))
            case Ok((s, end)) => r == Ok(s) && stream.offset == end
            case Err(e) => r == Err(e)
  {
    var count :- stream.Read8();
    var len: nat := count;
    ghost var data, start := stream.data, stream.offset;
    ghost var seen: seq<u16> := [];
    NoneSeen(data, start, count);
    var str: bytes := [];
    while len > 0
      invariant 0 <= len && |seen| + len == count
      invariant stream.offset == start + 2 * |seen| <= |data|
      invariant Seen(data, start, count, stream.offset, len, seen) && str == Utf8(seen)
    {
      SeenStep(data, start, count, stream.offset, len, seen);
      len := len - 1;
      var ch :- stream.Read16();
      Utf8Snoc(seen, ch);
      seen := seen + [ch];
      str := AppendUnit(str, ch);
    }
    assert seen + [] == seen;
    r := Ok(str);
  }

  /** Where a read of n units stands with len to go at a position. */
  ghost predicate Seen(data: bytes, start: nat, n: nat, at: nat, len: nat, seen: seq<u16>) {
    match ReadUnits(data, at, len)
    case Ok(us) => ReadUnits(data, start, n) == Ok(seen + us)
    case Err(e) => ReadUnits(data, start, n) == Err(e)
  }

  lemma NoneSeen(data: bytes, start: nat, n: nat)
    ensures Seen(data, start, n, start, n, [])
  {
    if ReadUnits(data, start, n).Ok? {
      assert [] + ReadUnits(data, start, n).value == ReadUnits(data, start, n).value;
    }
  }

  lemma SeenStep(data: bytes, start: nat, n: nat, at: nat, len: nat, seen: seq<u16>)
    requires len > 0 && Seen(data, start, n, at, len, seen)
    ensures if at + 2 <= |data| then Seen(data, start, n, at + 2, len - 1, seen + [Word16(data, at)])
            else ReadUnits(data, start, n) == Err(OutOfRange)
  {
    var later := ReadUnits(data, at + 2, len - 1);
    if at + 2 <= |data| && later.Ok? {
      Associative(seen, [Word16(data, at)], later.value);
    }
  }

  /** One turn of the reader's loop. */
  method AppendUnit(str: bytes, ch: u16) returns (r: bytes)
    ensures r == str + Utf8Of(ch)
  {
    r := str;
    if ch == 0 {
      return;
    }
    if ch <= 0x7f {
      r := r + [ch];
    } else if ch <= 0x7ff {
      r := r + [0xc0 + ch / 0x40];
      r := r + [0x80 + ch % 0x40];
    } else {
      r := r + [0xe0 + ch / 0x1000];
      r := r + [0x80 + ch / 0x40 % 0x40];
      r := r + [0x80 + ch % 0x40];
    }
  }

  lemma {:induction false} Utf8Snoc(us: seq<u16>, u: u16)
    ensures Utf8(us + [u]) == Utf8(us) + Utf8Of(u)
  {
    if us == [] {
      assert Utf8([u]) == Utf8Of(u) + Utf8([]);
    } else {
      Utf8Snoc(us[1..], u);
      assert (us + [u])[1..] == us[1..] + [u];
      Associative(Utf8Of(us[0]), Utf8(us[1..]), Utf8Of(u));
    }
  }

  // -- The round trips -----------------------------------------------------

  /** The length of the shortest-form sequence of one to three bytes, NUL excluded, that s
      starts with; 0 if there is none. */
  function SequenceLength(s: bytes): (n: nat)
    ensures n <= |s| && n <= 3
  {
    if s == [] || s[0] == 0 then 0
    else if s[0] < 0x80 then 1
    else if 0xc2 <= s[0] <= 0xdf && |s| >= 2 && IsContinuation(s[1]) then 2
    else if 0xe0 <= s[0] <= 0xef && |s| >= 3 && IsContinuation(s[1]) && IsContinuation(s[2])
            && (s[0] == 0xe0 ==> s[1] >= 0xa0) then 3
    else 0
  }

  /** NUL-free shortest-form UTF-8 without four-byte sequences. Surrogates are let through. */
  predicate WellFormed(s: bytes)
    decreases |s|
  {
    s == [] || (SequenceLength(s) > 0 && WellFormed(s[SequenceLength(s)..]))
  }

  /** One sequence becomes one nonzero unit, and back. */
  lemma SequenceIsUnit(s: bytes)
    requires SequenceLength(s) > 0
    ensures var n, u := SequenceLength(s), UnitOf(s[0], At(s, 1), At(s, 2));
      Step(s[0]) == n && u != 0 && Utf8Of(u) == s[..n]
  {
    var n := SequenceLength(s);
    if n == 1 {
      assert s[..1] == [s[0]];
    } else if n == 2 {
      TwoBytes(s[0], s[1]);
      assert s[..2] == [s[0], s[1]];
    } else {
      ThreeBytes(s[0], s[1], s[2]);
      assert s[..3] == [s[0], s[1], s[2]];
    }
  }

  /** And counts as one character. */
  lemma SequenceCounts(s: bytes)
    requires SequenceLength(s) > 0
    ensures Utf8Length(s) == 1 + Utf8Length(s[SequenceLength(s)..])
  {
    var n := SequenceLength(s);
    assert Utf8Length(s) == 1 + Utf8Length(s[1..]);
    if n >= 2 {
      assert s[1..][1..] == s[2..];
      assert Utf8Length(s[1..]) == Utf8Length(s[2..]);
    }
    if n == 3 {
      assert s[2..][1..] == s[3..];
      assert Utf8Length(s[2..]) == Utf8Length(s[3..]);
    }
  }

  lemma TwoBytes(c0: u8, c1: u8)
    requires 0xc2 <= c0 <= 0xdf && IsContinuation(c1)
    ensures Utf8Of(UnitOf(c0, c1, 0)) == [c0, c1]
    ensures forall c2: u8 :: UnitOf(c0, c1, c2) == UnitOf(c0, c1, 0) != 0
  {
    var a, b := c0 as nat % 0x20, c1 as nat % 0x40;
    var u := UnitOf(c0, c1, 0);
    assert u == a * 0x40 + b && u / 0x40 == a && u % 0x40 == b;
  }

  lemma ThreeBytes(c0: u8, c1: u8, c2: u8)
    requires 0xe0 <= c0 <= 0xef && IsContinuation(c1) && IsContinuation(c2) && (c0 == 0xe0 ==> c1 >= 0xa0)
    ensures Utf8Of(UnitOf(c0, c1, c2)) == [c0, c1, c2] && UnitOf(c0, c1, c2) != 0
  {
    var a, b, c := c0 as nat % 0x10, c1 as nat % 0x40, c2 as nat % 0x40;
    var u := UnitOf(c0, c1, c2);
    assert u == a * 0x1000 + b * 0x40 + c;
    assert u >= 0x800;
    assert u / 0x40 == a * 0x40 + b && u / 0x1000 == a;
  }

  /** A nonzero unit is written as one sequence. */
  lemma UnitIsSequence(u: u16, rest: bytes)
    requires u != 0
    ensures var s := Utf8Of(u) + rest;
      && SequenceLength(s) == |Utf8Of(u)| > 0 && s[SequenceLength(s)..] == rest
      && UnitOf(s[0], At(s, 1), At(s, 2)) == u
  {
    var s := Utf8Of(u) + rest;
    assert s[|Utf8Of(u)|..] == rest;
    hide UnitOf;
    if u <= 0x7ff {
      ShortUnit(u, At(s, 1), At(s, 2));
    } else {
      LongUnit(u);
    }
  }

  lemma ShortUnit(u: u16, c1: u8, c2: u8)
    requires u <= 0x7ff
    ensures u <= 0x7f ==> UnitOf(u, c1, c2) == u
    ensures u > 0x7f ==> UnitOf(0xc0 + u / 0x40, 0x80 + u % 0x40, c2) == u
  {
  }

  lemma LongUnit(u: u16)
    requires u > 0x7ff
    ensures UnitOf(0xe0 + u / 0x1000, 0x80 + u / 0x40 % 0x40, 0x80 + u % 0x40) == u
  {
    assert u / 0x40 / 0x40 == u / 0x1000;
  }

  lemma Utf8Cons(u: u16, us: seq<u16>)
    ensures Utf8([u] + us) == Utf8Of(u) + Utf8(us)
  {
    assert ([u] + us)[1..] == us;
  }

  /** The first sequence of a string is its first unit. */
  lemma UnitsOfSequence(s: bytes, limit: nat)
    requires SequenceLength(s) > 0 && limit > 0
    ensures var rest := Units(s[SequenceLength(s)..], limit - 1);
      && |Units(s, limit)| == 1 + |rest| && (0 in Units(s, limit) <==> 0 in rest)
      && Utf8(Units(s, limit)) == s[..SequenceLength(s)] + Utf8(rest)
  {
    SequenceIsUnit(s);
    Utf8Cons(UnitOf(s[0], At(s, 1), At(s, 2)), Units(s[SequenceLength(s)..], limit - 1));
  }

  lemma {:induction false} UnitsCount(s: bytes, limit: nat)
    requires WellFormed(s) && limit >= Utf8Length(s)
    ensures |Units(s, limit)| == Utf8Length(s) && 0 !in Units(s, limit)
    decreases |s|
  {
    if s != [] {
      SequenceCounts(s);
      UnitsOfSequence(s, limit);
      UnitsCount(s[SequenceLength(s)..], limit - 1);
    }
  }

  lemma {:induction false} UnitsKeepString(s: bytes, limit: nat)
    requires WellFormed(s) && limit >= Utf8Length(s)
    ensures Utf8(Units(s, limit)) == s
    decreases |s|
  {
    if s != [] {
      SequenceCounts(s);
      UnitsOfSequence(s, limit);
      UnitsKeepString(s[SequenceLength(s)..], limit - 1);
      TakeDrop(s, SequenceLength(s));
    }
  }

  lemma UnitsOfWellFormed(s: bytes, limit: nat)
    requires WellFormed(s) && limit >= Utf8Length(s)
    ensures |Units(s, limit)| == Utf8Length(s) && 0 !in Units(s, limit) && Utf8(Units(s, limit)) == s
  {
    UnitsCount(s, limit);
    UnitsKeepString(s, limit);
  }

  lemma {:induction false} Utf8OfUnits(us: seq<u16>, limit: nat)
    requires 0 !in us && limit >= |us|
    ensures WellFormed(Utf8(us)) && Utf8Length(Utf8(us)) == |us| && Units(Utf8(us), limit) == us
  {
    if us != [] {
      Utf8OfUnits(us[1..], limit - 1);
      UnitIsSequence(us[0], Utf8(us[1..]));
      SequenceCounts(Utf8(us));
      SequenceIsUnit(Utf8(us));
    }
  }

  /** Whatever the units, the decoder only produces well-formed strings. */
  lemma {:induction false} DecodedIsWellFormed(us: seq<u16>)
    ensures WellFormed(Utf8(us))
  {
    if us != [] {
      DecodedIsWellFormed(us[1..]);
      if us[0] != 0 {
        UnitIsSequence(us[0], Utf8(us[1..]));
      } else {
        assert Utf8(us) == Utf8(us[1..]);
      }
    }
  }

  lemma WrittenWord(head: bytes, u: u16, rest: bytes)
    ensures var data := head + LeBytes(u, 2) + rest; Word16(data, |head|) == u
  {
    LeBytesHalves(u);
  }

  lemma {:induction false} ReadWrittenUnits(head: bytes, us: seq<u16>, rest: bytes)
    ensures ReadUnits(head + UnitBytes(us) + rest, |head|, |us|) == Ok(us)
    decreases |us|
  {
    if us != [] {
      var unit := LeBytes(us[0], 2);
      ReadWrittenUnits(head + unit, us[1..], rest);
      Associative(head, unit, UnitBytes(us[1..]));
      WrittenWord(head, us[0], UnitBytes(us[1..]) + rest);
      assert head + unit + (UnitBytes(us[1..]) + rest) == head + unit + UnitBytes(us[1..]) + rest;
      assert [us[0]] + us[1..] == us;
    }
  }

  lemma {:induction false} WrittenReadUnits(data: bytes, at: nat, n: nat)
    requires ReadUnits(data, at, n).Ok?
    ensures UnitBytes(ReadUnits(data, at, n).value) == data[at..at + 2 * n]
    decreases n
  {
    if n > 0 {
      WrittenReadUnits(data, at + 2, n - 1);
      LeBytesOfLeValue(data[at..at + 2]);
      Word16IsValue(data, at);
      SliceSplit(data, at, at + 2, at + 2 * n);
    }
  }

  /** The strings WriteString then ReadString bring back. */
  predicate Portable(s: bytes) {
    WellFormed(s) && Utf8Length(s) <= 254
  }

  /** The encoding of a nonempty string as one run of units. */
  lemma EncodedUnits(s: bytes)
    requires WellFormed(s) && s != [] && Encode(s).Ok?
    ensures var us := Units(s, 1 + Utf8Length(s)) + [0];
      |us| == 1 + Utf8Length(s) && Encode(s).value == Counted(us)
  {
    var n: u8 := 1 + Utf8Length(s);
    var us := Units(s, n);
    UnitsCount(s, n);
    UnitBytesSnoc(us, 0);
    LeBytesHalves(0);
    Associative([n], UnitBytes(us), LeBytes(0, 2));
  }

  /** Counted units, wherever they lie. */
  lemma UnitsRoundTrip(head: bytes, us: seq<u16>, rest: bytes)
    requires |us| < 0x100
    ensures UnitsAt(head + Counted(us) + rest, |head|) == Ok((us, |head| + 1 + 2 * |us|))
  {
    var n: u8 := |us|;
    var first: bytes := [n];
    ReadWrittenUnits(head + first, us, rest);
    Associative(head, first, UnitBytes(us));
    assert (head + Counted(us) + rest)[|head|] == Counted(us)[0] == n;
  }

  /** Written anywhere in a message, a portable string is read back from there. */
  lemma EncodePortable(head: bytes, s: bytes, rest: bytes)
    requires Portable(s)
    ensures Encode(s).Ok?
    ensures Decode(head + Encode(s).value + rest, |head|) == Ok((s, |head| + |Encode(s).value|))
  {
    if s == [] {
      assert (head + [0] + rest)[|head|] == 0;
    } else {
      var us := Units(s, 1 + Utf8Length(s));
      UnitsOfWellFormed(s, 1 + Utf8Length(s));
      EncodedUnits(s);
      UnitsRoundTrip(head, us + [0], rest);
      Utf8Snoc(us, 0);
      assert Utf8(us) + [] == Utf8(us);
    }
  }

  /** Writing then reading gives the string back, consuming exactly what was written, for
      every NUL-free shortest-form string of one- to three-byte sequences and at most 254
      characters, and for no other. */
  lemma WriteThenRead(s: bytes)
    ensures (Encode(s).Ok? && Decode(Encode(s).value, 0) == Ok((s, |Encode(s).value|))) <==> Portable(s)
  {
    if Portable(s) {
      EncodePortable([], s, []);
      assert [] + Encode(s).value + [] == Encode(s).value;
    } else if Encode(s).Ok? {
      OnlyWellFormedDecoded(Encode(s).value);
    }
  }

  lemma OnlyWellFormedDecoded(b: bytes)
    ensures Decode(b, 0).Ok? ==> WellFormed(Decode(b, 0).value.0)
  {
    if Decode(b, 0).Ok? {
      DecodedIsWellFormed(ReadUnits(b, 1, b[0]).value);
    }
  }

  // -- Strings that do not survive -------------------------------------------

  /** The turns the writer's loop would take without a limit. */
  function Turns(s: bytes): nat
    decreases |s|
  {
    if s == [] then 0 else 1 + Turns(From(s, Step(s[0])))
  }

  lemma {:induction false} UnitsAreTurns(s: bytes, limit: nat)
    ensures |Units(s, limit)| == if Turns(s) < limit then Turns(s) else limit
    decreases limit
  {
    if s != [] && limit > 0 {
      UnitsAreTurns(From(s, Step(s[0])), limit - 1);
    }
  }

  /** The count in front is that of the units written and the terminator. */
  predicate WellCounted(s: bytes) {
    s == [] || |Units(s, 1 + Utf8Length(s))| == Utf8Length(s)
  }

  /** That is so exactly if the writer takes one turn for each byte that does not continue a
      sequence. */
  lemma WellCountedIff(s: bytes)
    ensures WellCounted(s) <==> Turns(s) == Utf8Length(s)
  {
    UnitsAreTurns(s, 1 + Utf8Length(s));
  }

  /** What a reader makes of the units written for s. */
  function Recoded(s: bytes): bytes {
    Utf8(Units(s, 1 + Utf8Length(s)))
  }

  /** A well-formed string reads back as itself, and no other does. */
  lemma RecodedIff(s: bytes)
    ensures Recoded(s) == s <==> WellFormed(s)
    ensures WellFormed(s) ==> WellCounted(s)
    ensures WellFormed(Recoded(s)) && Recoded(Recoded(s)) == Recoded(s)
  {
    DecodedIsWellFormed(Units(s, 1 + Utf8Length(s)));
    if WellFormed(s) {
      UnitsOfWellFormed(s, 1 + Utf8Length(s));
    }
    UnitsOfWellFormed(Recoded(s), 1 + Utf8Length(Recoded(s)));
  }

  lemma CountedString(s: bytes)
    requires s != [] && Encode(s).Ok? && WellCounted(s)
    ensures var us := Units(s, 1 + Utf8Length(s)) + [0]; |us| < 0x100 && Encode(s).value == Counted(us)
  {
    var n: u8 := 1 + Utf8Length(s);
    var us := Units(s, n);
    UnitBytesSnoc(us, 0);
    LeBytesHalves(0);
    Associative([n], UnitBytes(us), LeBytes(0, 2));
  }

  /** Inside a message a string is read back, as what its units stand for, from exactly its bytes
      if and only if it is well counted; else the read fails or all that follows is displaced. */
  lemma ReadsFromItsBytesIff(head: bytes, s: bytes, rest: bytes)
    requires Encode(s).Ok?
    ensures var r := Decode(head + Encode(s).value + rest, |head|);
      && (r.Ok? && r.value.1 == |head| + |Encode(s).value| <==> WellCounted(s))
      && (WellCounted(s) ==> r.Ok? && r.value.0 == Recoded(s))
  {
    if s == [] {
      assert (head + [0] + rest)[|head|] == 0;
      assert Units(s, 1) == [];
    } else if WellCounted(s) {
      var us := Units(s, 1 + Utf8Length(s));
      CountedString(s);
      UnitsRoundTrip(head, us + [0], rest);
      Utf8Snoc(us, 0);
      assert Utf8(us) + [] == Utf8(us);
    } else {
      var data := head + Encode(s).value + rest;
      assert data[|head|] == Encode(s).value[0] == 1 + Utf8Length(s);
    }
  }

  const EMOJI: bytes := [0xf0, 0x9f, 0x98, 0x80]

  /** A four-byte sequence takes two turns: two question marks under a count of two, the terminator
      uncounted. */
  lemma FourBytes()
    ensures Encode(EMOJI) == Ok([2, 0x3f, 0, 0x3f, 0, 0, 0]) && !WellCounted(EMOJI)
  {
    FourBytesCount();
    LeBytesHalves(0x3f);
    assert Units(EMOJI, 2) == [0x3f] + Units([0x80], 1);
    assert UnitBytes([0x3f]) == [0x3f, 0] + UnitBytes([]);
    assert UnitBytes([0x3f, 0x3f]) == [0x3f, 0] + UnitBytes([0x3f]);
    assert UnitBytes([0x3f, 0x3f]) == [0x3f, 0, 0x3f, 0];
    var n: u8 := 1 + Utf8Length(EMOJI);
    assert Units(EMOJI, n) == [0x3f, 0x3f];
    assert Encode(EMOJI) == Ok([n] + UnitBytes([0x3f, 0x3f]) + [0, 0]);
    assert [n] + UnitBytes([0x3f, 0x3f]) + [0, 0] == [2, 0x3f, 0, 0x3f, 0, 0, 0];
  }

  lemma FourBytesCount()
    ensures Utf8Length(EMOJI) == 1 && EMOJI[3..] == [0x80] && Units([0x80], 1) == [0x3f]
  {
    assert Utf8Length([0x80]) == 0 + Utf8Length([]);
    assert Utf8Length([0x98, 0x80]) == 0 + Utf8Length([0x80]);
    assert Utf8Length([0x9f, 0x98, 0x80]) == 0 + Utf8Length([0x98, 0x80]);
  }

  /** With one more byte behind it, which the second turn swallows, the count is right. */
  lemma FourBytesAndOne()
    ensures var s := [0x61] + EMOJI + [0x62]; WellCounted(s) && Recoded(s) == [0x61, 0x3f, 0x3f]
  {
    var s: bytes := [0x61, 0xf0, 0x9f, 0x98, 0x80, 0x62];
    assert [0x61] + EMOJI + [0x62] == s;
    SwallowedLength();
    SwallowedUnits();
    assert s[1..] == [0xf0, 0x9f, 0x98, 0x80, 0x62];
    assert Units(s, 4) == [0x61, 0x3f, 0x3f];
    AsciiUnits();
  }

  lemma SwallowedLength()
    ensures Utf8Length([0xf0, 0x9f, 0x98, 0x80, 0x62]) == 2
  {
    assert [0x80, 0x62][1..] == [0x62] && [0x98, 0x80, 0x62][1..] == [0x80, 0x62];
    assert [0x9f, 0x98, 0x80, 0x62][1..] == [0x98, 0x80, 0x62];
    assert [0xf0, 0x9f, 0x98, 0x80, 0x62][1..] == [0x9f, 0x98, 0x80, 0x62];
    assert Utf8Length([0x62]) == Utf8Length([0x80, 0x62]) == Utf8Length([0x98, 0x80, 0x62]) == 1;
  }

  lemma SwallowedUnits()
    ensures Units([0xf0, 0x9f, 0x98, 0x80, 0x62], 3) == [0x3f, 0x3f]
  {
    assert [0xf0, 0x9f, 0x98, 0x80, 0x62][3..] == [0x80, 0x62];
    assert Units([0x80, 0x62], 2) == [0x3f] + Units([], 1);
  }

  lemma AsciiUnits()
    ensures Utf8([0x61, 0x3f, 0x3f]) == [0x61, 0x3f, 0x3f]
  {
    assert Utf8([0x3f]) == [0x3f] + Utf8([]);
    assert Utf8([0x3f, 0x3f]) == [0x3f] + Utf8([0x3f]);
    assert Utf8([0x61, 0x3f, 0x3f]) == [0x61] + Utf8([0x3f, 0x3f]);
  }

  /** What a device can hold of a string sent to it alone, as the host reads it back: nothing if it
      refuses it or the string is too big to send, the string its units stand for if it is well
      counted, and otherwise anything that can be read. */
  ghost predicate Stores(sent: bytes, stored: Option<bytes>) {
    stored.Some? ==>
      && Encode(sent).Ok? && WellFormed(stored.value)
      && (WellCounted(sent) ==> stored.value == Recoded(sent))
  }

  /** So it holds what was sent if and only if that is portable. */
  lemma StoredAsSentIff(sent: bytes, stored: bytes)
    requires Stores(sent, Some(stored))
    ensures stored == sent <==> Portable(sent)
  {
    RecodedIff(sent);
  }

  /** Terminated once, at the end, and not there only for the terminator. */
  predicate Canonical(us: seq<u16>) {
    us == [] || (|us| >= 2 && us[|us| - 1] == 0 && 0 !in us[..|us| - 1])
  }

  /** The bytes of a unit sequence come back when its string is written. */
  predicate Rewritten(us: seq<u16>)
    requires |us| < 0x100
  {
    Encode(Utf8(us)) == Ok(Counted(us))
  }

  /** Reading then writing gives the bytes back exactly for canonical unit sequences. */
  lemma ReadThenWrite(b: bytes)
    requires Decode(b, 0).Ok? && Decode(b, 0).value.1 == |b|
    ensures Encode(Decode(b, 0).value.0) == Ok(b) <==> Canonical(ReadUnits(b, 1, b[0]).value)
  {
    var us := ReadUnits(b, 1, b[0]).value;
    BytesOfUnits(b, us);
    CanonicalRewritten(us);
    RewrittenIsCanonical(us);
  }

  lemma BytesOfUnits(b: bytes, us: seq<u16>)
    requires b != [] && ReadUnits(b, 1, b[0]) == Ok(us) && 1 + 2 * |us| == |b|
    ensures |us| == b[0] && b == Counted(us)
  {
    WrittenReadUnits(b, 1, b[0]);
    hide ReadUnits;
    assert 1 + 2 * |us| == |b| && b[1..|b|] == b[1..];
    HeadAndRest(b, 0);
    assert b[0..] == b;
  }

  lemma CanonicalRewritten(us: seq<u16>)
    requires |us| < 0x100
    ensures Canonical(us) ==> Rewritten(us)
  {
    if us == [] {
      assert Counted(us) == [0];
    } else if Canonical(us) {
      var front := us[..|us| - 1];
      assert us == front + [0];
      Utf8Snoc(front, 0);
      Utf8OfUnits(front, |us|);
      assert Utf8(us) == Utf8(front);
      EncodedUnits(Utf8(us));
    }
  }

  lemma RewrittenIsCanonical(us: seq<u16>)
    requires |us| < 0x100
    ensures Rewritten(us) ==> Canonical(us)
  {
    var s := Utf8(us);
    if us != [] && Rewritten(us) {
      DecodedIsWellFormed(us);
      assert s != [];
      var n := 1 + Utf8Length(s);
      EncodedUnits(s);
      CountedInjective(Units(s, n) + [0], us);
      UnitsOfWellFormed(s, n);
      assert us[..|us| - 1] == Units(s, n);
    }
  }

  lemma CountedInjective(a: seq<u16>, b: seq<u16>)
    requires |a| < 0x100 && |b| < 0x100 && Counted(a) == Counted(b)
    ensures a == b
  {
    assert Counted(a)[1..] == UnitBytes(a) && Counted(b)[1..] == UnitBytes(b);
    UnitBytesInjective(a, b);
  }

  lemma {:induction false} UnitBytesInjective(a: seq<u16>, b: seq<u16>)
    requires |a| == |b| && UnitBytes(a) == UnitBytes(b)
    ensures a == b
  {
    if a != [] {
      Pow256Values();
      LeValueOfLeBytes(a[0], 2);
      LeValueOfLeBytes(b[0], 2);
      assert UnitBytes(a)[..2] == LeBytes(a[0], 2) && UnitBytes(b)[..2] == LeBytes(b[0], 2);
      assert UnitBytes(a)[2..] == UnitBytes(a[1..]) && UnitBytes(b)[2..] == UnitBytes(b[1..]);
      UnitBytesInjective(a[1..], b[1..]);
    }
  }
}
