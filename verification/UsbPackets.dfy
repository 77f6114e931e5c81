/** Bulk transfers as the bus sees them: full packets ended by a short or empty one
    (section 5.8.3 of USB 2.0). */
module UsbPackets {
  import opened Bytes
  import opened Results

  /** n is a whole number of d's, by repeated subtraction. */
  predicate Multiple(n: nat, d: nat)
    requires d > 0
  {
    n == 0 || (n >= d && Multiple(n - d, d))
  }

  lemma {:induction false} MultipleAdd(a: nat, b: nat, d: nat)
    requires d > 0 && Multiple(a, d)
    ensures Multiple(a + b, d) <==> Multiple(b, d)
  {
    if a > 0 {
      MultipleAdd(a - d, b, d);
    }
  }

  lemma {:induction false} MultipleOfProduct(q: nat, d: nat)
    requires d > 0
    ensures Multiple(q * d, d)
  {
    if q > 0 {
      MultipleOfProduct(q - 1, d);
      assert (q - 1) * d + d == q * d;
    }
  }

  lemma MultipleIsMod(n: nat, d: nat)
    requires d > 0
    ensures Multiple(n, d) <==> n % d == 0
  {
    MultipleOfProduct(n / d, d);
    assert n == (n / d) * d + n % d;
    MultipleAdd((n / d) * d, n % d, d);
  }

  /** The buffer of a transfer block: as many whole packets as fit in 4096 bytes, at least one. */
  function TransferSize(packetSize: nat): (size: nat)
    requires packetSize > 0
  {
    var whole := 4096 / packetSize * packetSize;
    if packetSize >= whole then packetSize else whole
  }

  /** A positive number of whole packets, for every packet size. */
  lemma TransferSizeFits(packetSize: nat)
    requires packetSize > 0
    ensures TransferSize(packetSize) >= packetSize && Multiple(TransferSize(packetSize), packetSize)
    ensures TransferSize(packetSize) <= 4096 || TransferSize(packetSize) == packetSize
    ensures TransferSize(packetSize) + packetSize > 4096
  {
    MultipleOfProduct(4096 / packetSize, packetSize);
    MultipleOfProduct(1, packetSize);
  }

  /** Full packets, then exactly one short one, which is empty if nothing is left over. */
  function PacketsOf(x: bytes, p: nat): (ps: seq<bytes>)
    requires p > 0
    ensures ps != []
    decreases |x|
  {
    if |x| < p then [x] else [x[..p]] + PacketsOf(x[p..], p)
  }

  /** Full packets only. */
  function FullPackets(x: bytes, p: nat): (ps: seq<bytes>)
    requires p > 0 && Multiple(|x|, p)
    decreases |x|
  {
    if x == [] then [] else [x[..p]] + FullPackets(x[p..], p)
  }

  lemma {:induction false} PacketsJoin(a: bytes, b: bytes, p: nat)
    requires p > 0 && Multiple(|a|, p)
    ensures PacketsOf(a + b, p) == FullPackets(a, p) + PacketsOf(b, p)
    decreases |a|
  {
    if a == [] {
      assert a + b == b;
    } else {
      assert |a| >= p && |a[p..]| == |a| - p;
      PacketsJoin(a[p..], b, p);
      assert (a + b)[..p] == a[..p] && (a + b)[p..] == a[p..] + b;
    }
  }

  lemma {:induction false} FullPacketsJoin(a: bytes, b: bytes, p: nat)
    requires p > 0 && Multiple(|a|, p) && Multiple(|b|, p)
    ensures Multiple(|a + b|, p)
    ensures FullPackets(a + b, p) == FullPackets(a, p) + FullPackets(b, p)
    decreases |a|
  {
    MultipleAdd(|a|, |b|, p);
    if a == [] {
      assert a + b == b;
    } else {
      FullPacketsStep(a, p);
      FullPacketsStep(a + b, p);
      hide FullPackets, Multiple;
      assert (a + b)[..p] == a[..p] && (a + b)[p..] == a[p..] + b;
      FullPacketsJoin(a[p..], b, p);
      Associative([a[..p]], FullPackets(a[p..], p), FullPackets(b, p));
    }
  }

  lemma FullPacketsStep(a: bytes, p: nat)
    requires p > 0 && Multiple(|a|, p) && a != []
    ensures |a| >= p && |a[p..]| == |a| - p && Multiple(|a[p..]|, p)
    ensures FullPackets(a, p) == [a[..p]] + FullPackets(a[p..], p)
  {
  }

  predicate WellSized(ps: seq<bytes>, p: nat) {
    forall q | q in ps :: |q| <= p
  }

  /** Has the transfer at the head of the pipe been ended by a short packet? */
  predicate Terminated(ps: seq<bytes>, p: nat) {
    ps != [] && (|ps[0]| < p || Terminated(ps[1..], p))
  }

  function FirstTransfer(ps: seq<bytes>, p: nat): bytes
    requires Terminated(ps, p)
  {
    if |ps[0]| < p then ps[0] else ps[0] + FirstTransfer(ps[1..], p)
  }

  function AfterFirst(ps: seq<bytes>, p: nat): (rest: seq<bytes>)
    requires Terminated(ps, p)
    ensures |rest| < |ps| && (WellSized(ps, p) ==> WellSized(rest, p))
  {
    if |ps[0]| < p then ps[1..] else AfterFirst(ps[1..], p)
  }

  /** The terminated transfers in a packet stream. */
  function Transfers(ps: seq<bytes>, p: nat): (ts: seq<bytes>)
    decreases |ps|
  {
    if Terminated(ps, p) then [FirstTransfer(ps, p)] + Transfers(AfterFirst(ps, p), p) else []
  }

  /** The packets after the last terminated transfer. */
  function Tail(ps: seq<bytes>, p: nat): (tail: seq<bytes>)
    ensures WellSized(ps, p) ==> WellSized(tail, p)
    decreases |ps|
  {
    if Terminated(ps, p) then Tail(AfterFirst(ps, p), p) else ps
  }

  /** A terminated transfer is recovered exactly, and nothing of what follows. */
  lemma {:induction false} FirstOfPackets(x: bytes, p: nat, rest: seq<bytes>)
    requires p > 0
    ensures var ps := PacketsOf(x, p) + rest;
      Terminated(ps, p) && FirstTransfer(ps, p) == x && AfterFirst(ps, p) == rest
    decreases |x|
  {
    var ps := PacketsOf(x, p) + rest;
    if |x| < p {
      assert ps[1..] == rest;
    } else {
      FirstOfPackets(x[p..], p, rest);
      assert ps[0] == x[..p] && ps[1..] == PacketsOf(x[p..], p) + rest;
      assert x == x[..p] + x[p..];
    }
  }

  lemma TransfersOfPackets(x: bytes, p: nat, rest: seq<bytes>)
    requires p > 0
    ensures Transfers(PacketsOf(x, p) + rest, p) == [x] + Transfers(rest, p)
    ensures Tail(PacketsOf(x, p) + rest, p) == Tail(rest, p)
  {
    FirstOfPackets(x, p, rest);
  }

  /** The packets of several transfers, one after the other. */
  function AllPackets(ts: seq<bytes>, p: nat): seq<bytes>
    requires p > 0
  {
    if ts == [] then [] else PacketsOf(ts[0], p) + AllPackets(ts[1..], p)
  }

  lemma {:induction false} PacketsFit(x: bytes, p: nat)
    requires p > 0
    ensures WellSized(PacketsOf(x, p), p)
    decreases |x|
  {
    if |x| >= p {
      PacketsFit(x[p..], p);
    }
  }

  lemma {:induction false} AllPacketsFit(ts: seq<bytes>, p: nat)
    requires p > 0
    ensures WellSized(AllPackets(ts, p), p)
  {
    if ts != [] {
      PacketsFit(ts[0], p);
      AllPacketsFit(ts[1..], p);
    }
  }

  /** Cutting transfers into packets loses no boundary. */
  lemma {:induction false} TransfersRoundTrip(ts: seq<bytes>, p: nat)
    requires p > 0
    ensures Transfers(AllPackets(ts, p), p) == ts && Tail(AllPackets(ts, p), p) == []
  {
    if ts == [] {
    } else {
      TransfersRoundTrip(ts[1..], p);
      TransfersOfPackets(ts[0], p, AllPackets(ts[1..], p));
    }
  }

  /** Packets that arrive after a terminated stream are read after it. */
  lemma {:induction false} TransfersAppend(a: seq<bytes>, b: seq<bytes>, p: nat)
    requires Tail(a, p) == []
    ensures Transfers(a + b, p) == Transfers(a, p) + Transfers(b, p)
    ensures Tail(a + b, p) == Tail(b, p)
    decreases |a|
  {
    if a == [] {
      assert a + b == b;
    } else {
      var rest := AfterFirst(a, p);
      FirstAppend(a, b, p);
      TransfersAppend(rest, b, p);
      Associative([FirstTransfer(a, p)], Transfers(rest, p), Transfers(b, p));
    }
  }

  lemma {:induction false} FirstAppend(a: seq<bytes>, b: seq<bytes>, p: nat)
    requires Terminated(a, p)
    ensures Terminated(a + b, p)
    ensures FirstTransfer(a + b, p) == FirstTransfer(a, p) && AfterFirst(a + b, p) == AfterFirst(a, p) + b
    decreases |a|
  {
    assert (a + b)[0] == a[0] && (a + b)[1..] == a[1..] + b;
    if |a[0]| >= p {
      FirstAppend(a[1..], b, p);
    }
  }

  // -- One request block ---------------------------------------------------

  /** What the host controller puts on the bus for one outgoing block. */
  function BlockPackets(x: bytes, p: nat, zeroPacket: bool): (ps: seq<bytes>)
    requires p > 0
  {
    if x != [] && Multiple(|x|, p) && !zeroPacket then FullPackets(x, p) else PacketsOf(x, p)
  }

  /** What an incoming block with this much room receives, and the packets left:
      it completes when it is full or a short packet arrives. */
  function BlockRead(ps: seq<bytes>, p: nat, room: nat): (r: Option<(bytes, seq<bytes>)>)
    requires p > 0 && Multiple(room, p) && WellSized(ps, p)
    ensures r.Some? ==> |r.value.0| <= room && WellSized(r.value.1, p) && |r.value.1| <= |ps|
    ensures r.Some? && room > 0 ==> |r.value.1| < |ps|
    decreases room
  {
    if room == 0 then Some(([], ps))
    else if ps == [] then None
    else if |ps[0]| < p then Some((ps[0], ps[1..]))
    else
      match BlockRead(ps[1..], p, room - p)
      case None => None
      case Some((data, rest)) => Some((ps[0] + data, rest))
  }

  /** A block is either filled from inside the transfer or ends with it. */
  lemma {:induction false} BlockReadMeaning(ps: seq<bytes>, p: nat, room: nat)
    requires p > 0 && Multiple(room, p) && WellSized(ps, p)
    ensures match BlockRead(ps, p, room)
            case None => !Terminated(ps, p)
            case Some((data, rest)) =>
              if |data| == room then Continues(ps, p, data, rest)
              else Terminated(ps, p) && data == FirstTransfer(ps, p) && rest == AfterFirst(ps, p)
    decreases room
  {
    if room > 0 && ps != [] && |ps[0]| >= p {
      BlockReadMeaning(ps[1..], p, room - p);
      match BlockRead(ps[1..], p, room - p)
      case None =>
      case Some((data, rest)) =>
        if |data| == room - p && Terminated(rest, p) {
          Associative(ps[0], data, FirstTransfer(rest, p));
        }
    }
  }

  /** data is a proper start of the transfer and rest is what remains of the stream. */
  predicate Continues(ps: seq<bytes>, p: nat, data: bytes, rest: seq<bytes>) {
    && (Terminated(ps, p) <==> Terminated(rest, p))
    && (Terminated(ps, p) ==>
          && FirstTransfer(ps, p) == data + FirstTransfer(rest, p)
          && AfterFirst(ps, p) == AfterFirst(rest, p))
  }

  /** What a read in blocks of `size` hands on of a transfer that never ends: the bytes of the
      blocks it fills. */
  function Blocks(ps: seq<bytes>, p: nat, size: nat): bytes
    requires p > 0 && size > 0 && Multiple(size, p) && WellSized(ps, p)
    decreases |ps|
  {
    match BlockRead(ps, p, size)
    case None => []
    case Some((data, rest)) => data + Blocks(rest, p, size)
  }

  /** The bytes a read gets: its transfer, or what it is handed of one that never ends. */
  function Arrives(ps: seq<bytes>, p: nat, size: nat): bytes
    requires p > 0 && size > 0 && Multiple(size, p) && WellSized(ps, p)
  {
    if Terminated(ps, p) then FirstTransfer(ps, p) else Blocks(ps, p, size)
  }

  /** These are its first bytes, as many as make up whole blocks. */
  lemma {:induction false} BlocksAreWhole(ps: seq<bytes>, p: nat, size: nat)
    requires p > 0 && size > 0 && Multiple(size, p) && WellSized(ps, p) && !Terminated(ps, p)
    ensures var handed := Blocks(ps, p, size);
      handed <= Flatten(ps) && Multiple(|handed|, size) && |Flatten(ps)| - |handed| < size
    decreases |ps|
  {
    BlockReadMeaning(ps, p, size);
    match BlockRead(ps, p, size)
    case None => TooShort(ps, p, size);
    case Some((data, rest)) =>
      BlockIsPrefix(ps, p, size);
      BlocksAreWhole(rest, p, size);
      PrefixBehind(data, Blocks(rest, p, size), Flatten(rest));
  }

  lemma PrefixBehind(front: bytes, a: bytes, b: bytes)
    requires a <= b
    ensures front + a <= front + b
  {
  }

  lemma {:induction false} TooShort(ps: seq<bytes>, p: nat, room: nat)
    requires p > 0 && Multiple(room, p) && WellSized(ps, p) && !Terminated(ps, p)
    requires BlockRead(ps, p, room).None?
    ensures |Flatten(ps)| < room
    decreases room
  {
    if ps != [] {
      TooShort(ps[1..], p, room - p);
    }
  }

  lemma {:induction false} BlockIsPrefix(ps: seq<bytes>, p: nat, room: nat)
    requires p > 0 && Multiple(room, p) && WellSized(ps, p) && BlockRead(ps, p, room).Some?
    ensures var (data, rest) := BlockRead(ps, p, room).value; Flatten(ps) == data + Flatten(rest)
    decreases room
  {
    if room > 0 && |ps[0]| >= p {
      BlockIsPrefix(ps[1..], p, room - p);
      var (data, rest) := BlockRead(ps[1..], p, room - p).value;
      Associative(ps[0], data, Flatten(rest));
    }
  }

  // -- Sending -------------------------------------------------------------

  /** With blocks of this size. */
  predicate Terminates(n: nat, p: nat, size: nat, zeroPacket: bool)
    requires p > 0 && size > 0
  {
    zeroPacket || Multiple(n, size) || !Multiple(n, p)
  }

  /** The packets of one bulk write of x. */
  function BulkPackets(x: bytes, p: nat, size: nat, zeroPacket: bool): (ps: seq<bytes>)
    requires p > 0 && size > 0
  {
    if Terminates(|x|, p, size, zeroPacket) then PacketsOf(x, p) else FullPackets(x, p)
  }

  /** A bulk write arrives as the one transfer it was exactly when the device announced zero
      packets, or the length is a multiple of the block size, or it is not one of the packet size;
      else it runs into the next. */
  lemma BulkWriteIsOneTransfer(x: bytes, p: nat, size: nat, zeroPacket: bool, next: bytes)
    requires p > 0 && size > 0
    ensures Transfers(BulkPackets(x, p, size, zeroPacket) + PacketsOf(next, p), p)
         == if zeroPacket || |x| % size == 0 || |x| % p != 0 then [x, next] else [x + next]
  {
    MultipleIsMod(|x|, p);
    MultipleIsMod(|x|, size);
    assert PacketsOf(next, p) + [] == PacketsOf(next, p);
    TransfersOfPackets(next, p, []);
    assert Transfers([], p) == [];
    if Terminates(|x|, p, size, zeroPacket) {
      TransfersOfPackets(x, p, PacketsOf(next, p));
      assert [x] + ([next] + []) == [x, next];
    } else {
      PacketsJoin(x, next, p);
      assert PacketsOf(x + next, p) + [] == PacketsOf(x + next, p);
      TransfersOfPackets(x + next, p, []);
    }
  }
}
