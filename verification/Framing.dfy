/** What a run of bulk transfers means, at three levels: transfers, containers
    (length-framed byte strings) and
    messages. Everything here is independent of buffers, packets and chunks. */
module Framing {
  import opened Bytes
  import opened Results

  // -- One container, seen as the bytes received so far --------------------

  const LENGTH_SIZE: nat := 4
  const HEADER_SIZE: nat := 8
  const MAX_SIZE: nat := 0xffff_ffff

  const KIND_COMMAND: u16 := 1
  const KIND_DATA: u16 := 2
  const KIND_RESPONSE: u16 := 3

  datatype Header = Header(kind: u16, code: u16, transaction: u32)

  function DecodeHeader(b: bytes): (h: Header)
    requires |b| == HEADER_SIZE
  {
    Header(Word16(b, 0), Word16(b, 2), Word32(b, 4))
  }

  function EncodeHeader(h: Header): (b: bytes)
    ensures |b| == HEADER_SIZE
  {
    LeBytes(h.kind, 2) + LeBytes(h.code, 2) + LeBytes(h.transaction, 4)
  }

  lemma HeaderRoundTrip(h: Header)
    ensures DecodeHeader(EncodeHeader(h)) == h
  {
    var b := EncodeHeader(h);
    Pow256Values();
    LeValueOfLeBytes(h.kind, 2);
    LeValueOfLeBytes(h.code, 2);
    LeValueOfLeBytes(h.transaction, 4);
    var kind, code, transaction := LeBytes(h.kind, 2), LeBytes(h.code, 2), LeBytes(h.transaction, 4);
    assert b == kind + code + transaction;
    assert b[0..2] == kind && b[2..4] == code && b[4..8] == transaction;
    Word16IsValue(b, 0);
    Word16IsValue(b, 2);
    Word32IsValue(b, 4);
  }

  datatype Route = Undecided | ToData | ToResponse | Drop

  /** Where the payload of a container with this header goes; transaction 0 disables the filter. */
  function Choose(t: u32, h: Header): Route {
    if t != 0 && t != h.transaction then Drop
    else if h.kind == KIND_DATA then ToData
    else if h.kind == KIND_RESPONSE then ToResponse
    else Drop
  }

  /** The same decision for what follows the length field. */
  function Routed(t: u32, body: bytes): Route {
    if |body| < HEADER_SIZE then Undecided else Choose(t, DecodeHeader(body[..HEADER_SIZE]))
  }

  function Payload(body: bytes): bytes {
    if |body| < HEADER_SIZE then [] else body[HEADER_SIZE..]
  }

  function Body(cur: bytes): bytes {
    if |cur| < LENGTH_SIZE then [] else cur[LENGTH_SIZE..]
  }

  function Declared(cur: bytes): nat {
    if |cur| < LENGTH_SIZE then LENGTH_SIZE else LeValue(cur[..LENGTH_SIZE])
  }

  /** A length field that does not even cover itself. */
  predicate Malformed(cur: bytes) {
    Declared(cur) < LENGTH_SIZE
  }

  predicate Complete(cur: bytes) {
    |cur| >= Declared(cur)
  }

  /** What the bytes so far put into the caller's sink. */
  function Delivered(t: u32, cur: bytes): bytes {
    if Routed(t, Body(cur)) == ToData then Payload(Body(cur)) else []
  }

  predicate Answered(t: u32, cur: bytes) {
    Routed(t, Body(cur)) == ToResponse
  }

  function CodeOf(cur: bytes): (code: u16)
    requires |cur| >= LENGTH_SIZE + HEADER_SIZE
  {
    DecodeHeader(Body(cur)[..HEADER_SIZE]).code
  }

  // -- Transfers -----------------------------------------------------------

  datatype Outcome =
    | Answer(code: u16, response: bytes)
    | Starved    // the pipe ran dry first
    | Garbled    // a malformed length field

  /** Bytes added to the sink, how the read ended, transfers left in the pipe. */
  datatype Reading = Reading(delivered: bytes, outcome: Outcome, unread: seq<bytes>)

  function After(first: bytes, r: Reading): Reading {
    r.(delivered := first + r.delivered)
  }

  /** The part of Delivered(t, now) that was not there when only cur had arrived. */
  function Fresh(t: u32, cur: bytes, now: bytes): bytes {
    if |Delivered(t, cur)| <= |Delivered(t, now)| then Delivered(t, now)[|Delivered(t, cur)|..] else []
  }

  /** Reading transfer by transfer, cur being the current container so far. */
  function ReadTransfers(t: u32, cur: bytes, ts: seq<bytes>): (r: Reading)
    ensures r.outcome.Starved? ==> r.unread == []
    decreases ts
  {
    if ts == [] then Reading([], Starved, [])
    else
      var now := cur + ts[0];
      if Malformed(now) then Reading([], Garbled, ts[1..])
      else if Answered(t, now) then Reading([], Answer(CodeOf(now), Payload(Body(now))), ts[1..])
      else After(Fresh(t, cur, now), ReadTransfers(t, if Complete(now) then [] else now, ts[1..]))
  }

  /** The same for a pipe that ends inside a transfer: of its bytes, `tail` was handed on before
      the read timed out. */
  function ReadPipe(t: u32, cur: bytes, ts: seq<bytes>, tail: bytes): (r: Reading)
    ensures r.outcome.Starved? ==> r.unread == []
    decreases ts
  {
    if ts == [] then
      var now := cur + tail;
      if Malformed(now) then Reading([], Garbled, []) else Reading(Fresh(t, cur, now), Starved, [])
    else
      var now := cur + ts[0];
      if Malformed(now) then Reading([], Garbled, ts[1..])
      else if Answered(t, now) then Reading([], Answer(CodeOf(now), Payload(Body(now))), ts[1..])
      else After(Fresh(t, cur, now), ReadPipe(t, if Complete(now) then [] else now, ts[1..], tail))
  }

  /** Nothing behind the last transfer adds nothing. */
  lemma {:induction false} NoTail(t: u32, cur: bytes, ts: seq<bytes>)
    requires !Malformed(cur)
    ensures ReadPipe(t, cur, ts, []) == ReadTransfers(t, cur, ts)
    decreases ts
  {
    assert cur + [] == cur;
    if ts != [] && !Malformed(cur + ts[0]) {
      var now := cur + ts[0];
      NoTail(t, if Complete(now) then [] else now, ts[1..]);
    }
  }

  // -- Containers ----------------------------------------------------------

  function Front<T>(ts: seq<T>): seq<T>
    requires ts != []
  {
    ts[..|ts| - 1]
  }

  /** These transfers carry exactly one container: the declared length is reached
      by the last of them and not before. The field may be less than the true
      length, as it is for payloads too big for 32 bits. */
  ghost predicate Framed(ts: seq<bytes>) {
    && ts != []
    && var b := Flatten(ts);
    && LENGTH_SIZE <= |b| && LENGTH_SIZE <= Declared(b) <= |b|
    && |Flatten(Front(ts))| < Declared(b)
  }

  /** Only the transfer that completes the header may carry response parameters. */
  ghost predicate Unsplit(t: u32, ts: seq<bytes>)
    requires ts != []
  {
    Answered(t, Flatten(ts)) ==> |Flatten(Front(ts))| < LENGTH_SIZE + HEADER_SIZE
  }

  ghost predicate Readable(t: u32, ts: seq<bytes>) {
    Framed(ts) && Unsplit(t, ts)
  }

  function ReadContainer(t: u32, b: bytes, rest: Reading, unread: seq<bytes>): Reading {
    if Answered(t, b) then Reading([], Answer(CodeOf(b), Payload(Body(b))), unread)
    else After(Delivered(t, b), rest)
  }

  lemma PrefixFacts(t: u32, cur: bytes, whole: bytes)
    requires cur <= whole
    ensures LENGTH_SIZE <= |cur| ==> Declared(cur) == Declared(whole)
    ensures Body(cur) <= Body(whole)
    ensures |cur| >= LENGTH_SIZE + HEADER_SIZE ==> Routed(t, Body(cur)) == Routed(t, Body(whole))
    ensures Delivered(t, cur) <= Delivered(t, whole)
  {
    if LENGTH_SIZE <= |cur| {
      assert cur[..LENGTH_SIZE] == whole[..LENGTH_SIZE];
    }
    if |cur| >= LENGTH_SIZE + HEADER_SIZE {
      assert Body(cur)[..HEADER_SIZE] == Body(whole)[..HEADER_SIZE];
    }
  }

  /** With cur received, exactly ts complete the container. */
  ghost predicate Remaining(cur: bytes, ts: seq<bytes>, whole: bytes) {
    && ts != [] && whole == cur + Flatten(ts)
    && LENGTH_SIZE <= |whole| && LENGTH_SIZE <= Declared(whole) <= |whole|
    && |cur| + |Flatten(Front(ts))| < Declared(whole)
  }

  lemma RemainingStep(cur: bytes, ts: seq<bytes>, whole: bytes)
    requires Remaining(cur, ts, whole)
    ensures cur + ts[0] <= whole && !Malformed(cur + ts[0])
    ensures |ts| == 1 ==> cur + ts[0] == whole && Complete(whole)
    ensures |ts| > 1 ==> !Complete(cur + ts[0]) && Remaining(cur + ts[0], ts[1..], whole)
    ensures |ts| > 1 ==> |cur| + |Flatten(Front(ts))| == |cur + ts[0]| + |Flatten(Front(ts[1..]))|
  {
    var now := cur + ts[0];
    assert whole == now + Flatten(ts[1..]);
    if LENGTH_SIZE <= |now| {
      assert now[..LENGTH_SIZE] == whole[..LENGTH_SIZE];
    }
    if |ts| > 1 {
      assert Front(ts)[0] == ts[0] && Front(ts)[1..] == Front(ts[1..]);
    }
  }

  lemma ReadStep(t: u32, cur: bytes, ts: seq<bytes>, rest: seq<bytes>)
    requires ts != []
    ensures var now := cur + ts[0];
      ReadTransfers(t, cur, ts + rest)
      == if Malformed(now) then Reading([], Garbled, ts[1..] + rest)
         else if Answered(t, now) then Reading([], Answer(CodeOf(now), Payload(Body(now))), ts[1..] + rest)
         else After(Fresh(t, cur, now),
                    ReadTransfers(t, if Complete(now) then [] else now, ts[1..] + rest))
  {
    assert (ts + rest)[0] == ts[0];
    assert (ts + rest)[1..] == ts[1..] + rest;
  }

  /** One container, however it was cut, from any point in it. */
  lemma {:induction false} ContainerFrom(t: u32, cur: bytes, ts: seq<bytes>, whole: bytes, rest: seq<bytes>)
    requires Remaining(cur, ts, whole)
    requires Answered(t, whole) ==> |cur| + |Flatten(Front(ts))| < LENGTH_SIZE + HEADER_SIZE
    ensures ReadTransfers(t, cur, ts + rest)
         == if Answered(t, whole) then Reading([], Answer(CodeOf(whole), Payload(Body(whole))), rest)
            else After(Fresh(t, cur, whole), ReadTransfers(t, [], rest))
    decreases ts
  {
    var now := cur + ts[0];
    RemainingStep(cur, ts, whole);
    ReadStep(t, cur, ts, rest);
    if |ts| == 1 {
      assert ts[1..] + rest == rest;
    } else {
      ContainerFrom(t, now, ts[1..], whole, rest);
      PrefixFacts(t, now, whole);
      PrefixFacts(t, cur, now);
      assert !Answered(t, now);
      if !Answered(t, whole) {
        FreshJoins(t, cur, now, whole, ReadTransfers(t, [], rest));
      }
    }
  }

  lemma FreshJoins(t: u32, cur: bytes, now: bytes, whole: bytes, r: Reading)
    requires cur <= now <= whole
    ensures After(Fresh(t, cur, now), After(Fresh(t, now, whole), r)) == After(Fresh(t, cur, whole), r)
  {
    PrefixFacts(t, cur, now);
    PrefixFacts(t, now, whole);
    PrefixesJoin(Delivered(t, cur), Delivered(t, now), Delivered(t, whole), r.delivered);
  }

  lemma PrefixesJoin(a: bytes, b: bytes, c: bytes, tail: bytes)
    requires a <= b <= c
    ensures b[|a|..] + (c[|b|..] + tail) == c[|a|..] + tail
  {
    assert c == b + c[|b|..];
  }

  /** Reading the transfers of a container is reading the container. */
  lemma ContainerRead(t: u32, ts: seq<bytes>, rest: seq<bytes>)
    requires Readable(t, ts)
    ensures ReadTransfers(t, [], ts + rest)
         == ReadContainer(t, Flatten(ts), ReadTransfers(t, [], rest), rest)
  {
    var whole := Flatten(ts);
    assert [] + whole == whole;
    ContainerFrom(t, [], ts, whole, rest);
    assert Delivered(t, []) == [];
    assert Fresh(t, [], whole) == Delivered(t, whole);
  }

  /** Splitting a response after its header loses parameters: it is read whole
      exactly when the transfer that completes the header is its last. */
  lemma {:induction false} ResponseReadWholeIffUnsplit(t: u32, ts: seq<bytes>, rest: seq<bytes>)
    requires Framed(ts) && Answered(t, Flatten(ts))
    ensures ReadTransfers(t, [], ts + rest)
         == Reading([], Answer(CodeOf(Flatten(ts)), Payload(Body(Flatten(ts)))), rest)
       <==> Unsplit(t, ts)
  {
    if Unsplit(t, ts) {
      ContainerRead(t, ts, rest);
    } else {
      assert [] + Flatten(ts) == Flatten(ts);
      StopsEarly(t, [], ts, Flatten(ts), rest);
    }
  }

  lemma {:induction false} StopsEarly(t: u32, cur: bytes, ts: seq<bytes>, whole: bytes, rest: seq<bytes>)
    requires Remaining(cur, ts, whole) && Answered(t, whole)
    requires |cur| < LENGTH_SIZE + HEADER_SIZE <= |cur| + |Flatten(Front(ts))|
    ensures |ReadTransfers(t, cur, ts + rest).unread| > |rest|
    decreases ts
  {
    var now := cur + ts[0];
    RemainingStep(cur, ts, whole);
    ReadStep(t, cur, ts, rest);
    PrefixFacts(t, now, whole);
    assert |ts| > 1;
    if |now| < LENGTH_SIZE + HEADER_SIZE {
      StopsEarly(t, now, ts[1..], whole, rest);
    }
  }

  /** The reader over whole containers; each is given as its transfers. */
  ghost function ReadContainers(t: u32, cs: seq<seq<bytes>>): Reading {
    if cs == [] then Reading([], Starved, [])
    else ReadContainer(t, Flatten(cs[0]), ReadContainers(t, cs[1..]), Flatten(cs[1..]))
  }

  /** Any cutting of any containers into transfers reads the same. */
  lemma {:induction false} Reassembly(t: u32, cs: seq<seq<bytes>>)
    requires forall c | c in cs :: Readable(t, c)
    ensures ReadTransfers(t, [], Flatten(cs)) == ReadContainers(t, cs)
  {
    if cs == [] {
    } else {
      Reassembly(t, cs[1..]);
      ContainerRead(t, cs[0], Flatten(cs[1..]));
    }
  }

  // -- Messages ------------------------------------------------------------

  datatype Message = Message(header: Header, payload: bytes)

  function Saturate(size: nat): u32 {
    if size > MAX_SIZE then MAX_SIZE else size
  }

  function EncodeMessage(m: Message): (b: bytes)
    ensures |b| == LENGTH_SIZE + HEADER_SIZE + |m.payload|
  {
    LeBytes(Saturate(LENGTH_SIZE + HEADER_SIZE + |m.payload|), 4) + EncodeHeader(m.header) + m.payload
  }

  lemma MessageFacts(t: u32, m: Message)
    ensures var b := EncodeMessage(m);
      && Declared(b) == Saturate(|b|)
      && Routed(t, Body(b)) == Choose(t, m.header)
      && (Answered(t, b) <==> IsAnswer(t, m))
      && Delivered(t, b) == (if IsData(t, m) then m.payload else [])
      && Payload(Body(b)) == m.payload
      && CodeOf(b) == m.header.code
  {
    var b := EncodeMessage(m);
    Pow256Values();
    LeValueOfLeBytes(Saturate(|b|), 4);
    assert b[..4] == LeBytes(Saturate(|b|), 4);
    assert Body(b) == EncodeHeader(m.header) + m.payload;
    assert Body(b)[..HEADER_SIZE] == EncodeHeader(m.header);
    HeaderRoundTrip(m.header);
  }

  /** A response of transaction t; 0 stands for any. */
  predicate IsAnswer(t: u32, m: Message) {
    m.header.kind == 3 && (t == 0 || m.header.transaction == t)
  }

  /** Data of transaction t. */
  predicate IsData(t: u32, m: Message) {
    m.header.kind == 2 && (t == 0 || m.header.transaction == t)
  }

  /** The payloads meant for transaction t, end to end. */
  function DataOf(t: u32, ms: seq<Message>): bytes {
    if ms == [] then []
    else (if IsData(t, ms[0]) then ms[0].payload else []) + DataOf(t, ms[1..])
  }

  /** Transfers ts carry message m, cut anywhere that keeps a response's parameters
      with its header and, when the length saturates, leaves the first 4 GiB to the last cut. */
  ghost predicate Carries(ts: seq<bytes>, m: Message) {
    && ts != [] && Flatten(ts) == EncodeMessage(m)
    && |Flatten(Front(ts))| < Saturate(|EncodeMessage(m)|)
    && (m.header.kind == KIND_RESPONSE ==> |Flatten(Front(ts))| < LENGTH_SIZE + HEADER_SIZE)
  }

  ghost predicate CarriesAll(cs: seq<seq<bytes>>, ms: seq<Message>) {
    |cs| == |ms| && forall i {:trigger Carries(cs[i], ms[i])} | 0 <= i < |ms| :: Carries(cs[i], ms[i])
  }

  lemma SuffixCarried(cs: seq<seq<bytes>>, ms: seq<Message>, n: nat)
    requires n <= |ms| && CarriesAll(cs, ms)
    ensures CarriesAll(cs[n..], ms[n..])
  {
    forall i | 0 <= i < |ms| - n
      ensures Carries(cs[n..][i], ms[n..][i])
    {
      assert Carries(cs[n + i], ms[n + i]);
    }
  }

  lemma CarriesConcat(cs: seq<seq<bytes>>, ms: seq<Message>, more: seq<seq<bytes>>, sent: seq<Message>)
    requires CarriesAll(cs, ms) && CarriesAll(more, sent)
    ensures CarriesAll(cs + more, ms + sent)
  {
    forall i | 0 <= i < |ms + sent|
      ensures Carries((cs + more)[i], (ms + sent)[i])
    {
      if i < |ms| {
        assert Carries(cs[i], ms[i]);
      } else {
        assert Carries(more[i - |ms|], sent[i - |ms|]);
      }
    }
  }

  lemma CarriedIsReadable(t: u32, ts: seq<bytes>, m: Message)
    requires Carries(ts, m)
    ensures Readable(t, ts)
  {
    MessageFacts(t, m);
  }

  /** A read over messages: the data it collects, the response it stops at, what it leaves. */
  datatype Service = Service(data: bytes, answer: Option<Message>, rest: seq<Message>)

  function Serve(t: u32, queue: seq<Message>): (s: Service)
    ensures |s.rest| <= |queue|
  {
    if queue == [] then Service([], None, [])
    else if IsAnswer(t, queue[0]) then Service([], Some(queue[0]), queue[1..])
    else
      var s := Serve(t, queue[1..]);
      s.(data := (if IsData(t, queue[0]) then queue[0].payload else []) + s.data)
  }

  /** The outcome a caller of the reader sees. */
  function OutcomeOf(answer: Option<Message>): Outcome {
    match answer
    case None => Starved
    case Some(m) => Answer(m.header.code, m.payload)
  }

  /** One message, read from the transfers that carry it. */
  lemma ReadOne(t: u32, ts: seq<bytes>, m: Message, rest: seq<bytes>)
    requires Carries(ts, m)
    ensures ReadTransfers(t, [], ts + rest)
         == if IsAnswer(t, m) then Reading([], Answer(m.header.code, m.payload), rest)
            else After(if IsData(t, m) then m.payload else [], ReadTransfers(t, [], rest))
  {
    CarriedIsReadable(t, ts, m);
    ContainerRead(t, ts, rest);
    MessageFacts(t, m);
  }

  /** The containers after the one that answers. */
  function Left(t: u32, cs: seq<seq<bytes>>, ms: seq<Message>): seq<seq<bytes>>
    requires |cs| == |ms|
  {
    if ms == [] then [] else if IsAnswer(t, ms[0]) then cs[1..] else Left(t, cs[1..], ms[1..])
  }

  lemma {:induction false} LeftIsRest(t: u32, cs: seq<seq<bytes>>, ms: seq<Message>)
    requires |cs| == |ms|
    ensures Left(t, cs, ms) == cs[|cs| - |Serve(t, ms).rest|..]
  {
    if ms == [] {
    } else if IsAnswer(t, ms[0]) {
      assert |cs| - |ms[1..]| == 1;
    } else {
      LeftIsRest(t, cs[1..], ms[1..]);
    }
  }

  lemma {:induction false} ReadLeaves(t: u32, cs: seq<seq<bytes>>, ms: seq<Message>)
    requires CarriesAll(cs, ms)
    ensures var s := Serve(t, ms);
      ReadTransfers(t, [], Flatten(cs)) == Reading(s.data, OutcomeOf(s.answer), Flatten(Left(t, cs, ms)))
  {
    if ms != [] {
      assert Carries(cs[0], ms[0]);
      ReadOne(t, cs[0], ms[0], Flatten(cs[1..]));
      if !IsAnswer(t, ms[0]) {
        SuffixCarried(cs, ms, 1);
        ReadLeaves(t, cs[1..], ms[1..]);
      }
    }
  }

  /** Reading transfers that carry messages is serving those messages. */
  lemma ReadServes(t: u32, cs: seq<seq<bytes>>, ms: seq<Message>)
    requires CarriesAll(cs, ms)
    ensures var s := Serve(t, ms);
      ReadTransfers(t, [], Flatten(cs))
      == Reading(s.data, OutcomeOf(s.answer), Flatten(cs[|cs| - |s.rest|..]))
  {
    ReadLeaves(t, cs, ms);
    LeftIsRest(t, cs, ms);
  }

  /** What serving means when k is the first response of the transaction: all data of the
      transaction before it, that response, and nothing after it touched. */
  lemma {:induction false} ServeFirst(t: u32, ms: seq<Message>, k: nat)
    requires k < |ms| && IsAnswer(t, ms[k]) && forall i | 0 <= i < k :: !IsAnswer(t, ms[i])
    ensures Serve(t, ms) == Service(DataOf(t, ms[..k]), Some(ms[k]), ms[k + 1..])
  {
    if k > 0 {
      ServeFirst(t, ms[1..], k - 1);
      assert ms[1..][..k - 1] == ms[..k][1..];
    }
  }

  /** And when there is none: everything is consumed. */
  lemma {:induction false} ServeNone(t: u32, ms: seq<Message>)
    requires forall i | 0 <= i < |ms| :: !IsAnswer(t, ms[i])
    ensures Serve(t, ms) == Service(DataOf(t, ms), None, [])
  {
    if ms != [] {
      ServeNone(t, ms[1..]);
    }
  }

  /** The payloads of the data containers (kind 2) of transaction t among the first k, nothing for
      any other. */
  function DataPayloads(t: u32, ms: seq<Message>, k: nat): (ps: seq<bytes>)
    requires k <= |ms|
    ensures |ps| == k
    ensures forall i | 0 <= i < k ::
      ps[i] == if ms[i].header.kind == 2 && (t == 0 || ms[i].header.transaction == t) then ms[i].payload else []
  {
    seq(k, i requires 0 <= i < k => if IsData(t, ms[i]) then ms[i].payload else [])
  }

  lemma {:induction false} DataIsPayloads(t: u32, ms: seq<Message>, k: nat)
    requires k <= |ms|
    ensures DataOf(t, ms[..k]) == Flatten(DataPayloads(t, ms, k))
    decreases k
  {
    if k > 0 {
      DataIsPayloads(t, ms[1..], k - 1);
      assert ms[..k][1..] == ms[1..][..k - 1];
      assert DataPayloads(t, ms, k)[1..] == DataPayloads(t, ms[1..], k - 1);
    }
  }

  /** The whole read path at message level. Let the k-th container be the first response (kind 3) of
      transaction t, or of any if t is 0: a read collects the payloads of the transaction's data
      before it, one after the other, ends with its code and payload, and leaves the containers
      after it. */
  lemma ReadMeaning(t: u32, cs: seq<seq<bytes>>, ms: seq<Message>, k: nat)
    requires CarriesAll(cs, ms) && k < |ms|
    requires ms[k].header.kind == 3 && (t == 0 || ms[k].header.transaction == t)
    requires forall i | 0 <= i < k :: !(ms[i].header.kind == 3 && (t == 0 || ms[i].header.transaction == t))
    ensures ReadTransfers(t, [], Flatten(cs))
         == Reading(Flatten(DataPayloads(t, ms, k)), Answer(ms[k].header.code, ms[k].payload), Flatten(cs[k + 1..]))
  {
    ReadServes(t, cs, ms);
    ServeFirst(t, ms, k);
    DataIsPayloads(t, ms, k);
    assert |cs| - |ms[k + 1..]| == k + 1;
  }

  /** And if there is none it starves, with all the transaction's data collected. */
  lemma ReadWithoutAnswer(t: u32, cs: seq<seq<bytes>>, ms: seq<Message>)
    requires CarriesAll(cs, ms)
    requires forall i | 0 <= i < |ms| :: !(ms[i].header.kind == 3 && (t == 0 || ms[i].header.transaction == t))
    ensures ReadTransfers(t, [], Flatten(cs)) == Reading(Flatten(DataPayloads(t, ms, |ms|)), Starved, [])
  {
    ReadServes(t, cs, ms);
    ServeNone(t, ms);
    DataIsPayloads(t, ms, |ms|);
    assert ms[..|ms|] == ms && cs[|cs|..] == [];
  }

  /** A number of two or four bytes, least significant first. */
  function Number(b: bytes): nat
    requires |b| == 2 || |b| == 4
  {
    if |b| == 2 then b[0] as nat + 0x100 * b[1] as nat
    else b[0] as nat + 0x100 * b[1] as nat + 0x1_0000 * b[2] as nat + 0x100_0000 * b[3] as nat
  }

  lemma NumberIsValue(b: bytes)
    requires |b| == 2 || |b| == 4
    ensures LeValue(b) == Number(b)
  {
    if |b| == 2 {
      Word16IsValue(b, 0);
      assert b[0..2] == b;
    } else {
      Word32IsValue(b, 0);
      assert b[0..4] == b;
    }
  }

  /** Byte for byte: the length of everything, at most 2^32 - 1, the kind, the code and the transaction,
      each least significant byte first, then the payload. */
  lemma WireForm(m: Message)
    ensures var b := EncodeMessage(m);
      && |b| == 12 + |m.payload| && b[12..] == m.payload
      && Number(b[0..4]) == (if |b| < 0x1_0000_0000 then |b| else 0xffff_ffff)
      && Number(b[4..6]) == m.header.kind && Number(b[6..8]) == m.header.code && Number(b[8..12]) == m.header.transaction
  {
    var b, h := EncodeMessage(m), m.header;
    var length, kind, code, transaction :=
      LeBytes(Saturate(12 + |m.payload|), 4), LeBytes(h.kind, 2), LeBytes(h.code, 2), LeBytes(h.transaction, 4);
    Pow256Values();
    LeValueOfLeBytes(Saturate(|b|), 4);
    LeValueOfLeBytes(h.kind, 2);
    LeValueOfLeBytes(h.code, 2);
    LeValueOfLeBytes(h.transaction, 4);
    assert b == length + kind + code + transaction + m.payload;
    assert b[0..4] == length && b[4..6] == kind && b[6..8] == code && b[8..12] == transaction;
    NumberIsValue(length);
    NumberIsValue(kind);
    NumberIsValue(code);
    NumberIsValue(transaction);
  }

  /** The first four bytes are a length that does not cover itself exactly if they say 0 to 3. */
  lemma MalformedIff(b: bytes)
    ensures Malformed(b) <==> |b| >= 4 && b[0] < 4 && b[1] == b[2] == b[3] == 0
  {
    if |b| >= 4 {
      Word32IsValue(b, 0);
      assert b[0..4] == b[..4];
    }
  }

  // -- Other transactions --------------------------------------------------

  /** Belongs to another transaction. */
  predicate Foreign(t: u32, m: Message) {
    m.header.transaction != t
  }

  /** Neither data nor a response: a command or an event. */
  predicate Inert(m: Message) {
    m.header.kind != KIND_DATA && m.header.kind != KIND_RESPONSE
  }

  lemma ServeSkips(t: u32, m: Message, ms: seq<Message>)
    requires !IsAnswer(t, m) && !IsData(t, m)
    ensures Serve(t, [m] + ms) == Serve(t, ms)
  {
    assert ([m] + ms)[1..] == ms;
    assert [] + Serve(t, ms).data == Serve(t, ms).data;
  }

  /** Containers of other transactions, left over or interleaved, change nothing
      as long as the filter is on; events and commands never do. */
  lemma {:induction false} ForeignIgnored(t: u32, stale: seq<Message>, ms: seq<Message>)
    requires t != 0 && forall i | 0 <= i < |stale| :: Foreign(t, stale[i]) || Inert(stale[i])
    ensures Serve(t, stale + ms) == Serve(t, ms)
  {
    if stale == [] {
      assert stale + ms == ms;
    } else {
      ForeignIgnored(t, stale[1..], ms);
      ServeSkips(t, stale[0], stale[1..] + ms);
      assert stale + ms == [stale[0]] + (stale[1..] + ms);
    }
  }

  /** What a device sends of transaction t. */
  function Own(t: u32, ms: seq<Message>): seq<Message> {
    if ms == [] then [] else (if Foreign(t, ms[0]) then [] else [ms[0]]) + Own(t, ms[1..])
  }

  /** Wherever containers of other transactions come in between, a read for t collects and ends
      as if t's own were alone in the pipe. */
  lemma {:induction false} OnlyOwnServed(t: u32, ms: seq<Message>)
    requires t != 0
    ensures Serve(t, ms).data == Serve(t, Own(t, ms)).data
    ensures Serve(t, ms).answer == Serve(t, Own(t, ms)).answer
  {
    if ms != [] {
      OnlyOwnServed(t, ms[1..]);
      assert ms == [ms[0]] + ms[1..];
      if Foreign(t, ms[0]) {
        ServeSkips(t, ms[0], ms[1..]);
        assert [] + Own(t, ms[1..]) == Own(t, ms[1..]);
      } else {
        SameService(t, ms[0], ms[1..], Own(t, ms[1..]));
      }
    }
  }

  lemma SameService(t: u32, m: Message, a: seq<Message>, b: seq<Message>)
    requires Serve(t, a).data == Serve(t, b).data && Serve(t, a).answer == Serve(t, b).answer
    ensures Serve(t, [m] + a).data == Serve(t, [m] + b).data && Serve(t, [m] + a).answer == Serve(t, [m] + b).answer
  {
    assert ([m] + a)[1..] == a && ([m] + b)[1..] == b;
  }

  /** A left-over container that no later read can notice. */
  ghost predicate Ignored(t: u32, stale: Message) {
    forall ms: seq<Message> :: Serve(t, [stale] + ms) == Serve(t, ms)
  }

  /** Transaction 0 turns the filter off: a stale response is then taken for the answer. */
  lemma FilterNeedsNonzero(t: u32, stale: Message)
    requires Foreign(t, stale) && stale.header.kind == KIND_RESPONSE
    ensures Ignored(t, stale) <==> t != 0
  {
    if t != 0 {
      forall ms: seq<Message>
        ensures Serve(t, [stale] + ms) == Serve(t, ms)
      {
        ForeignIgnored(t, [stale], ms);
      }
    } else {
      StaleAnswers(stale);
    }
  }

  lemma StaleAnswers(stale: Message)
    requires stale.header.kind == KIND_RESPONSE
    ensures !Ignored(0, stale)
  {
    var none: seq<Message> := [];
    var queue := [stale] + none;
    assert queue[0] == stale && IsAnswer(0, stale);
    assert Serve(0, queue).answer != Serve(0, none).answer;
  }
}
