/** Transactions of mtp/ptp/Session.cpp: requests out, one answer in. */
module Transactions {
  import opened Bytes
  import opened Results
  import opened Codec
  import opened Framing
  import opened ObjectStreams
  import opened UsbPackets
  import opened UsbDevice
  import PipePacketer

  const RESPONSE_OK: u16 := 0x2001
  const RESPONSE_SESSION_ALREADY_OPEN: u16 := 0x201e

  // -- Requests and containers ---------------------------------------------

  /** OperationRequest and DataRequest: an opcode, a transaction and parameters. */
  function RequestData(opcode: u16, transaction: u32, params: seq<u32>): bytes {
    LeBytes(opcode, 2) + LeBytes(transaction, 4) + Words(params)
  }

  method MakeRequest(opcode: u16, transaction: u32, params: seq<u32>) returns (data: bytes)
    ensures data == RequestData(opcode, transaction, params)
  {
    var stream := new OutputStream([]);
    stream.Write16(opcode);
    stream.Write32(transaction);
    var i := 0;
    while i < |params|
      invariant 0 <= i <= |params|
      invariant stream.data == LeBytes(opcode, 2) + LeBytes(transaction, 4) + Words(params[..i])
    {
      OneMoreWord(LeBytes(opcode, 2) + LeBytes(transaction, 4), params, i);
      stream.Write32(params[i]);
      i := i + 1;
    }
    assert params[..i] == params;
    data := stream.data;
  }

  lemma OneMoreWord(head: bytes, params: seq<u32>, i: nat)
    requires i < |params|
    ensures head + Words(params[..i + 1]) == head + Words(params[..i]) + LeBytes(params[i], 4)
  {
    WordsSnoc(params[..i], params[i]);
    assert params[..i + 1] == params[..i] + [params[i]];
  }

  /** The bytes of a Container whose payload of extra bytes follows separately. */
  function ContainerData(kind: u16, request: bytes, extra: nat): bytes {
    LeBytes(Saturate(extra + |request| + 6), 4) + LeBytes(kind, 2) + request
  }

  method MakeContainer(kind: u16, request: bytes, extra: nat) returns (data: bytes)
    ensures data == ContainerData(kind, request, extra)
  {
    var stream := new OutputStream([]);
    WriteSize(stream, extra + |request| + 6);
    stream.Write16(kind);
    stream.WriteData(request);
    data := stream.data;
  }

  method WriteSize(stream: OutputStream, size: nat)
    modifies stream
    ensures stream.data == old(stream.data) + LeBytes(Saturate(size), 4)
  {
    var bounded := size;
    if bounded > MAX_SIZE {
      bounded := MAX_SIZE;
    }
    stream.Write32(bounded);
  }

  /** A data container, header and payload together, is the encoding of one data message:
      the length field counts every byte, saturating at 32 bits. */
  lemma DataContainerIsMessage(opcode: u16, t: u32, payload: bytes)
    ensures ContainerData(KIND_DATA, RequestData(opcode, t, []), |payload|) + payload
         == EncodeMessage(DataMessage(opcode, t, payload))
    ensures |ContainerData(KIND_DATA, RequestData(opcode, t, []), |payload|)| == LENGTH_SIZE + HEADER_SIZE
  {
    var request := RequestData(opcode, t, []);
    assert request == LeBytes(opcode, 2) + LeBytes(t, 4);
    assert LeBytes(KIND_DATA, 2) + request == EncodeHeader(Header(KIND_DATA, opcode, t));
    assert ContainerData(KIND_DATA, request, |payload|)
        == LeBytes(Saturate(|payload| + 12), 4) + (LeBytes(KIND_DATA, 2) + request);
  }

  /** The same with the payload appended to the request, as SendObjectInfo does. */
  lemma InlineContainerIsMessage(opcode: u16, t: u32, payload: bytes)
    ensures ContainerData(KIND_DATA, RequestData(opcode, t, []) + payload, 0)
         == EncodeMessage(DataMessage(opcode, t, payload))
  {
    DataContainerIsMessage(opcode, t, payload);
    var request := RequestData(opcode, t, []);
    assert |request + payload| + 6 == |payload| + |request| + 6;
    assert LeBytes(KIND_DATA, 2) + (request + payload) == LeBytes(KIND_DATA, 2) + request + payload;
  }

  /** A command (kind 1) with its opcode, transaction and parameters, four bytes each. */
  ghost predicate IsCommand(m: Message, opcode: u16, id: u32, params: seq<u32>) {
    && m.header == Header(1, opcode, id) && |m.payload| == 4 * |params|
    && forall i | 0 <= i < |params| :: NumberAt(m.payload, 4 * i, 4) == Ok(params[i])
  }

  /** The messages of a request and the transfers they go out in: the command in one, the data, if any
      (kind 2, the same opcode and transaction), in one or two. */
  ghost predicate IsRequest(sent: seq<Message>, ts: seq<bytes>, separate: bool, opcode: u16, id: u32, params: seq<u32>,
                            payload: Option<bytes>) {
    && |sent| == (if payload.Some? then 2 else 1) && ts != [] && ts[0] == EncodeMessage(sent[0])
    && IsCommand(sent[0], opcode, id, params)
    && (payload.Some? ==>
          && sent[1] == Message(Header(2, opcode, id), payload.value)
          && ts[1..] == DataTransfers(separate, sent[1]) && Flatten(ts[1..]) == EncodeMessage(sent[1]))
    && (payload.None? ==> ts[1..] == [])
  }

  /** What is sent to begin a transaction is the encoding of such a command. */
  lemma CommandContainerIsMessage(opcode: u16, t: u32, params: seq<u32>)
    ensures var m := Message(Header(1, opcode, t), Words(params));
      && ContainerData(KIND_COMMAND, RequestData(opcode, t, params), 0) == EncodeMessage(m)
      && IsCommand(m, opcode, t, params)
  {
    hide IsCommand, LeBytes, EncodeHeader, Saturate;
    var request, words, header := RequestData(opcode, t, params), Words(params), EncodeHeader(Header(1, opcode, t));
    var length := LeBytes(Saturate(|request| + 6), 4);
    CommandIs(opcode, t, params);
    CommandBytes(opcode, t, words);
    assert |request| + 6 == 12 + |words|;
    Associative(length, LeBytes(KIND_COMMAND, 2), request);
    Associative(length, header, words);
  }

  lemma CommandIs(opcode: u16, t: u32, params: seq<u32>)
    ensures IsCommand(Message(Header(1, opcode, t), Words(params)), opcode, t, params)
  {
    forall i | 0 <= i < |params|
      ensures NumberAt(Words(params), 4 * i, 4) == Ok(params[i])
    {
      WordAt(params, i);
    }
  }

  lemma CommandBytes(opcode: u16, t: u32, words: bytes)
    ensures LeBytes(KIND_COMMAND, 2) + (LeBytes(opcode, 2) + LeBytes(t, 4) + words) == EncodeHeader(Header(1, opcode, t)) + words
  {
    hide LeBytes;
  }

  function DataMessage(opcode: u16, t: u32, payload: bytes): Message {
    Message(Header(KIND_DATA, opcode, t), payload)
  }

  // -- The two ways of sending data ----------------------------------------

  /** The transfers of one data message, in either mode. */
  function DataTransfers(separate: bool, m: Message): seq<bytes> {
    var b := EncodeMessage(m);
    if separate then [b[..LENGTH_SIZE + HEADER_SIZE], m.payload] else [b]
  }

  /** The packets of consecutive bulk writes. */
  function WritePackets(ts: seq<bytes>, p: nat, size: nat, zeroPacket: bool): seq<bytes>
    requires p > 0 && size > 0
  {
    if ts == [] then [] else BulkPackets(ts[0], p, size, zeroPacket) + WritePackets(ts[1..], p, size, zeroPacket)
  }

  /** Consecutive bulk writes arrive as the transfers they were, and so does what follows them,
      exactly when each of them ends in a short packet. */
  lemma WritesArrive(ts: seq<bytes>, p: nat, size: nat, z: bool, next: bytes)
    requires p > 0 && size > 0
    ensures Transfers(WritePackets(ts, p, size, z) + PacketsOf(next, p), p) == ts + [next]
       <==> forall t | t in ts :: Terminates(|t|, p, size, z)
  {
    if forall t | t in ts :: Terminates(|t|, p, size, z) {
      AllArrive(ts, p, size, z, next);
    } else {
      SomeMerge(ts, p, size, z, next);
    }
  }

  lemma {:induction false} AllArrive(ts: seq<bytes>, p: nat, size: nat, z: bool, next: bytes)
    requires p > 0 && size > 0 && forall t | t in ts :: Terminates(|t|, p, size, z)
    ensures Transfers(WritePackets(ts, p, size, z) + PacketsOf(next, p), p) == ts + [next]
  {
    if ts == [] {
      OneArrives(p, next);
      assert WritePackets([], p, size, z) + PacketsOf(next, p) == PacketsOf(next, p);
    } else {
      assert Terminates(|ts[0]|, p, size, z) && forall t | t in ts[1..] :: t in ts;
      AllArrive(ts[1..], p, size, z, next);
      NextArrives(ts[0], WritePackets(ts[1..], p, size, z), ts[1..], p, next);
      assert ts == [ts[0]] + ts[1..];
    }
  }

  lemma OneArrives(p: nat, next: bytes)
    requires p > 0
    ensures Transfers(PacketsOf(next, p), p) == [next] && Terminated(PacketsOf(next, p), p)
  {
    TransfersOfPackets(next, p, []);
    FirstOfPackets(next, p, []);
    assert PacketsOf(next, p) + [] == PacketsOf(next, p);
    assert Transfers([], p) == [];
  }

  lemma NextArrives(x: bytes, behind: seq<bytes>, ts: seq<bytes>, p: nat, next: bytes)
    requires p > 0 && Transfers(behind + PacketsOf(next, p), p) == ts + [next]
    ensures Transfers(PacketsOf(x, p) + behind + PacketsOf(next, p), p) == [x] + ts + [next]
  {
    Associative(PacketsOf(x, p), behind, PacketsOf(next, p));
    TransfersOfPackets(x, p, behind + PacketsOf(next, p));
    Associative([x], ts, [next]);
  }

  /** Each write that does not end in one runs into the next, so fewer transfers arrive. */
  lemma {:induction false} SomeMerge(ts: seq<bytes>, p: nat, size: nat, z: bool, next: bytes)
    requires p > 0 && size > 0
    ensures var ps := WritePackets(ts, p, size, z) + PacketsOf(next, p);
      && Terminated(ps, p) && |Transfers(ps, p)| <= |ts| + 1
      && ((exists t | t in ts :: !Terminates(|t|, p, size, z)) ==> |Transfers(ps, p)| <= |ts|)
  {
    if ts == [] {
      OneArrives(p, next);
      assert WritePackets([], p, size, z) + PacketsOf(next, p) == PacketsOf(next, p);
    } else {
      SomeMerge(ts[1..], p, size, z, next);
      var rest := WritePackets(ts[1..], p, size, z) + PacketsOf(next, p);
      Associative(BulkPackets(ts[0], p, size, z), WritePackets(ts[1..], p, size, z), PacketsOf(next, p));
      assert forall t :: t in ts <==> t == ts[0] || t in ts[1..];
      if Terminates(|ts[0]|, p, size, z) {
        FirstOfPackets(ts[0], p, rest);
      } else {
        RunsInto(ts[0], p, rest);
      }
    }
  }

  lemma {:induction false} RunsInto(x: bytes, p: nat, rest: seq<bytes>)
    requires p > 0 && Multiple(|x|, p) && Terminated(rest, p)
    ensures var ps := FullPackets(x, p) + rest; Terminated(ps, p) && AfterFirst(ps, p) == AfterFirst(rest, p)
    decreases |x|
  {
    var ps := FullPackets(x, p) + rest;
    if x == [] {
      assert ps == rest;
    } else {
      RunsInto(x[p..], p, rest);
      assert ps[0] == x[..p] && ps[1..] == FullPackets(x[p..], p) + rest;
    }
  }

  predicate EndsShort(n: nat, p: nat, size: nat)
    requires p > 0 && size > 0
  {
    n % size == 0 || n % p != 0
  }

  /** So the modes differ for a device without zero packets: a data message arrives as it was sent
      if and only if its one transfer ends short, or its header and its payload both do. */
  lemma ModeArrives(separate: bool, m: Message, p: nat, size: nat, z: bool, next: bytes)
    requires p > 0 && size > 0
    ensures var ts := DataTransfers(separate, m);
      Transfers(WritePackets(ts, p, size, z) + PacketsOf(next, p), p) == ts + [next]
      <==> z || (if separate then EndsShort(12, p, size) && EndsShort(|m.payload|, p, size)
                 else EndsShort(12 + |m.payload|, p, size))
  {
    var ts, n := DataTransfers(separate, m), |m.payload|;
    WritesArrive(ts, p, size, z, next);
    MultipleIsMod(12, p);
    MultipleIsMod(12, size);
    MultipleIsMod(n, p);
    MultipleIsMod(n, size);
    MultipleIsMod(12 + n, p);
    MultipleIsMod(12 + n, size);
    assert ts[0] in ts;
    if separate {
      assert ts[1] in ts && |ts[0]| == 12;
    }
  }

  lemma SeparateHeader(opcode: u16, t: u32, payload: bytes)
    ensures DataTransfers(true, DataMessage(opcode, t, payload))
         == [ContainerData(KIND_DATA, RequestData(opcode, t, []), |payload|), payload]
  {
    DataContainerIsMessage(opcode, t, payload);
    var c := ContainerData(KIND_DATA, RequestData(opcode, t, []), |payload|);
    assert (c + payload)[..LENGTH_SIZE + HEADER_SIZE] == c;
  }

  /** The bytes on the pipe are the same in both modes. */
  lemma SameBytes(separate: bool, m: Message)
    ensures Flatten(DataTransfers(separate, m)) == EncodeMessage(m)
  {
    var b := EncodeMessage(m);
    FlattenOne(b);
    FlattenOne(m.payload);
    assert Flatten([b[..12], m.payload]) == b[..12] + Flatten([m.payload]);
    assert b == b[..12] + m.payload;
  }

  /** A receiver built from the same parsers cannot tell the modes apart, even for an empty
      payload, whose second transfer is then empty. */
  lemma ModesReadTheSame(r: u32, m: Message, rest: seq<bytes>)
    requires m.header.kind == KIND_DATA
    ensures ReadTransfers(r, [], DataTransfers(true, m) + rest)
         == ReadTransfers(r, [], DataTransfers(false, m) + rest)
  {
    var b := EncodeMessage(m);
    FlattenOne(b);
    MessageFacts(r, m);
    ContainerRead(r, [b], rest);
    if m.payload == [] {
      EmptySecondTransfer(r, m, rest);
    } else {
      SameBytes(true, m);
      FlattenOne(b[..12]);
      assert Front([b[..12], m.payload]) == [b[..12]];
      ContainerRead(r, [b[..12], m.payload], rest);
    }
  }

  lemma EmptySecondTransfer(r: u32, m: Message, rest: seq<bytes>)
    requires m.header.kind == KIND_DATA && m.payload == []
    ensures ReadTransfers(r, [], DataTransfers(true, m) + rest)
         == ReadContainer(r, EncodeMessage(m), ReadTransfers(r, [], rest), rest)
  {
    hide Complete, ReadTransfers;
    var b := EncodeMessage(m);
    FlattenOne(b);
    MessageFacts(r, m);
    assert b[..12] == b;
    assert DataTransfers(true, m) + rest == [b] + ([[]] + rest);
    ContainerRead(r, [b], [[]] + rest);
    EmptyTransferSkipped(r, rest);
  }

  lemma EmptyTransferSkipped(r: u32, rest: seq<bytes>)
    ensures ReadTransfers(r, [], [[]] + rest) == ReadTransfers(r, [], rest)
  {
    var none: bytes := [];
    ReadStep(r, [], [none], rest);
    assert none + none == none && [none][1..] + rest == rest;
    var after := ReadTransfers(r, [], rest);
    assert [] + after.delivered == after.delivered;
  }

  // -- The session ---------------------------------------------------------

  datatype CallResult =
    | Success(data: bytes, response: bytes)
    | Refused(code: u16)          // InvalidResponseException
    | Failed(outcome: Outcome)    // the read itself threw
    | NotSupported

  predicate Accepted(code: u16) {
    code == RESPONSE_OK || code == RESPONSE_SESSION_ALREADY_OPEN
  }

  /** What the caller of a transaction sees. */
  function ResultOf(data: bytes, outcome: Outcome): CallResult {
    match outcome
    case Answer(code, response) => if Accepted(code) then Success(data, response) else Refused(code)
    case _ => Failed(outcome)
  }

  /** Success for the codes OK and session-already-open, with the data and the response's parameters; any
      other answer is refused under its code. */
  predicate SeenAs(data: bytes, outcome: Outcome, r: CallResult) {
    match outcome
    case Answer(code, response) =>
      if code == 0x2001 || code == 0x201e then r == Success(data, response) else r == Refused(code)
    case _ => r == Failed(outcome)
  }

  lemma ResultIsSeen(data: bytes, outcome: Outcome)
    ensures SeenAs(data, outcome, ResultOf(data, outcome))
  {
  }

  /** A call for transaction id that found packets ps got r: what the specification reader
      delivers and how it ends, even for a pipe that ends inside a transfer. Transfers behind an
      answer are still in the pipe. */
  ghost predicate Served(id: u32, ps: seq<bytes>, pipe: BulkPipe, r: CallResult)
    requires pipe.Valid() && WellSized(ps, pipe.packetSize)
    reads pipe
  {
    var p := pipe.packetSize;
    var want := PipePacketer.WantedOf(id, ps, p, pipe.blockSize);
    && SeenAs(want.delivered, want.outcome, r)
    && (want.outcome.Answer? ==> Transfers(pipe.incoming, p) == want.unread && Tail(pipe.incoming, p) == Tail(ps, p))
    && (want.outcome.Starved? ==> pipe.incoming == [])
  }

  class Session {
    const pipe: BulkPipe
    const supported: set<u16>
    const separateBulkWrites: bool
    var nextTransactionId: u32
    var transaction: Option<u32>

    constructor (pipe: BulkPipe, supported: set<u16>, separateBulkWrites: bool)
      ensures this.pipe == pipe && this.supported == supported
      ensures this.separateBulkWrites == separateBulkWrites
      ensures nextTransactionId == 1 && transaction == None
    {
      this.pipe, this.supported, this.separateBulkWrites := pipe, supported, separateBulkWrites;
      nextTransactionId, transaction := 1, None;
    }

    /** SetCurrentTransaction with a transaction; the counter is 32 bits wide. */
    method Begin() returns (id: u32)
      modifies this`nextTransactionId, this`transaction
      ensures id == old(nextTransactionId) && transaction == Some(id)
      ensures nextTransactionId == Next(id)
    {
      id := nextTransactionId;
      nextTransactionId := if nextTransactionId == 0xffff_ffff then 0 else nextTransactionId + 1;
      transaction := Some(id);
    }

    /** The destructor of Transaction. */
    method End()
      modifies this`transaction
      ensures transaction == None
    {
      transaction := None;
    }

    /** PipePacketer::Write of a byte array. */
    method WriteArray(data: bytes)
      requires pipe.Valid()
      modifies pipe`outgoing
      ensures pipe.outgoing == old(pipe.outgoing) + BulkPackets(data, pipe.packetSize, pipe.blockSize, pipe.zeroPacket)
    {
      var source := new ByteSource(data);
      WriteBulk(pipe, Plain(source));
    }

    /** Session::Send. */
    method Send(opcode: u16, id: u32, params: seq<u32>) returns (ghost sent: seq<Message>, ghost ts: seq<bytes>)
      requires pipe.Valid()
      modifies pipe`outgoing
      ensures pipe.outgoing == old(pipe.outgoing) + WritePackets(ts, pipe.packetSize, pipe.blockSize, pipe.zeroPacket)
      ensures |sent| == |ts| == 1 && ts[0] == EncodeMessage(sent[0]) && IsCommand(sent[0], opcode, id, params)
    {
      CommandContainerIsMessage(opcode, id, params);
      sent := [Message(Header(1, opcode, id), Words(params))];
      ts := [EncodeMessage(sent[0])];
      OneWrite(ts[0], pipe.packetSize, pipe.blockSize, pipe.zeroPacket);
      var request := MakeRequest(opcode, id, params);
      var data := MakeContainer(KIND_COMMAND, request, 0);
      WriteArray(data);
    }

    /** The container in one bulk write, its payload in the next. */
    method WriteSeparately(container: bytes, input: ByteSource)
      requires pipe.Valid() && input.Valid() && input.offset == 0
      modifies pipe`outgoing, input
      ensures pipe.outgoing == old(pipe.outgoing)
           + WritePackets([container, input.data], pipe.packetSize, pipe.blockSize, pipe.zeroPacket)
    {
      ghost var p, size, z := pipe.packetSize, pipe.blockSize, pipe.zeroPacket;
      TwoWrites(container, input.data, p, size, z);
      Associative(pipe.outgoing, BulkPackets(container, p, size, z), BulkPackets(input.data, p, size, z));
      WriteArray(container);
      WriteBulk(pipe, Plain(input));
    }

    /** The data phase of RunTransactionWithDataRequest and SendObject. */
    method SendData(opcode: u16, id: u32, input: ByteSource)
      requires pipe.Valid() && input.Valid() && input.offset == 0
      modifies pipe`outgoing, input
      ensures pipe.outgoing == old(pipe.outgoing)
           + WritePackets(DataTransfers(separateBulkWrites, DataMessage(opcode, id, input.data)),
                          pipe.packetSize, pipe.blockSize, pipe.zeroPacket)
    {
      var request := MakeRequest(opcode, id, []);
      var container := MakeContainer(KIND_DATA, request, input.GetSize());
      ghost var p, size, z, payload := pipe.packetSize, pipe.blockSize, pipe.zeroPacket, input.data;
      DataContainerIsMessage(opcode, id, payload);
      if separateBulkWrites {
        SeparateHeader(opcode, id, payload);
        WriteSeparately(container, input);
      } else {
        OneWrite(container + payload, p, size, z);
        var head := new ByteSource(container);
        var both := new JoinedSource(head, input);
        WriteBulk(pipe, Joined(both));
      }
    }

    /** The legacy data phase of SendObjectInfo. */
    method SendInline(opcode: u16, id: u32, payload: bytes)
      requires pipe.Valid()
      modifies pipe`outgoing
      ensures pipe.outgoing == old(pipe.outgoing)
           + WritePackets(DataTransfers(separateBulkWrites, DataMessage(opcode, id, payload)),
                          pipe.packetSize, pipe.blockSize, pipe.zeroPacket)
    {
      var request := MakeRequest(opcode, id, []);
      ghost var p, size, z := pipe.packetSize, pipe.blockSize, pipe.zeroPacket;
      if separateBulkWrites {
        SeparateHeader(opcode, id, payload);
        var source := new ByteSource(payload);
        var container := MakeContainer(KIND_DATA, request, source.GetSize());
        WriteSeparately(container, source);
      } else {
        InlineContainerIsMessage(opcode, id, payload);
        var container := MakeContainer(KIND_DATA, request + payload, 0);
        OneWrite(container, p, size, z);
        WriteArray(container);
      }
    }

    /** Session::Get: the read, then CHECK_RESPONSE. */
    method Get(id: u32) returns (r: CallResult)
      requires pipe.Valid()
      modifies pipe`incoming
      ensures pipe.Valid()
      ensures Served(id, old(pipe.incoming), pipe, r)
    {
      hide SeenAs, Accepted;
      var data := new ByteSink();
      var outcome := PipePacketer.Read(pipe, id, data);
      assert data.data == PipePacketer.WantedOf(id, old(pipe.incoming), pipe.packetSize, pipe.blockSize).delivered;
      ResultIsSeen(data.data, outcome);
      match outcome {
        case Answer(code, response) =>
          r := if Accepted(code) then Success(data.data, response) else Refused(code);
        case _ =>
          r := Failed(outcome);
      }
    }

    /** The command, then the data. */
    method SendRequest(opcode: u16, id: u32, params: seq<u32>, input: Option<ByteSource>)
      returns (ghost sent: seq<Message>, ghost ts: seq<bytes>)
      requires pipe.Valid() && (input.Some? ==> input.value.Valid() && input.value.offset == 0)
      modifies pipe`outgoing
      modifies if input.Some? then {input.value} else {}
      ensures pipe.outgoing == old(pipe.outgoing) + WritePackets(ts, pipe.packetSize, pipe.blockSize, pipe.zeroPacket)
      ensures IsRequest(sent, ts, separateBulkWrites, opcode, id, params, if input.Some? then Some(input.value.data) else None)
    {
      hide IsCommand, WritePackets;
      ghost var p, size, z := pipe.packetSize, pipe.blockSize, pipe.zeroPacket;
      sent, ts := Send(opcode, id, params);
      if input.Some? {
        ghost var m := DataMessage(opcode, id, input.value.data);
        ghost var data := DataTransfers(separateBulkWrites, m);
        assert ts == [ts[0]];
        SameBytes(separateBulkWrites, m);
        OneMoreMessage(ts[0], data, p, size, z);
        Associative(old(pipe.outgoing), WritePackets(ts, p, size, z), WritePackets(data, p, size, z));
        SendData(opcode, id, input.value);
        sent, ts := sent + [m], ts + data;
        assert ts[1..] == data;
      }
    }

    /** RunTransactionWithDataRequest. The packets the device sends in the meantime are
        a parameter; an unsupported operation touches nothing. */
    method RunTransaction(opcode: u16, params: seq<u32>, input: Option<ByteSource>, reply: seq<bytes>)
      returns (r: CallResult, ghost sent: seq<Message>, ghost ts: seq<bytes>)
      requires pipe.Valid() && WellSized(reply, pipe.packetSize)
      requires input.Some? ==> input.value.Valid() && input.value.offset == 0
      modifies this`nextTransactionId, this`transaction, pipe
      modifies if input.Some? then {input.value} else {}
      ensures pipe.Valid() && (old(transaction) == None ==> transaction == None)
      ensures opcode !in supported ==>
        && r == NotSupported && nextTransactionId == old(nextTransactionId)
        && pipe.outgoing == old(pipe.outgoing) && pipe.incoming == old(pipe.incoming)
      ensures opcode in supported ==>
        var id, p, size, z := old(nextTransactionId), pipe.packetSize, pipe.blockSize, pipe.zeroPacket;
        && nextTransactionId == Next(id)
        && pipe.outgoing == old(pipe.outgoing) + WritePackets(ts, p, size, z)
        && IsRequest(sent, ts, separateBulkWrites, opcode, id, params, if input.Some? then Some(input.value.data) else None)
        && Served(id, old(pipe.incoming) + reply, pipe, r)
    {
      if opcode !in supported {
        return NotSupported, [], [];
      }
      hide Served, IsRequest, IsCommand, WritePackets, DataTransfers;
      var id := Begin();
      sent, ts := SendRequest(opcode, id, params, input);
      pipe.incoming := pipe.incoming + reply;
      r := Get(id);
      End();
    }
  }

  function Next(id: u32): u32 {
    if id == 0xffff_ffff then 0 else id + 1
  }

  /** The counter wraps after 2^32 - 1. */
  lemma CounterWraps(id: u32)
    ensures Next(id) == (id as nat + 1) % 0x1_0000_0000
  {
  }

  // -- Whole runs ----------------------------------------------------------

  /** A call and the transfers the device sends during it, one list a container. */
  datatype Call = Call(opcode: u16, params: seq<u32>, payload: Option<bytes>, reply: seq<seq<bytes>>)

  /** A device never uses a transaction that has not begun. What it owes to earlier ones may
      come at any time, in any order. */
  ghost predicate Begun(id: nat, ms: seq<Message>) {
    forall i | 0 <= i < |ms| :: ms[i].header.transaction <= id || Inert(ms[i])
  }

  ghost predicate Stale(id: nat, ms: seq<Message>) {
    forall i | 0 <= i < |ms| :: ms[i].header.transaction < id || Inert(ms[i])
  }

  /** The device's side of a call: its containers carry sent. */
  ghost predicate Answers(id: nat, call: Call, sent: seq<Message>) {
    CarriesAll(call.reply, sent) && Begun(id, sent)
  }

  /** The pipe holds exactly the containers cs, which carry ms. */
  ghost predicate Holds(pipe: BulkPipe, cs: seq<seq<bytes>>, ms: seq<Message>)
    reads pipe
  {
    && pipe.Valid() && CarriesAll(cs, ms)
    && Transfers(pipe.incoming, pipe.packetSize) == Flatten(cs) && Tail(pipe.incoming, pipe.packetSize) == []
  }

  /** What a call returns when nothing but the containers ms was ever in the pipe. */
  function Alone(id: u32, ms: seq<Message>): CallResult {
    var s := Serve(id, ms);
    ResultOf(s.data, OutcomeOf(s.answer))
  }

  /** The device's side of a run; ids count up from first, and refused calls take none. */
  ghost predicate AnswersAll(supported: set<u16>, first: nat, calls: seq<Call>, sent: seq<seq<Message>>)
    decreases |calls|
  {
    && |calls| == |sent|
    && (calls != [] ==>
          if calls[0].opcode in supported
          then Answers(first, calls[0], sent[0]) && AnswersAll(supported, first + 1, calls[1..], sent[1..])
          else AnswersAll(supported, first, calls[1..], sent[1..]))
  }

  /** The counter is 32 bits wide. */
  function Wrapped(id: nat): u32 {
    id % 0x1_0000_0000
  }

  /** How many transactions a run begins. */
  function Begins(supported: set<u16>, calls: seq<Call>): nat {
    if calls == [] then 0 else (if calls[0].opcode in supported then 1 else 0) + Begins(supported, calls[1..])
  }

  /** What the calls of a run return if each gets what was sent for it and nothing else. */
  function AllAlone(supported: set<u16>, first: nat, calls: seq<Call>, sent: seq<seq<Message>>): seq<CallResult>
    requires |calls| == |sent| && first + Begins(supported, calls) <= 0x1_0000_0000
    decreases |calls|
  {
    if calls == [] then []
    else if calls[0].opcode in supported
    then [Alone(first, Own(first, sent[0]))] + AllAlone(supported, first + 1, calls[1..], sent[1..])
    else [NotSupported] + AllAlone(supported, first, calls[1..], sent[1..])
  }

  /** No cross-talk: over any run of calls, until the counter wraps, every call returns what its
      own containers alone would make it return, whatever earlier calls, failed ones included,
      left in the pipe, and whatever the device still sends for them in the middle of later ones. */
  method Run(s: Session, calls: seq<Call>, ghost first: nat, ghost sent: seq<seq<Message>>,
             ghost left: seq<seq<bytes>>, ghost stale: seq<Message>)
    returns (results: seq<CallResult>)
    requires s.transaction == None && s.nextTransactionId == Wrapped(first) && 0 < first
    requires first + Begins(s.supported, calls) <= 0x1_0000_0000
    requires Holds(s.pipe, left, stale) && Stale(first, stale)
    requires AnswersAll(s.supported, first, calls, sent)
    modifies s`nextTransactionId, s`transaction, s.pipe
    ensures s.transaction == None
    ensures results == AllAlone(s.supported, first, calls, sent)
    decreases |calls|
  {
    if calls == [] {
      return [];
    }
    RunStep(s.supported, first, calls, sent);
    var result, others;
    if calls[0].opcode in s.supported {
      ghost var cs, ms;
      result, cs, ms := RunOne(s, calls[0], sent[0], left, stale);
      others := Run(s, calls[1..], first + 1, sent[1..], cs, ms);
    } else {
      result := Refuse(s, calls[0]);
      others := Run(s, calls[1..], first, sent[1..], left, stale);
    }
    results := [result] + others;
  }

  lemma RunStep(supported: set<u16>, first: nat, calls: seq<Call>, sent: seq<seq<Message>>)
    requires calls != [] && AnswersAll(supported, first, calls, sent)
    requires first + Begins(supported, calls) <= 0x1_0000_0000
    ensures |calls[1..]| == |sent[1..]| && first + Begins(supported, calls[1..]) <= 0x1_0000_0000
    ensures if calls[0].opcode in supported then
        && first < 0x1_0000_0000 && Answers(first, calls[0], sent[0])
        && first + 1 + Begins(supported, calls[1..]) <= 0x1_0000_0000
        && AnswersAll(supported, first + 1, calls[1..], sent[1..])
        && Wrapped(first) == first && Wrapped(first + 1) == Next(first)
        && AllAlone(supported, first, calls, sent)
        == [Alone(first, Own(first, sent[0]))] + AllAlone(supported, first + 1, calls[1..], sent[1..])
      else
        && AnswersAll(supported, first, calls[1..], sent[1..])
        && AllAlone(supported, first, calls, sent)
        == [NotSupported] + AllAlone(supported, first, calls[1..], sent[1..])
  {
  }

  /** What that is, told from the containers (kind 2 is data, kind 3 a response): with the k-th the first
      response of transaction id, the payloads of its data before it and the response's parameters, if
      its code is OK or session-already-open, else the refusal; without any, a read that starved. */
  lemma AloneMeaning(id: u32, ms: seq<Message>, k: nat)
    requires id != 0 && k <= |ms|
    requires forall i | 0 <= i < k :: !(ms[i].header.kind == 3 && ms[i].header.transaction == id)
    requires k < |ms| ==> ms[k].header.kind == 3 && ms[k].header.transaction == id
    ensures Alone(id, ms) ==
      if k == |ms| then Failed(Starved)
      else if ms[k].header.code == 0x2001 || ms[k].header.code == 0x201e
      then Success(Flatten(DataPayloads(id, ms, k)), ms[k].payload)
      else Refused(ms[k].header.code)
  {
    DataIsPayloads(id, ms, k);
    if k < |ms| {
      ServeFirst(id, ms, k);
    } else {
      ServeNone(id, ms);
    }
  }

  /** One call of a run, with everything earlier calls left behind still in the pipe. */
  method RunOne(s: Session, call: Call, ghost sent: seq<Message>, ghost left: seq<seq<bytes>>, ghost stale: seq<Message>)
    returns (result: CallResult, ghost cs: seq<seq<bytes>>, ghost ms: seq<Message>)
    requires s.transaction == None && s.nextTransactionId > 0 && call.opcode in s.supported
    requires Holds(s.pipe, left, stale) && Stale(s.nextTransactionId, stale)
    requires Answers(s.nextTransactionId, call, sent)
    modifies s`nextTransactionId, s`transaction, s.pipe
    ensures s.transaction == None && s.nextTransactionId == Next(old(s.nextTransactionId))
    ensures result == Alone(old(s.nextTransactionId), Own(old(s.nextTransactionId), sent))
    ensures Holds(s.pipe, cs, ms) && Stale(old(s.nextTransactionId) + 1, ms)
  {
    var reply := AllPackets(Flatten(call.reply), s.pipe.packetSize);
    cs, ms := CallEffect(s.nextTransactionId, s.pipe.packetSize, s.pipe.blockSize, s.pipe.incoming, left, stale, call.reply, sent);
    result := Perform(s, call, reply);
  }

  lemma CallEffect(id: u32, p: nat, size: nat, was: seq<bytes>, left: seq<seq<bytes>>, stale: seq<Message>,
                   more: seq<seq<bytes>>, sent: seq<Message>)
    returns (cs: seq<seq<bytes>>, ms: seq<Message>)
    requires id > 0 && p > 0 && size > 0 && Multiple(size, p) && WellSized(was, p)
    requires CarriesAll(left, stale) && CarriesAll(more, sent)
    requires Stale(id, stale) && Begun(id, sent)
    requires Transfers(was, p) == Flatten(left) && Tail(was, p) == []
    ensures var reply := AllPackets(Flatten(more), p);
      && WellSized(reply, p) && Tail(was + reply, p) == []
      && var want := PipePacketer.WantedOf(id, was + reply, p, size);
         && ResultOf(want.delivered, want.outcome) == Alone(id, Own(id, sent))
         && want.outcome != Garbled && want.unread == Flatten(cs)
    ensures CarriesAll(cs, ms) && Stale(id + 1, ms)
  {
    hide Serve, ReadTransfers, Transfers, Tail, Flatten, AllPackets, CarriesAll, Stale, Begun, Own, Alone, ResultOf, Multiple;
    KeptFits(id, left + more, stale + sent, left, stale, more, sent);
    var all, queue := left + more, stale + sent;
    var kept := |Serve(id, queue).rest|;
    cs, ms := all[|all| - kept..], queue[|queue| - kept..];
    CarriesConcat(left, stale, more, sent);
    LeftBehind(id, all, stale, sent, kept, cs, ms);
    Arrive(was, p, left, more);
    PipePacketer.WantedOfWhole(id, was + AllPackets(Flatten(more), p), p, size);
    ReadServes(id, all, queue);
    Isolated(id, ReadTransfers(id, [], Flatten(all)), stale, sent, Flatten(cs));
  }

  lemma KeptFits(id: u32, all: seq<seq<bytes>>, queue: seq<Message>, left: seq<seq<bytes>>, stale: seq<Message>,
                 more: seq<seq<bytes>>, sent: seq<Message>)
    requires CarriesAll(left, stale) && CarriesAll(more, sent) && all == left + more && queue == stale + sent
    ensures |all| == |queue| && |Serve(id, queue).rest| <= |queue|
  {
  }

  method Perform(s: Session, call: Call, reply: seq<bytes>) returns (r: CallResult)
    requires s.transaction == None && call.opcode in s.supported
    requires s.pipe.Valid() && WellSized(reply, s.pipe.packetSize)
    requires Tail(s.pipe.incoming + reply, s.pipe.packetSize) == []
    modifies s`nextTransactionId, s`transaction, s.pipe
    ensures s.pipe.Valid()
    ensures s.transaction == None && s.nextTransactionId == Next(old(s.nextTransactionId))
    ensures Served(old(s.nextTransactionId), old(s.pipe.incoming) + reply, s.pipe, r)
  {
    var input := None;
    if call.payload.Some? {
      var source := new ByteSource(call.payload.value);
      input := Some(source);
    }
    hide Served, IsRequest, WritePackets, Tail;
    ghost var said, ts;
    r, said, ts := s.RunTransaction(call.opcode, call.params, input, reply);
  }

  method Refuse(s: Session, call: Call) returns (r: CallResult)
    requires s.transaction == None && call.opcode !in s.supported && s.pipe.Valid()
    modifies s`nextTransactionId, s`transaction, s.pipe
    ensures r == NotSupported && s.transaction == None && s.nextTransactionId == old(s.nextTransactionId)
    ensures s.pipe.Valid() && s.pipe.incoming == old(s.pipe.incoming)
  {
    ghost var said, ts;
    r, said, ts := s.RunTransaction(call.opcode, call.params, None, []);
  }

  lemma LeftBehind(id: u32, all: seq<seq<bytes>>, stale: seq<Message>, sent: seq<Message>, kept: nat,
                   cs: seq<seq<bytes>>, ms: seq<Message>)
    requires CarriesAll(all, stale + sent) && Stale(id, stale) && Begun(id, sent)
    requires kept <= |all|
    requires cs == all[|all| - kept..] && ms == (stale + sent)[|all| - kept..]
    ensures CarriesAll(cs, ms) && Stale(id + 1, ms)
  {
    assert Stale(id + 1, stale + sent);
    SuffixStale(id + 1, stale + sent, |all| - kept);
    SuffixCarried(all, stale + sent, |all| - kept);
  }

  lemma SuffixStale(id: nat, ms: seq<Message>, n: nat)
    requires n <= |ms| && Stale(id, ms)
    ensures Stale(id, ms[n..])
  {
  }

  lemma Arrive(was: seq<bytes>, p: nat, cs: seq<seq<bytes>>, more: seq<seq<bytes>>)
    requires p > 0
    requires Transfers(was, p) == Flatten(cs) && Tail(was, p) == []
    ensures WellSized(AllPackets(Flatten(more), p), p)
    ensures Transfers(was + AllPackets(Flatten(more), p), p) == Flatten(cs + more)
    ensures Tail(was + AllPackets(Flatten(more), p), p) == []
  {
    AllPacketsFit(Flatten(more), p);
    TransfersRoundTrip(Flatten(more), p);
    TransfersAppend(was, AllPackets(Flatten(more), p), p);
    FlattenConcat(cs, more);
  }

  /** Served with what was left behind and what comes late, a call gets what it would get alone. */
  lemma Isolated(id: u32, want: Reading, stale: seq<Message>, sent: seq<Message>, unread: seq<bytes>)
    requires id > 0 && Stale(id, stale)
    requires var s := Serve(id, stale + sent); want == Reading(s.data, OutcomeOf(s.answer), unread)
    ensures ResultOf(want.delivered, want.outcome) == Alone(id, Own(id, sent))
    ensures want.outcome != Garbled && want.unread == unread
  {
    ForeignIgnored(id, stale, sent);
    OnlyOwnServed(id, sent);
  }

  lemma OneWrite(x: bytes, p: nat, size: nat, z: bool)
    requires p > 0 && size > 0
    ensures WritePackets([x], p, size, z) == BulkPackets(x, p, size, z)
  {
    assert WritePackets([x], p, size, z) == BulkPackets(x, p, size, z) + WritePackets([], p, size, z);
  }

  lemma OneMoreMessage(x: bytes, ts: seq<bytes>, p: nat, size: nat, z: bool)
    requires p > 0 && size > 0
    ensures WritePackets([x], p, size, z) + WritePackets(ts, p, size, z) == WritePackets([x] + ts, p, size, z)
  {
    OneWrite(x, p, size, z);
    assert ([x] + ts)[1..] == ts;
  }

  lemma TwoWrites(x: bytes, y: bytes, p: nat, size: nat, z: bool)
    requires p > 0 && size > 0
    ensures WritePackets([x, y], p, size, z) == BulkPackets(x, p, size, z) + BulkPackets(y, p, size, z)
  {
    OneWrite(y, p, size, z);
    assert [x, y][1..] == [y];
  }
}
