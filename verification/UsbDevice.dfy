/** WriteBulk and ReadBulk of mtp/backend/linux/usb/Device.cpp over a pipe of packets. */
module UsbDevice {
  import opened Bytes
  import opened Results
  import opened Framing
  import opened ObjectStreams
  import opened Parsers
  import opened UsbPackets

  /** One request block: a buffer reused for every block of a call. */
  class Urb {
    const buffer: array<u8>
    var length: nat          // bytes to send, or bytes received

    constructor (size: nat)
      ensures fresh(buffer) && buffer.Length == size && length == 0
    {
      buffer := new u8[size](_ => 0);
      length := 0;
    }

    predicate Valid()
      reads this
    {
      length <= buffer.Length
    }

    function Data(): bytes
      requires Valid()
      reads this, buffer
    {
      buffer[..length]
    }

    /** Urb::Send. */
    method Send(source: Source, size: nat) returns (r: nat)
      requires source.Valid() && size <= buffer.Length
      requires {this, buffer} !! source.Objects()
      modifies this, buffer, source.Objects()
      ensures source.Valid() && Valid()
      ensures r == Min(size, |old(source.Left())|)
      ensures Data() == old(source.Left())[..r] && source.Left() == old(source.Left())[r..]
    {
      r := source.Read(buffer, size);
      length := r;
    }

    /** Urb::Recv. */
    method Recv(sink: MessageParser) returns (r: Result<nat, Outcome>)
      requires Valid() && sink.Valid() && {this, buffer} !! sink.Own()
      modifies sink.Own(), sink.stream.dataOutput
      ensures r == if Malformed(old(sink.fed) + old(Data())) then Err(Garbled) else Ok(|old(Data())|)
      ensures r.Ok? ==> sink.Valid() && sink.fed == old(sink.fed) + old(Data())
      ensures r.Err? ==> |old(sink.fed)| < LENGTH_SIZE
      ensures r.Err? ==> sink.stream.dataOutput.data == sink.stream.base
    {
      r := sink.Write(buffer[..length]);
    }
  }

  /** The two bulk endpoints, as the packets in flight. */
  class BulkPipe {
    const packetSize: nat
    const blockSize: nat         // of the buffer each request block gets
    const zeroPacket: bool       // USBDEVFS_CAP_ZERO_PACKET
    var outgoing: seq<bytes>
    var incoming: seq<bytes>

    constructor (packetSize: nat, zeroPacket: bool, incoming: seq<bytes>)
      requires packetSize > 0 && WellSized(incoming, packetSize)
      ensures Valid() && this.packetSize == packetSize && this.zeroPacket == zeroPacket
      ensures blockSize == TransferSize(packetSize)
      ensures this.outgoing == [] && this.incoming == incoming
    {
      TransferSizeFits(packetSize);
      this.packetSize, this.blockSize, this.zeroPacket := packetSize, TransferSize(packetSize), zeroPacket;
      this.outgoing, this.incoming := [], incoming;
    }

    predicate Valid()
      reads this
    {
      0 < packetSize <= blockSize && Multiple(blockSize, packetSize) && WellSized(incoming, packetSize)
    }

    method SubmitOut(urb: Urb, zeroPacketFlag: bool)
      requires Valid() && urb.Valid()
      modifies this`outgoing
      ensures outgoing == old(outgoing) + BlockPackets(urb.Data(), packetSize, zeroPacketFlag)
    {
      outgoing := outgoing + BlockPackets(urb.buffer[..urb.length], packetSize, zeroPacketFlag);
    }

    /** A block that does not fill up times out; the packets it had taken are lost with it. */
    method SubmitIn(urb: Urb) returns (ok: bool)
      requires Valid() && Multiple(urb.buffer.Length, packetSize)
      modifies this`incoming, urb, urb.buffer
      ensures Valid()
      ensures match BlockRead(old(incoming), packetSize, urb.buffer.Length)
              case None => !ok && incoming == []
              case Some((data, rest)) => ok && urb.Valid() && urb.Data() == data && incoming == rest
    {
      match BlockRead(incoming, packetSize, urb.buffer.Length) {
        case None =>
          incoming := [];
          ok := false;
        case Some((data, rest)) =>
          forall k | 0 <= k < |data| {
            urb.buffer[k] := data[k];
          }
          urb.length := |data|;
          incoming := rest;
          ok := true;
      }
    }
  }

  /** Where a bulk write of x in blocks of this size stands with `left` still to be read; done
      once a block came up short. */
  ghost predicate Sending(x: bytes, p: nat, size: nat, zeroPacket: bool, left: bytes, done: bool,
                          before: seq<bytes>, outgoing: seq<bytes>)
    requires p > 0 && size > 0
  {
    && |left| <= |x|
    && var sent := x[..|x| - |left|];
       && x == sent + left
       && (if done then left == [] && outgoing == before + BulkPackets(x, p, size, zeroPacket)
           else Multiple(|sent|, size) && Multiple(|sent|, p) && outgoing == before + FullPackets(sent, p))
  }

  lemma SendingStep(x: bytes, p: nat, size: nat, zeroPacket: bool, left: bytes, r: nat,
                    before: seq<bytes>, outgoing: seq<bytes>)
    requires p > 0 && size > 0 && Multiple(size, p)
    requires Sending(x, p, size, zeroPacket, left, false, before, outgoing)
    requires r == Min(size, |left|)
    ensures var short := r != size;
      Sending(x, p, size, zeroPacket, left[r..], short, before,
              outgoing + BlockPackets(left[..r], p, zeroPacket && short))
  {
    var sent, block := x[..|x| - |left|], left[..r];
    assert x[..|x| - |left[r..]|] == sent + block;
    assert sent + block + left[r..] == x;
    if r == size {
      FullBlock(sent, block, p);
      Associative(before, FullPackets(sent, p), FullPackets(block, p));
    } else {
      assert sent + block == x;
      LastBlock(sent, block, p, size, zeroPacket);
      Associative(before, FullPackets(sent, p), BlockPackets(block, p, zeroPacket));
    }
  }

  /** One block of a bulk write of x. */
  method WriteBlock(pipe: BulkPipe, urb: Urb, source: Source, ghost x: bytes, ghost before: seq<bytes>) returns (r: nat)
    requires pipe.Valid() && source.Valid() && urb.buffer.Length == pipe.blockSize
    requires pipe !in source.Objects() && {urb, urb.buffer} !! source.Objects()
    requires Sending(x, pipe.packetSize, pipe.blockSize, pipe.zeroPacket, source.Left(), false, before, pipe.outgoing)
    modifies pipe`outgoing, urb, urb.buffer, source.Objects()
    ensures source.Valid() && r == Min(pipe.blockSize, |old(source.Left())|)
    ensures |source.Left()| == |old(source.Left())| - r
    ensures Sending(x, pipe.packetSize, pipe.blockSize, pipe.zeroPacket, source.Left(), r != pipe.blockSize, before, pipe.outgoing)
  {
    SendingStep(x, pipe.packetSize, pipe.blockSize, pipe.zeroPacket, source.Left(),
                Min(pipe.blockSize, |source.Left()|), before, pipe.outgoing);
    r := urb.Send(source, urb.buffer.Length);
    var zeroPacketFlag := false;
    if pipe.zeroPacket {
      zeroPacketFlag := r != urb.buffer.Length;
    }
    pipe.SubmitOut(urb, zeroPacketFlag);
  }

  /** The loop of WriteBulk over one reused request block. */
  method WriteBlocks(pipe: BulkPipe, urb: Urb, source: Source, ghost x: bytes, ghost before: seq<bytes>)
    requires pipe.Valid() && source.Valid() && urb.buffer.Length == pipe.blockSize
    requires pipe !in source.Objects() && {urb, urb.buffer} !! source.Objects()
    requires Sending(x, pipe.packetSize, pipe.blockSize, pipe.zeroPacket, source.Left(), false, before, pipe.outgoing)
    modifies pipe`outgoing, urb, urb.buffer, source.Objects()
    ensures source.Valid()
    ensures Sending(x, pipe.packetSize, pipe.blockSize, pipe.zeroPacket, source.Left(), true, before, pipe.outgoing)
  {
    var r := urb.buffer.Length;
    while r == urb.buffer.Length
      invariant source.Valid()
      invariant Sending(x, pipe.packetSize, pipe.blockSize, pipe.zeroPacket, source.Left(), r != pipe.blockSize, before, pipe.outgoing)
      decreases |source.Left()|, if r == urb.buffer.Length then 1 else 0
    {
      r := WriteBlock(pipe, urb, source, x, before);
    }
  }

  /** Sends everything the source has as one bulk write. */
  method WriteBulk(pipe: BulkPipe, source: Source)
    requires pipe.Valid() && source.Valid() && pipe !in source.Objects()
    modifies pipe`outgoing, source.Objects()
    ensures pipe.Valid() && source.Valid() && source.Left() == []
    ensures pipe.outgoing
         == old(pipe.outgoing) + BulkPackets(old(source.Left()), pipe.packetSize, pipe.blockSize, pipe.zeroPacket)
  {
    NothingSent(source.Left(), pipe.packetSize, pipe.blockSize, pipe.zeroPacket, pipe.outgoing);
    var urb := new Urb(pipe.blockSize);
    WriteBlocks(pipe, urb, source, old(source.Left()), old(pipe.outgoing));
  }

  lemma NothingSent(x: bytes, p: nat, size: nat, zeroPacket: bool, outgoing: seq<bytes>)
    requires p > 0 && size > 0
    ensures Sending(x, p, size, zeroPacket, x, false, outgoing, outgoing)
  {
    assert x[..0] == [] && outgoing + FullPackets([], p) == outgoing;
  }

  lemma FullBlock(before: bytes, block: bytes, p: nat)
    requires p > 0 && block != [] && Multiple(|block|, p)
    requires Multiple(|before|, |block|) && Multiple(|before|, p)
    ensures Multiple(|before + block|, |block|) && Multiple(|before + block|, p)
    ensures BlockPackets(block, p, false) == FullPackets(block, p)
    ensures FullPackets(before + block, p) == FullPackets(before, p) + FullPackets(block, p)
  {
    MultipleAdd(|before|, |block|, |block|);
    FullPacketsJoin(before, block, p);
  }

  lemma LastBlock(before: bytes, block: bytes, p: nat, size: nat, zeroPacket: bool)
    requires p > 0 && |block| < size
    requires Multiple(|before|, size) && Multiple(|before|, p)
    ensures FullPackets(before, p) + BlockPackets(block, p, zeroPacket)
         == BulkPackets(before + block, p, size, zeroPacket)
  {
    MultipleAdd(|before|, |block|, size);
    MultipleAdd(|before|, |block|, p);
    if Terminates(|before + block|, p, size, zeroPacket) {
      PacketsJoin(before, block, p);
    } else {
      FullPacketsJoin(before, block, p);
    }
  }

  /** One block of a bulk read. */
  method ReadBlock(pipe: BulkPipe, urb: Urb, sink: MessageParser) returns (r: Result<nat, Outcome>)
    requires pipe.Valid() && sink.Valid() && Multiple(urb.buffer.Length, pipe.packetSize)
    requires {pipe as object, urb, urb.buffer} !! sink.Own()
    modifies pipe`incoming, urb, urb.buffer, sink.Own(), sink.stream.dataOutput
    ensures pipe.Valid()
    ensures match BlockRead(old(pipe.incoming), pipe.packetSize, urb.buffer.Length)
            case None => r == Err(Starved) && pipe.incoming == []
            case Some((data, rest)) =>
              && r == (if Malformed(old(sink.fed) + data) then Err(Garbled) else Ok(|data|))
              && pipe.incoming == rest
              && (r.Ok? ==> sink.fed == old(sink.fed) + data)
    ensures r != Err(Garbled) ==> sink.Valid()
    ensures r == Err(Starved) ==> sink.fed == old(sink.fed)
    ensures r == Err(Garbled) ==> |old(sink.fed)| < LENGTH_SIZE
    ensures r == Err(Garbled) ==> sink.stream.dataOutput.data == sink.stream.base
  {
    var ok := pipe.SubmitIn(urb);
    if !ok {
      return Err(Starved);
    }
    r := urb.Recv(sink);
  }

  /** What a bulk read that found packets ps leaves: a transfer that never ends starves it, with
      its whole blocks in the sink, unless they show a malformed length first. */
  twostate predicate Received(pipe: BulkPipe, sink: MessageParser, new r: Result<(), Outcome>)
    requires old(pipe.Valid())
    reads pipe, sink.Own(), sink.stream.dataOutput
  {
    var ps, p := old(pipe.incoming), pipe.packetSize;
    var now := old(sink.fed) + Arrives(ps, p, pipe.blockSize);
    && r == (if Malformed(now) then Err(Garbled) else if Terminated(ps, p) then Ok(()) else Err(Starved))
    && (r != Err(Garbled) ==>
          sink.Valid() && sink.fed == now && pipe.incoming == if Terminated(ps, p) then AfterFirst(ps, p) else [])
    && (r == Err(Garbled) ==> |old(sink.fed)| < LENGTH_SIZE && sink.stream.dataOutput.data == sink.stream.base)
  }

  /** The loop of ReadBulk over one reused request block. */
  method ReadBlocks(pipe: BulkPipe, urb: Urb, sink: MessageParser) returns (r: Result<(), Outcome>)
    requires pipe.Valid() && sink.Valid() && urb.buffer.Length == pipe.blockSize
    requires {pipe as object, urb, urb.buffer} !! sink.Own()
    modifies pipe`incoming, urb, urb.buffer, sink.Own(), sink.stream.dataOutput
    ensures pipe.Valid() && Received(pipe, sink, r)
  {
    ghost var p, size, ps, fed := pipe.packetSize, pipe.blockSize, pipe.incoming, sink.fed;
    ghost var had: bytes := [];
    var got := urb.buffer.Length;
    while got == urb.buffer.Length
      invariant pipe.Valid() && sink.Valid() && sink.fed == fed + had
      invariant Receiving(ps, p, size, got != urb.buffer.Length, pipe.incoming, had)
      decreases |pipe.incoming|, if got == urb.buffer.Length then 1 else 0
    {
      hide Receiving, Continues, Terminated, FirstTransfer, AfterFirst, Blocks;
      ReceivingStep(ps, p, size, fed, pipe.incoming, had);
      ghost var block := BlockRead(pipe.incoming, p, size);
      got :- ReadBlock(pipe, urb, sink);
      had := had + block.value.0;
    }
    r := Ok(());
  }

  /** Receives one transfer. The sink ends with exactly its bytes, whatever the block size,
      and the packets after it stay in the pipe. A malformed length shows before anything
      reaches the caller's sink; a transfer that never ends leaves its whole blocks there. */
  method ReadBulk(pipe: BulkPipe, sink: MessageParser) returns (r: Result<(), Outcome>)
    requires pipe.Valid() && sink.Valid() && pipe !in sink.Own()
    modifies pipe`incoming, sink.Own(), sink.stream.dataOutput
    ensures pipe.Valid() && Received(pipe, sink, r)
  {
    var urb := new Urb(pipe.blockSize);
    label L:
    r := ReadBlocks(pipe, urb, sink);
    assert Received@L(pipe, sink, r);
  }

  /** Where the bulk read that found packets ps stands after receiving had. */
  ghost predicate Receiving(ps: seq<bytes>, p: nat, size: nat, done: bool, incoming: seq<bytes>, had: bytes)
    requires p > 0 && size > 0 && Multiple(size, p) && WellSized(ps, p) && WellSized(incoming, p)
  {
    && (if done then Terminated(ps, p) && had == FirstTransfer(ps, p) && incoming == AfterFirst(ps, p)
        else Continues(ps, p, had, incoming) && (!Terminated(ps, p) ==> Blocks(ps, p, size) == had + Blocks(incoming, p, size)))
    && |incoming| <= |ps| && (|incoming| == |ps| ==> had == [])
  }

  lemma ReceivingStep(ps: seq<bytes>, p: nat, size: nat, start: bytes, incoming: seq<bytes>, had: bytes)
    requires p > 0 && size > 0 && Multiple(size, p) && WellSized(ps, p) && WellSized(incoming, p)
    requires Receiving(ps, p, size, false, incoming, had)
    ensures match BlockRead(incoming, p, size)
            case None => !Terminated(ps, p) && had == Arrives(ps, p, size)
            case Some((data, rest)) =>
              && start + had + data == start + (had + data)
              && Receiving(ps, p, size, |data| != size, rest, had + data)
              && (Malformed(start + (had + data)) ==> Malformed(start + Arrives(ps, p, size)))
  {
    BlockReadMeaning(incoming, p, size);
    match BlockRead(incoming, p, size)
    case None =>
    case Some((data, rest)) =>
      Associative(start, had, data);
      if |data| == size {
        var left := Arrives(rest, p, size);
        Associative(had, data, left);
        Associative(start, had + data, left);
        PrefixMalformed(start + (had + data), left);
      }
  }
}
