/** The two nested incremental parsers of mtp/ptp/PipePacketer.cpp. Whatever chunks
    they are fed, their fields are functions of the bytes fed so far. */
module Parsers {
  import opened Bytes
  import opened Results
  import opened Codec
  import opened Framing
  import opened ObjectStreams

  /** Where the second stream of the header parser points. */
  datatype Output = NoStream | To(sink: ByteSink) | Dummy

  /** HeaderParserObjectOutputStream: eight bytes of header, then a payload. */
  class HeaderParser {
    const transaction: u32
    const header: FixedSizeSink
    const response: ByteSink
    const dataOutput: ByteSink
    var offset: nat
    var stream1Exhausted: bool
    var output: Output
    var valid: bool
    var finished: bool
    var responseCode: u16
    ghost var fed: bytes       // everything written so far
    ghost const base: bytes    // what the caller's sink held at the start

    constructor (transaction: u32, dataOutput: ByteSink)
      ensures Valid() && fed == []
      ensures this.transaction == transaction && this.dataOutput == dataOutput
      ensures base == dataOutput.data
      ensures fresh(Own())
    {
      this.transaction, this.dataOutput := transaction, dataOutput;
      header := new FixedSizeSink(HEADER_SIZE);
      response := new ByteSink();
      offset, stream1Exhausted, output := 0, false, NoStream;
      valid, finished, responseCode := true, false, 0;
      fed, base := [], dataOutput.data;
    }

    /** Everything but the caller's sink. */
    ghost function Own(): set<object> {
      {this, header, header.data, response}
    }

    ghost predicate Valid()
      reads Own(), dataOutput
    {
      && response != dataOutput
      && header.Valid() && header.data.Length == HEADER_SIZE
      && header.contents == fed[..Min(HEADER_SIZE, |fed|)]
      && offset == |fed|
      && (stream1Exhausted <==> |fed| >= HEADER_SIZE)
      && Split(fed)
      && Decided(Routed(transaction, fed))
      && (finished ==> responseCode == DecodeHeader(fed[..HEADER_SIZE]).code)
    }

    /** Where the payload of the bytes so far is. */
    ghost predicate Split(now: bytes)
      reads this, response, dataOutput
    {
      && dataOutput.data == base + (if Routed(transaction, now) == ToData then Payload(now) else [])
      && response.data == (if Routed(transaction, now) == ToResponse then Payload(now) else [])
    }

    /** What each routing decision leaves in the fields. */
    ghost predicate Decided(route: Route)
      reads this
    {
      && (finished <==> route == ToResponse)
      && (valid <==> route != Drop)
      && output == match route
                   case Undecided => NoStream
                   case ToData => To(dataOutput)
                   case ToResponse => To(response)
                   case Drop => Dummy
    }

    method OnStream1Exhausted()
      requires header.Valid() && header.offset == header.data.Length == HEADER_SIZE
      requires output == NoStream && valid && !finished
      modifies this`output, this`valid, this`finished, this`responseCode
      ensures Decided(Choose(transaction, DecodeHeader(header.contents)))
      ensures finished ==> responseCode == DecodeHeader(header.contents).code
      ensures var h := DecodeHeader(header.contents);
        var own := transaction == 0 || h.transaction == transaction;
        && output == (if own && h.kind == 2 then To(dataOutput) else if own && h.kind == 3 then To(response) else Dummy)
        && (finished <==> own && h.kind == 3) && (valid <==> own && (h.kind == 2 || h.kind == 3))
    {
      var data := header.GetData();
      var stream := new InputStream(data);
      var h := ReadHeader(stream);
      if transaction != 0 && transaction != h.transaction {
        valid := false;
        output := Dummy;
        return;
      }
      if h.kind == KIND_DATA {
        output := To(dataOutput);
      } else if h.kind == KIND_RESPONSE {
        output := To(response);
        responseCode := h.code;
        finished := true;
      } else {
        valid := false;
        output := Dummy;
      }
    }

    /** GetStream2()->Write; the stream has always been chosen by then. */
    method WriteOutput(chunk: bytes) returns (n: nat)
      requires response != dataOutput
      requires output in {To(dataOutput), To(response), Dummy}
      modifies dataOutput, response
      ensures n == |chunk|
      ensures dataOutput.data == old(dataOutput.data) + (if output == To(dataOutput) then chunk else [])
      ensures response.data == old(response.data) + (if output == To(response) then chunk else [])
    {
      match output {
        case To(sink) => n := sink.Write(chunk);
        case Dummy => n := |chunk|;
      }
    }

    /** A write that starts in the header; one that goes past it chooses the second stream. */
    method WriteHead(chunk: bytes) returns (r: nat)
      requires Valid() && !stream1Exhausted
      modifies Own(), dataOutput
      ensures response != dataOutput && offset == old(offset) && fed == old(fed)
      ensures r == |chunk| && header.Valid() && Split(fed + chunk)
      ensures header.contents == (fed + chunk)[..Min(HEADER_SIZE, |fed + chunk|)]
      ensures stream1Exhausted <==> |fed + chunk| > HEADER_SIZE
      ensures if stream1Exhausted
              then Decided(Routed(transaction, fed + chunk))
                   && (finished ==> responseCode == DecodeHeader((fed + chunk)[..HEADER_SIZE]).code)
              else output == NoStream && valid && !finished
    {
      hide DecodeHeader;
      ghost var n := Min(|chunk|, HEADER_SIZE - |fed|);
      HeaderGrows(fed, chunk, n);
      assert base + [] == base;
      assert fed[..Min(HEADER_SIZE, |fed|)] == fed;
      r := header.Write(chunk);
      if r < |chunk| {
        stream1Exhausted := true;
        OnStream1Exhausted();
        assert Routed(transaction, fed + chunk) == Choose(transaction, DecodeHeader(header.contents));
        var w := WriteOutput(chunk[r..]);
        r := r + w;
      }
    }

    /** A write to the second stream. */
    method WriteRest(chunk: bytes) returns (r: nat)
      requires Valid() && stream1Exhausted
      modifies dataOutput, response
      ensures response != dataOutput && r == |chunk| && header.Valid() && Split(fed + chunk)
      ensures header.contents == (fed + chunk)[..HEADER_SIZE] && Decided(Routed(transaction, fed + chunk))
      ensures finished ==> responseCode == DecodeHeader((fed + chunk)[..HEADER_SIZE]).code
    {
      PayloadGrows(transaction, fed, chunk);
      r := WriteOutput(chunk);
    }

    method Write(chunk: bytes) returns (r: nat)
      requires Valid()
      modifies Own(), dataOutput
      ensures Valid() && fed == old(fed) + chunk
      ensures r == |chunk|
    {
      hide Choose, DecodeHeader;
      ghost var now := fed + chunk;
      if !stream1Exhausted {
        r := WriteHead(chunk);
      } else {
        r := WriteRest(chunk);
      }
      offset := offset + r;
      if !stream1Exhausted && offset >= header.data.Length {
        stream1Exhausted := true;
        OnStream1Exhausted();
      }
      fed := now;
    }
  }

  lemma HeaderGrows(was: bytes, chunk: bytes, n: nat)
    requires |was| < HEADER_SIZE && n == Min(|chunk|, HEADER_SIZE - |was|)
    ensures was + chunk[..n] == (was + chunk)[..Min(HEADER_SIZE, |was + chunk|)]
    ensures n < |chunk| ==> |was + chunk| > HEADER_SIZE && Payload(was + chunk) == chunk[n..]
    ensures n == |chunk| ==> |was + chunk| <= HEADER_SIZE && Payload(was + chunk) == []
  {
  }

  lemma PayloadGrows(t: u32, was: bytes, chunk: bytes)
    requires |was| >= HEADER_SIZE
    ensures (was + chunk)[..HEADER_SIZE] == was[..HEADER_SIZE]
    ensures Routed(t, was + chunk) == Routed(t, was)
    ensures Payload(was + chunk) == Payload(was) + chunk
  {
    assert (was + chunk)[..HEADER_SIZE] == was[..HEADER_SIZE];
  }

  /** Response::Read. */
  method ReadHeader(stream: InputStream) returns (h: Header)
    requires stream.offset == 0 && |stream.data| == HEADER_SIZE
    modifies stream
    ensures h == DecodeHeader(stream.data)
  {
    Word16IsValue(stream.data, 0);
    Word16IsValue(stream.data, 2);
    Word32IsValue(stream.data, 4);
    var kind := stream.Read16();
    var code := stream.Read16();
    var transaction := stream.Read32();
    h := Header(kind.value, code.value, transaction.value);
  }

  /** MessageParsingStream: four bytes of length, then the header parser. */
  class MessageParser {
    const header: FixedSizeSink
    const stream: HeaderParser
    var offset: nat
    var size: nat
    var stream1Exhausted: bool
    ghost var fed: bytes

    constructor (stream: HeaderParser)
      requires stream.Valid() && stream.fed == []
      ensures Valid() && fed == [] && this.stream == stream
      ensures fresh(Own() - stream.Own()) && stream.Own() <= Own()
    {
      this.stream := stream;
      header := new FixedSizeSink(LENGTH_SIZE);
      offset, size, stream1Exhausted := 0, 4, false;
      fed := [];
    }

    ghost function Own(): set<object> {
      {this, header, header.data} + stream.Own()
    }

    ghost predicate Valid()
      reads Own(), stream.dataOutput
    {
      && Holds(fed) && offset == |fed|
      && (stream1Exhausted <==> |fed| >= LENGTH_SIZE)
    }

    /** The state after the bytes in all, except that a length field completed by the very
        end of a chunk may not have been noticed yet. */
    ghost predicate Holds(all: bytes)
      reads Own(), stream.dataOutput
    {
      && header != stream.header && header.data != stream.header.data
      && stream.Valid() && stream.fed == Body(all)
      && header.Valid() && header.data.Length == LENGTH_SIZE
      && header.contents == all[..Min(LENGTH_SIZE, |all|)]
      && (if stream1Exhausted
          then |all| >= LENGTH_SIZE && size == Declared(all) && !Malformed(all)
          else |all| <= LENGTH_SIZE && size == LENGTH_SIZE)
    }

    /** Everything a caller can observe follows from the bytes fed. */
    lemma Observed()
      requires Valid()
      ensures Finished() <==> Complete(fed)
      ensures stream.finished <==> Answered(stream.transaction, fed)
      ensures stream.finished ==>
        stream.responseCode == CodeOf(fed) && stream.response.data == Payload(Body(fed))
      ensures stream.dataOutput.data == stream.base + Delivered(stream.transaction, fed)
    {
    }

    predicate Finished()
      reads this
    {
      offset >= size
    }

    method OnStream1Exhausted() returns (r: Result<(), Framing.Outcome>)
      requires header.Valid() && header.offset == header.data.Length == LENGTH_SIZE
      modifies this`size
      ensures r == if LeValue(header.contents) < LENGTH_SIZE then Err(Garbled) else Ok(())
      ensures r.Ok? ==> size == LeValue(header.contents)
    {
      var data := header.GetData();
      var stream := new InputStream(data);
      assert data[0..4] == data;
      var declared := stream.Read32();
      if declared.value < LENGTH_SIZE {
        return Err(Garbled);
      }
      size := declared.value;
      r := Ok(());
    }

    /** JoinedObjectOutputStreamBase::Write: switches streams when the first comes up short. */
    method JoinedWrite(chunk: bytes) returns (r: Result<nat, Framing.Outcome>)
      requires Valid()
      modifies Own(), stream.dataOutput
      ensures fed == old(fed) && offset == old(offset)
      ensures r.Ok? ==> r.value == |chunk| && Holds(fed + chunk)
      ensures r.Ok? ==> (stream1Exhausted <==> old(stream1Exhausted) || |fed + chunk| > LENGTH_SIZE)
      ensures r.Err? ==> r.error == Garbled && Malformed(fed + chunk) && |fed| < LENGTH_SIZE
      ensures r.Err? ==> stream.dataOutput.data == stream.base
    {
      if !stream1Exhausted {
        LengthGrows(fed, chunk, Min(|chunk|, LENGTH_SIZE - |fed|));
        var n := header.Write(chunk);
        if n < |chunk| {
          stream1Exhausted := true;
          assert header.contents == (fed + chunk)[..LENGTH_SIZE];
          var _ :- OnStream1Exhausted();
          var w := stream.Write(chunk[n..]);
          n := n + w;
        }
        r := Ok(n);
      } else {
        BodyGrows(fed, chunk);
        var n := stream.Write(chunk);
        r := Ok(n);
      }
    }

    /** Fails exactly when the length field, once complete, is malformed; nothing has then
        reached the caller's sink. */
    method Write(chunk: bytes) returns (r: Result<nat, Framing.Outcome>)
      requires Valid()
      modifies Own(), stream.dataOutput
      ensures r == if Malformed(old(fed) + chunk) then Err(Garbled) else Ok(|chunk|)
      ensures r.Ok? ==> Valid() && fed == old(fed) + chunk
      ensures r.Err? ==> |old(fed)| < LENGTH_SIZE
      ensures r.Err? ==> stream.dataOutput.data == stream.base
    {
      var n :- JoinedWrite(chunk);
      offset := offset + n;
      fed := fed + chunk;
      if !stream1Exhausted && offset >= header.data.Length {
        stream1Exhausted := true;
        var _ :- OnStream1Exhausted();
      }
      r := Ok(n);
    }
  }

  /** Any cutting into chunks, empty ones and ones ending at the header included, has the effect
      of one write of them all: what can be observed follows from the bytes fed. */
  method Feed(parser: MessageParser, chunks: seq<bytes>) returns (r: Result<(), Framing.Outcome>)
    requires parser.Valid()
    modifies parser.Own(), parser.stream.dataOutput
    ensures r == if Malformed(old(parser.fed) + Flatten(chunks)) then Err(Garbled) else Ok(())
    ensures r.Ok? ==> parser.Valid() && parser.fed == old(parser.fed) + Flatten(chunks)
    ensures r.Err? ==> parser.stream.dataOutput.data == parser.stream.base
  {
    var left := chunks;
    ghost var all := parser.fed + Flatten(chunks);
    while left != []
      invariant parser.Valid() && all == parser.fed + Flatten(left)
      decreases |left|
    {
      Associative(parser.fed, left[0], Flatten(left[1..]));
      PrefixMalformed(parser.fed + left[0], Flatten(left[1..]));
      var _ :- parser.Write(left[0]);
      left := left[1..];
    }
    assert parser.fed + [] == parser.fed;
    r := Ok(());
  }

  lemma PrefixMalformed(a: bytes, b: bytes)
    ensures Malformed(a) ==> Malformed(a + b)
  {
    if Malformed(a) {
      assert a[..LENGTH_SIZE] == (a + b)[..LENGTH_SIZE];
    }
  }

  lemma LengthGrows(was: bytes, chunk: bytes, n: nat)
    requires |was| < LENGTH_SIZE && n == Min(|chunk|, LENGTH_SIZE - |was|)
    ensures was + chunk[..n] == (was + chunk)[..Min(LENGTH_SIZE, |was + chunk|)]
    ensures n < |chunk| ==> |was + chunk| > LENGTH_SIZE && Body(was + chunk) == chunk[n..]
    ensures n == |chunk| ==> |was + chunk| <= LENGTH_SIZE && Body(was + chunk) == []
  {
  }

  lemma BodyGrows(was: bytes, chunk: bytes)
    requires |was| >= LENGTH_SIZE
    ensures (was + chunk)[..LENGTH_SIZE] == was[..LENGTH_SIZE]
    ensures Declared(was + chunk) == Declared(was)
    ensures Body(was + chunk) == Body(was) + chunk
  {
    assert (was + chunk)[..LENGTH_SIZE] == was[..LENGTH_SIZE];
  }
}
