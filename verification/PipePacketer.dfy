/** PipePacketer::Read of mtp/ptp/PipePacketer.cpp: bulk reads until the transaction's response. */
module PipePacketer {
  import opened Bytes
  import opened Results
  import opened Framing
  import opened ObjectStreams
  import opened Parsers
  import opened UsbPackets
  import opened UsbDevice

  /** What a read for t makes of the packets ps, the whole blocks of an unterminated tail included. */
  ghost function WantedOf(t: u32, ps: seq<bytes>, p: nat, size: nat): Reading
    requires p > 0 && size > 0 && Multiple(size, p) && WellSized(ps, p)
  {
    ReadPipe(t, [], Transfers(ps, p), Blocks(Tail(ps, p), p, size))
  }

  /** Nothing unterminated: the whole transfers decide. */
  lemma WantedOfWhole(t: u32, ps: seq<bytes>, p: nat, size: nat)
    requires p > 0 && size > 0 && Multiple(size, p) && WellSized(ps, p) && Tail(ps, p) == []
    ensures WantedOf(t, ps, p, size) == ReadTransfers(t, [], Transfers(ps, p))
  {
    NoTail(t, [], Transfers(ps, p));
  }

  /** For packets that carry messages: the payloads of t's data before its first response, that
      response, and the transfers after it still there. */
  lemma WantedOfMessages(t: u32, ps: seq<bytes>, p: nat, size: nat, cs: seq<seq<bytes>>, ms: seq<Message>, k: nat)
    requires p > 0 && size > 0 && Multiple(size, p) && WellSized(ps, p)
    requires Transfers(ps, p) == Flatten(cs) && Tail(ps, p) == [] && CarriesAll(cs, ms) && k < |ms|
    requires ms[k].header.kind == 3 && (t == 0 || ms[k].header.transaction == t)
    requires forall i | 0 <= i < k :: !(ms[i].header.kind == 3 && (t == 0 || ms[i].header.transaction == t))
    ensures WantedOf(t, ps, p, size)
         == Reading(Flatten(DataPayloads(t, ms, k)), Answer(ms[k].header.code, ms[k].payload), Flatten(cs[k + 1..]))
  {
    WantedOfWhole(t, ps, p, size);
    ReadMeaning(t, cs, ms, k);
  }

  /** Reads one transaction's answer. The outcome and what the sink gains are those of the
      specification reader on the packets in the pipe; behind an answer the transfers after it
      are still there, and a read that starves has emptied the pipe. */
  method Read(pipe: BulkPipe, transaction: u32, object_: ByteSink) returns (r: Outcome)
    requires pipe.Valid()
    modifies pipe`incoming, object_
    ensures pipe.Valid()
    ensures var p, ps := pipe.packetSize, old(pipe.incoming);
      var want := WantedOf(transaction, ps, p, pipe.blockSize);
      && r == want.outcome && object_.data == old(object_.data) + want.delivered
      && (r.Answer? ==> Transfers(pipe.incoming, p) == want.unread && Tail(pipe.incoming, p) == Tail(ps, p))
      && (r.Starved? ==> pipe.incoming == [])
  {
    ghost var t, p, size, ps, start := transaction, pipe.packetSize, pipe.blockSize, pipe.incoming, object_.data;
    ghost var cur: bytes, done: bytes := [], [];
    NothingYet(t, p, size, ps);
    var output := NewParsers(transaction, object_);
    while true
      invariant pipe.Valid()
      invariant Underway(t, p, size, ps, pipe.incoming, cur, done) && object_.data == start + done
      invariant output.Valid() && output.fed == cur && !output.stream.finished
      invariant output.stream.transaction == t && output.stream.dataOutput == object_
      invariant fresh(output.Own())
      decreases |pipe.incoming|
    {
      Step(t, p, size, ps, pipe.incoming, cur, done);
      Associative(start, done, Fresh(t, cur, cur + Arrives(pipe.incoming, p, size)));
      var message := ReadMessage(pipe, output);
      if message.Err? {
        return message.error;
      }
      if output.stream.finished {
        return Answer(output.stream.responseCode, output.stream.response.data);
      }
      done, cur := done + Fresh(t, cur, output.fed), output.fed;
      if output.Finished() {
        output := NewParsers(transaction, object_);
        cur := [];
      }
    }
  }

  method NewParsers(transaction: u32, object_: ByteSink) returns (output: MessageParser)
    ensures fresh(output.Own())
    ensures output.Valid() && output.fed == [] && !output.stream.finished
    ensures output.stream.transaction == transaction && output.stream.dataOutput == object_
  {
    var parser := new HeaderParser(transaction, object_);
    output := new MessageParser(parser);
  }

  /** What a sink holds after more of a container came in. */
  lemma FreshFollows(t: u32, base: bytes, cur: bytes, now: bytes)
    requires cur <= now
    ensures base + Delivered(t, now) == base + Delivered(t, cur) + Fresh(t, cur, now)
    ensures Answered(t, now) ==> Fresh(t, cur, now) == []
  {
    PrefixFacts(t, cur, now);
    GrownBy(base, Delivered(t, cur), Delivered(t, now));
  }

  lemma GrownBy(base: bytes, a: bytes, b: bytes)
    requires a <= b
    ensures base + b == base + a + b[|a|..]
  {
    assert b == a + b[|a|..];
  }

  /** PipePacketer::ReadMessage: one bulk read into the parsers, seen from the caller's sink. */
  method ReadMessage(pipe: BulkPipe, output: MessageParser) returns (r: Result<(), Outcome>)
    requires pipe.Valid() && output.Valid() && !output.stream.finished
    modifies pipe`incoming, output.Own(), output.stream.dataOutput
    ensures pipe.Valid()
    ensures var p, ps, t, cur := pipe.packetSize, old(pipe.incoming), output.stream.transaction, old(output.fed);
      var now := cur + Arrives(ps, p, pipe.blockSize);
      && r == (if Malformed(now) then Err(Garbled) else if Terminated(ps, p) then Ok(()) else Err(Starved))
      && (r == Err(Garbled) ==> output.stream.dataOutput.data == old(output.stream.dataOutput.data))
      && (r != Err(Garbled) ==>
            && output.Valid() && output.fed == now
            && pipe.incoming == (if Terminated(ps, p) then AfterFirst(ps, p) else [])
            && output.stream.dataOutput.data == old(output.stream.dataOutput.data) + Fresh(t, cur, now)
            && (output.Finished() <==> Complete(now))
            && (output.stream.finished <==> Answered(t, now))
            && (output.stream.finished ==>
                  && output.stream.responseCode == CodeOf(now)
                  && output.stream.response.data == Payload(Body(now)) && Fresh(t, cur, now) == []))
  {
    ghost var t, cur := output.stream.transaction, output.fed;
    output.Observed();
    r := ReadBulk(pipe, output);
    if r != Err(Garbled) {
      output.Observed();
      FreshFollows(t, output.stream.base, cur, output.fed);
    }
  }

  /** Where a read stands: cur is the container so far, done what the sink has got. */
  ghost predicate Underway(t: u32, p: nat, size: nat, ps: seq<bytes>, incoming: seq<bytes>, cur: bytes, done: bytes)
    requires p > 0 && size > 0 && Multiple(size, p) && WellSized(ps, p)
  {
    && After(done, ReadPipe(t, cur, Transfers(incoming, p), Blocks(Tail(ps, p), p, size))) == WantedOf(t, ps, p, size)
    && Tail(incoming, p) == Tail(ps, p)
  }

  lemma NothingYet(t: u32, p: nat, size: nat, ps: seq<bytes>)
    requires p > 0 && size > 0 && Multiple(size, p) && WellSized(ps, p)
    ensures Underway(t, p, size, ps, ps, [], [])
  {
    var r := WantedOf(t, ps, p, size);
    assert [] + r.delivered == r.delivered;
  }

  lemma Step(t: u32, p: nat, size: nat, ps: seq<bytes>, incoming: seq<bytes>, cur: bytes, done: bytes)
    requires p > 0 && size > 0 && Multiple(size, p) && WellSized(ps, p) && WellSized(incoming, p)
    requires Underway(t, p, size, ps, incoming, cur, done)
    ensures var want, now := WantedOf(t, ps, p, size), cur + Arrives(incoming, p, size);
      if Terminated(incoming, p) then
        var rest := AfterFirst(incoming, p);
        if Malformed(now) then want == Reading(done, Garbled, Transfers(rest, p))
        else if Answered(t, now) then
          && want == Reading(done, Answer(CodeOf(now), Payload(Body(now))), Transfers(rest, p))
          && Tail(rest, p) == Tail(ps, p)
        else Underway(t, p, size, ps, rest, if Complete(now) then [] else now, done + Fresh(t, cur, now))
      else want == if Malformed(now) then Reading(done, Garbled, []) else Reading(done + Fresh(t, cur, now), Starved, [])
  {
    var ts, tail := Transfers(incoming, p), Blocks(Tail(ps, p), p, size);
    assert done + [] == done;
    if Terminated(incoming, p) {
      assert ts[1..] == Transfers(AfterFirst(incoming, p), p);
      var now := cur + ts[0];
      if !Malformed(now) && !Answered(t, now) {
        var r := ReadPipe(t, if Complete(now) then [] else now, ts[1..], tail);
        Associative(done, Fresh(t, cur, now), r.delivered);
      }
    }
  }
}
