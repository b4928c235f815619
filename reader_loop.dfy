/**
 * The parser's reader loop, ReadMessages: read from the pipe, take one decoding pass
 * over the buffered bytes, advance the reader, and hand Session and Event packets to
 * the handler, until the pipe completes, the read is canceled or a header names no type.
 */
module ReaderLoops {
  import opened Wrappers
  import opened Wire
  import opened PacketHeaders
  import opened PacketParsers
  import opened Pipes

  /** How the loop ends: it stops, it throws, or it waits for a writer action that never comes. */
  datatype Outcome = Stopped | Threw(fault: Fault) | Waiting

  /** The handler calls made, in order, and how the loop ended. */
  datatype Parsed = Parsed(dispatches: seq<Dispatch>, outcome: Outcome)

  /** The order in which the loop makes progress: a writer action, a consumed packet, or examining the buffer. */
  function Progress(p: Pipe): (m: nat)
  {
    if p.examined then 0 else 1
  }

  /**
   * The bytes a pass consumed, dropped from the buffer; the rest is not yet examined, so
   * only an emptied buffer makes the next read wait.
   */
  function Advanced(q: Pipe, n: nat): (q': Pipe)
    requires n <= |Flatten(q.segs)|
    ensures |Flatten(q'.segs)| == |Flatten(q.segs)| - n && (q'.examined <==> Flatten(q'.segs) == [])
    ensures q'.signals == q.signals && q'.writerDone == q.writerDone
  {
    q.(segs := DropBytes(q.segs, n), examined := n == |Flatten(q.segs)|)
  }

  /**
   * The loop as written: a read that reports completion or cancellation ends the loop
   * before the buffered bytes are decoded.
   */
  function ParseAsWritten(p: Pipe): (r: Parsed)
    decreases |p.signals|, |Flatten(p.segs)|, Progress(p)
  {
    match NextRead(p)
    case None => Parsed([], Waiting)
    case Some((msg, q)) =>
      if msg.isCompleted || msg.isCanceled then Parsed([], Stopped)
      else
        StepIsStepBytes(msg.buffer);
        match Step(msg.buffer)
        case NeedMore => ParseAsWritten(q.(examined := true))
        case Unsupported(id) => Parsed([], Threw(UnsupportedPacketId(id)))
        case Consumed(n, d) =>
          var r := ParseAsWritten(Advanced(q, n));
          Parsed(Calls(d) + r.dispatches, r.outcome)
  }

  /**
   * The loop as intended: a completed read still decodes what is buffered, and the loop
   * stops only once a pass finds no whole packet left.
   */
  function Parse(p: Pipe): (r: Parsed)
    decreases |p.signals|, |Flatten(p.segs)|, Progress(p)
  {
    match NextRead(p)
    case None => Parsed([], Waiting)
    case Some((msg, q)) =>
      if msg.isCanceled then Parsed([], Stopped)
      else
        StepIsStepBytes(msg.buffer);
        match Step(msg.buffer)
        case NeedMore => if msg.isCompleted then Parsed([], Stopped) else Parse(q.(examined := true))
        case Unsupported(id) => Parsed([], Threw(UnsupportedPacketId(id)))
        case Consumed(n, d) =>
          var r := Parse(Advanced(q, n));
          Parsed(Calls(d) + r.dispatches, r.outcome)
  }

  /** The bytes the writer has still to flush. */
  function Pending(signals: seq<Signal>): (b: seq<byte>)
  {
    if signals == [] then [] else (if signals[0].Flush? then signals[0].chunk else []) + Pending(signals[1..])
  }

  /** Every byte buffered or still to be flushed. */
  function Written(p: Pipe): (b: seq<byte>)
  {
    Flatten(p.segs) + Pending(p.signals)
  }

  /**
   * A writer that only flushes, completing at most once and last; once it has completed
   * there is nothing left for it to do.
   */
  predicate FlushesOnly(p: Pipe) {
    (p.writerDone ==> p.signals == []) &&
    forall i :: 0 <= i < |p.signals| ==> p.signals[i].Flush? && (p.signals[i].complete ==> i == |p.signals| - 1)
  }

  /** Examined bytes hold no whole packet: the loop only waits when it has to. */
  predicate Settled(p: Pipe) {
    p.examined ==> StepBytes(Flatten(p.segs)) == NeedMore
  }

  /** The writer has completed or will complete. */
  predicate Closing(p: Pipe) {
    p.writerDone || (p.signals != [] && p.signals[|p.signals| - 1].Flush? && p.signals[|p.signals| - 1].complete)
  }

  /** How decoding everything the writer writes ends, for a writer that completes or not. */
  function DrainOutcome(dr: Drained, closing: bool): Outcome {
    if dr.fault.Some? then Threw(dr.fault.value) else if closing then Stopped else Waiting
  }

  /** A pipe whose reader has nothing new: the loop waits, or stops when the writer has completed. */
  lemma ParseWaiting(p: Pipe)
    requires FlushesOnly(p) && Settled(p) && NextRead(p).None?
    ensures Parse(p) == Parsed(Drain(Written(p)).dispatches, DrainOutcome(Drain(Written(p)), Closing(p)))
  {
    assert Written(p) == Flatten(p.segs);
    DrainWaits(Flatten(p.segs));
  }

  /** A flush the reader was waiting for is read at once: the loop goes on as from the pipe after the flush. */
  lemma ParseAfterFlush(p: Pipe)
    requires !Ready(p) && p.signals != [] && p.signals[0].Flush?
    ensures var q := NextRead(p).value.1;
      Ready(q) && Parse(p) == Parse(q)
  {
  }

  /** What the flush changes: the buffer grows by the chunk, the writer completes with it or not. */
  lemma FlushWritten(p: Pipe)
    requires FlushesOnly(p) && !Ready(p) && p.signals != []
    ensures var q := NextRead(p).value.1;
      FlushesOnly(q) && Settled(q) && Written(q) == Written(p) && Closing(q) == Closing(p)
  {
    var q := NextRead(p).value.1;
    var c := p.signals[0].chunk;
    FlattenAppend(p.segs, c);
    assert Pending(p.signals) == c + Pending(p.signals[1..]);
    assert Written(q) == (Flatten(p.segs) + c) + Pending(p.signals[1..]);
    if q.signals != [] {
      assert q.signals[|q.signals| - 1] == p.signals[|p.signals| - 1];
    }
  }

  /** A ready pass over a buffer that holds no whole packet. */
  lemma ParseReadyWaits(p: Pipe)
    requires FlushesOnly(p) && Ready(p) && StepBytes(Flatten(p.segs)) == NeedMore
    requires var q := p.(examined := true);
      !p.writerDone ==>
        Parse(q) == Parsed(Drain(Written(q)).dispatches, DrainOutcome(Drain(Written(q)), Closing(q)))
    ensures Parse(p) == Parsed(Drain(Written(p)).dispatches, DrainOutcome(Drain(Written(p)), Closing(p)))
  {
    StepIsStepBytes(p.segs);
    if p.writerDone {
      assert Written(p) == Flatten(p.segs);
      DrainWaits(Flatten(p.segs));
    }
  }

  /** A ready pass that meets an unknown identifier throws, as decoding everything does. */
  lemma ParseReadyThrows(p: Pipe)
    requires FlushesOnly(p) && Ready(p) && StepBytes(Flatten(p.segs)).Unsupported?
    ensures Parse(p) == Parsed(Drain(Written(p)).dispatches, DrainOutcome(Drain(Written(p)), Closing(p)))
  {
    var a := Flatten(p.segs);
    StepIsStepBytes(p.segs);
    StepExtends(a, Pending(p.signals));
    DrainThrows(Written(p));
  }

  /** A ready pass that consumes a packet makes the handler call decoding everything makes first. */
  lemma ParseReadyConsumes(p: Pipe)
    requires FlushesOnly(p) && Ready(p) && StepBytes(Flatten(p.segs)).Consumed?
    requires var q := Advanced(p, StepBytes(Flatten(p.segs)).size);
      Parse(q) == Parsed(Drain(Written(q)).dispatches, DrainOutcome(Drain(Written(q)), Closing(q)))
    ensures Parse(p) == Parsed(Drain(Written(p)).dispatches, DrainOutcome(Drain(Written(p)), Closing(p)))
  {
    var a, c := Flatten(p.segs), Pending(p.signals);
    var n := StepBytes(a).size;
    var q := Advanced(p, n);
    StepIsStepBytes(p.segs);
    StepExtends(a, c);
    DrainConsumed(a + c);
    SliceAppend(a, c, n);
    assert Written(q) == (a + c)[n..];
  }

  /**
   * The intended loop makes exactly the handler calls of decoding, in one go, every byte
   * the writer writes; it throws where that decoding meets an unknown identifier, and
   * otherwise stops when the writer completes and waits when it does not.
   */
  lemma {:induction false} ParseDrains(p: Pipe)
    requires FlushesOnly(p) && Settled(p)
    ensures Parse(p) == Parsed(Drain(Written(p)).dispatches, DrainOutcome(Drain(Written(p)), Closing(p)))
    decreases |p.signals|, |Flatten(p.segs)|, Progress(p)
  {
    if !Ready(p) {
      if p.signals == [] {
        ParseWaiting(p);
      } else {
        var q := NextRead(p).value.1;
        ParseAfterFlush(p);
        FlushWritten(p);
        ParseDrains(q);
      }
    } else {
      var s := StepBytes(Flatten(p.segs));
      if s.NeedMore? {
        if !p.writerDone {
          ParseDrains(p.(examined := true));
        }
        ParseReadyWaits(p);
      } else if s.Unsupported? {
        ParseReadyThrows(p);
      } else {
        ParseDrains(Advanced(p, s.size));
        ParseReadyConsumes(p);
      }
    }
  }

  /** The writer never completes from here on. */
  predicate NeverCompletes(p: Pipe) {
    !p.writerDone && forall i :: 0 <= i < |p.signals| ==> !(p.signals[i].Flush? && p.signals[i].complete)
  }

  /**
   * The loop as written makes a prefix of the intended handler calls, and exactly the
   * intended calls and outcome while the writer never completes: the two differ only in
   * what a completed read leaves undecoded.
   */
  lemma {:induction false} AsWrittenPrefix(p: Pipe)
    ensures ParseAsWritten(p).dispatches <= Parse(p).dispatches
    ensures NeverCompletes(p) ==> ParseAsWritten(p) == Parse(p)
    decreases |p.signals|, |Flatten(p.segs)|, Progress(p)
  {
    match NextRead(p)
    case None =>
    case Some((msg, q)) =>
      if NeverCompletes(p) && !Ready(p) {
        assert forall i :: 0 <= i < |q.signals| ==> q.signals[i] == p.signals[i + 1];
      }
      if !msg.isCompleted && !msg.isCanceled {
        StepIsStepBytes(msg.buffer);
        match Step(msg.buffer)
        case NeedMore =>
          AsWrittenPrefix(q.(examined := true));
        case Unsupported(id) =>
        case Consumed(n, d) =>
          AsWrittenPrefix(Advanced(q, n));
      }
  }

  /**
   * A writer that flushes packets and completes in the same flush: the loop as written
   * stops without decoding any of them, where every Session and Event packet among them
   * was meant to reach the handler.
   */
  lemma CompletionDropsBufferedPackets(frs: seq<Frame>)
    requires forall i :: 0 <= i < |frs| ==> Framed(frs[i])
    ensures var p := Pipe([], true, false, [Flush(Images(frs), true)]);
      ParseAsWritten(p) == Parsed([], Stopped) &&
      Parse(p) == Parsed(Expectations(frs), Stopped)
  {
    var p := Pipe([], true, false, [Flush(Images(frs), true)]);
    assert Written(p) == Images(frs) by {
      assert Pending(p.signals) == Images(frs) + Pending([]);
    }
    ParseDrains(p);
    DrainImages(frs);
  }

  /** The 25-byte event datagram with identifier 3 and every other byte zero. */
  const QuietEvent: seq<byte> := seq(25, i => if i == 3 then 3 as byte else 0 as byte)

  /** One event packet flushed with completion: handed to the handler as intended, dropped as written. */
  lemma OneEventDropped()
    ensures var p := Pipe([], true, false, [Flush(QuietEvent, true)]);
      ParseAsWritten(p).dispatches == [] && Parse(p).dispatches == [EventDispatch(QuietEvent)]
  {
    var fr := Frame(PacketType.Event, QuietEvent);
    assert Framed(fr);
    assert Images([fr]) == QuietEvent;
    assert Expectations([fr]) == [EventDispatch(QuietEvent)];
    CompletionDropsBufferedPackets([fr]);
  }

  /** A read that waits for a writer action that never comes leaves the loop waiting. */
  lemma AsWrittenWaits(p: Pipe)
    requires NextRead(p).None?
    ensures ParseAsWritten(p) == Parsed([], Waiting)
  {
  }

  /** A read that reports completion or cancellation stops the loop as written. */
  lemma AsWrittenStops(p: Pipe)
    requires NextRead(p).Some? && (NextRead(p).value.0.isCompleted || NextRead(p).value.0.isCanceled)
    ensures ParseAsWritten(p) == Parsed([], Stopped)
  {
  }

  /** A pass that finds no whole packet examines the buffer and reads again. */
  lemma AsWrittenNeedMore(p: Pipe)
    requires NextRead(p).Some? && !NextRead(p).value.0.isCompleted && !NextRead(p).value.0.isCanceled
    requires Step(NextRead(p).value.0.buffer) == NeedMore
    ensures ParseAsWritten(p) == ParseAsWritten(NextRead(p).value.1.(examined := true))
  {
  }

  /** A pass that meets an unknown identifier throws. */
  lemma AsWrittenThrows(p: Pipe, id: nat)
    requires NextRead(p).Some? && !NextRead(p).value.0.isCompleted && !NextRead(p).value.0.isCanceled
    requires Step(NextRead(p).value.0.buffer) == Unsupported(id)
    ensures ParseAsWritten(p) == Parsed([], Threw(UnsupportedPacketId(id)))
  {
  }

  /** A pass that consumes a packet makes its handler call, then the loop goes on past it. */
  lemma AsWrittenConsumes(p: Pipe, n: nat, d: Option<Dispatch>)
    requires NextRead(p).Some? && !NextRead(p).value.0.isCompleted && !NextRead(p).value.0.isCanceled
    requires Step(NextRead(p).value.0.buffer) == Consumed(n, d)
    ensures var q := NextRead(p).value.1;
      n <= |Flatten(q.segs)| &&
      ParseAsWritten(p) == Parsed(Calls(d) + ParseAsWritten(Advanced(q, n)).dispatches, ParseAsWritten(Advanced(q, n)).outcome)
  {
    StepIsStepBytes(NextRead(p).value.0.buffer);
  }

  /**
   * Read one struct of n bytes from the front of the buffer the last read returned and
   * advance the reader: past the struct on success, to the end (examined, nothing
   * consumed) when fewer than n bytes are buffered.
   */
  method ReadMessageAndAdvanceBuffer(reader: PipeReader, buffer: Segments, n: nat) returns (ok: bool, image: seq<byte>)
    requires reader.segs == buffer
    modifies reader
    ensures ok == TryReadFromBuffer(buffer, n).success && image == TryReadFromBuffer(buffer, n).image
    ensures ok ==> n <= |Flatten(buffer)| && reader.State() == Advanced(old(reader.State()), n)
    ensures !ok ==> reader.State() == old(reader.State()).(examined := true)
    ensures reader.completed == old(reader.completed)
  {
    var attempt := TryReadFromBuffer(buffer, n);
    TryReadPrefix(buffer, n);
    ok, image := attempt.success, attempt.image;
    if !ok {
      reader.AdvanceToEnd();
    } else {
      reader.AdvanceTo(attempt.bytesRead);
    }
  }

  /** The parser: the calls it makes on its packet handler are recorded in order. */
  class PacketParser {
    var handled: seq<Dispatch>

    constructor()
      ensures handled == []
    {
      handled := [];
    }

    /**
     * The reader loop as written. The handler receives the calls of ParseAsWritten, and
     * the reader is completed however the loop ends, unless it is still waiting.
     */
    method ReadMessages(reader: PipeReader) returns (outcome: Outcome)
      modifies this, reader
      ensures handled == old(handled) + ParseAsWritten(old(reader.State())).dispatches
      ensures outcome == ParseAsWritten(old(reader.State())).outcome
      ensures outcome != Waiting ==> reader.completed
      ensures outcome == Waiting ==> reader.completed == old(reader.completed)
    {
      ghost var start := reader.State();
      ghost var done: seq<Dispatch> := [];
      while true
        invariant handled == old(handled) + done
        invariant ParseAsWritten(start) ==
          Parsed(done + ParseAsWritten(reader.State()).dispatches, ParseAsWritten(reader.State()).outcome)
        invariant reader.completed == old(reader.completed)
        decreases |reader.signals|, |Flatten(reader.segs)|, Progress(reader.State())
      {
        ghost var before := reader.State();
        var msg := reader.ReadAsync();
        if msg.None? {
          AsWrittenWaits(before);
          assert done + [] == done;
          return Waiting;
        }
        var m := msg.value;
        if m.isCompleted || m.isCanceled {
          AsWrittenStops(before);
          assert done + [] == done;
          reader.Complete();
          return Stopped;
        }
        var header := TryReadFromBuffer(m.buffer, HeaderSize);
        if !header.success {
          AsWrittenNeedMore(before);
          reader.AdvanceToEnd();
        } else {
          var id := DecodeHeader(header.image).packetId;
          match TypeOfId(id) {
            case None =>
              AsWrittenThrows(before, id);
              assert done + [] == done;
              reader.Complete();
              return Threw(UnsupportedPacketId(id));
            case Some(t) =>
              var ok, image := ReadMessageAndAdvanceBuffer(reader, m.buffer, SizeOf(t));
              if ok {
                TryReadPrefix(m.buffer, SizeOf(t));
                var d := DispatchOf(t, image);
                AsWrittenConsumes(before, SizeOf(t), d);
                if d.Some? {
                  handled := handled + [d.value];
                }
                ghost var rest := ParseAsWritten(reader.State());
                ConcatAssoc(done, Calls(d), rest.dispatches);
                ConcatAssoc(old(handled), done, Calls(d));
                done := done + Calls(d);
              } else {
                AsWrittenNeedMore(before);
              }
          }
        }
      }
    }
  }
}
