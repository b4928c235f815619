/**
 * The datagram validator and the one-packet decode step of the packet parser.
 * The reader loop that drives the step over a pipe is in module PipeParsing.
 */
module PacketParsers {
  import opened Wrappers
  import opened Wire
  import opened PacketHeaders
  import opened PacketFormats
  import opened SessionPackets
  import opened EventPackets
  import opened Packets

  /** The only packet format the parser accepts. */
  const SupportedFormat: nat := 2018

  /** The exceptions the parser raises. */
  datatype Fault =
    | HeaderOutOfRange            // reading a header from fewer than 21 bytes
    | UnsupportedPacketId(id: nat) // a packet identifier with no packet type

  /** The checks made once a whole header is available: format 2018, a known type, and that type's full size. */
  predicate Accepts(s: seq<byte>)
    requires |s| >= HeaderSize
  {
    var h := DecodeHeader(s[..HeaderSize]);
    h.packetFormat == SupportedFormat && h.packetId < |PacketSizes| && |s| >= PacketSizes[h.packetId]
  }

  /**
   * The validator as written: the header is reinterpreted from the datagram before its
   * length is compared with the header size, so a datagram shorter than the header throws.
   */
  function ValidateAsWritten(s: seq<byte>): (r: Result<bool, Fault>)
    ensures r.Err? <==> |s| < HeaderSize
  {
    if |s| < HeaderSize then Err(HeaderOutOfRange) else Ok(Accepts(s))
  }

  /** The validator with the length check first, as its log message and its false result intend. */
  function Validate(s: seq<byte>): (ok: bool)
    ensures ok ==> |s| >= HeaderSize
  {
    |s| >= HeaderSize && Accepts(s)
  }

  /** On every datagram of at least 21 bytes the validator as written returns what the corrected one returns. */
  lemma ValidateAgrees(s: seq<byte>)
    requires |s| >= HeaderSize
    ensures ValidateAsWritten(s) == Ok(Validate(s))
  {
  }

  /** A datagram shorter than the header makes the validator as written throw, where a false result was intended. */
  lemma ShortDatagramThrows(s: seq<byte>)
    requires |s| < HeaderSize
    ensures ValidateAsWritten(s) == Err(HeaderOutOfRange)
    ensures !Validate(s)
  {
  }

  /** Bytes of a ReadOnlySequence: the segments as the writer flushed them. */
  type Segments = seq<seq<byte>>

  /** The first segment, or the empty span of an empty sequence. */
  function FirstSpan(segs: Segments): (span: seq<byte>)
    ensures segs != [] ==> span == segs[0]
  {
    if segs == [] then [] else segs[0]
  }

  function Zeros(n: nat): (z: seq<byte>)
    ensures |z| == n && forall i :: 0 <= i < n ==> z[i] == 0
  {
    seq(n, _ => 0)
  }

  /** What TryReadFromBuffer reports: success, the bytes the struct is read from, and bytesRead. */
  datatype ReadAttempt = ReadAttempt(success: bool, image: seq<byte>, bytesRead: nat)

  /**
   * Read an n-byte struct from the front of the sequence: from the first span when it holds
   * n bytes, otherwise from a copy of the first n bytes; with too few bytes, the default
   * (all-zero) struct and 0 bytes read.
   */
  function TryReadFromBuffer(segs: Segments, n: nat): (r: ReadAttempt)
    ensures |r.image| == n
  {
    var all := Flatten(segs);
    if |all| < n then ReadAttempt(false, Zeros(n), 0)
    else if |FirstSpan(segs)| >= n then ReadAttempt(true, FirstSpan(segs)[..n], n)
    else ReadAttempt(true, all[..n], n)
  }

  lemma FlattenFirst(segs: Segments)
    requires segs != []
    ensures Flatten(segs) == segs[0] + Flatten(segs[1..])
  {
  }

  /**
   * Both branches read the same bytes: the attempt succeeds exactly when n bytes are
   * buffered, and then reads the first n of them and reports n bytes read, whether or not
   * they lie in one segment; otherwise it reads nothing.
   */
  lemma TryReadPrefix(segs: Segments, n: nat)
    ensures TryReadFromBuffer(segs, n).success <==> |Flatten(segs)| >= n
    ensures TryReadFromBuffer(segs, n).success ==>
      TryReadFromBuffer(segs, n).image == Flatten(segs)[..n] && TryReadFromBuffer(segs, n).bytesRead == n
    ensures !TryReadFromBuffer(segs, n).success ==>
      TryReadFromBuffer(segs, n).image == Zeros(n) && TryReadFromBuffer(segs, n).bytesRead == 0
  {
    if segs != [] && |segs[0]| >= n {
      FlattenFirst(segs);
      assert Flatten(segs)[..n] == segs[0][..n];
    }
  }

  /**
   * A handler call: only Session and Event packets are dispatched. The call carries the
   * bytes the struct is reinterpreted from; Received gives the struct the handler sees.
   */
  datatype Dispatch = SessionDispatch(image: seq<byte>) | EventDispatch(image: seq<byte>)

  function DispatchFormat(d: Dispatch): Format {
    if d.SessionDispatch? then SessionFormat else EventFormat
  }

  /** The struct a handler receives: the dispatched bytes read as a packet of the dispatched type. */
  function Received(d: Dispatch): (p: Packet)
    requires |d.image| == TotalSize(DispatchFormat(d))
    ensures Valid(DispatchFormat(d), p)
    ensures Write(DispatchFormat(d), p) == d.image
  {
    WriteRead(DispatchFormat(d), d.image);
    Read(DispatchFormat(d), d.image)
  }

  /** The handler call for a whole packet of type t read from its image; the other six types are dropped. */
  function DispatchOf(t: PacketType, image: seq<byte>): (d: Option<Dispatch>)
    requires |image| == SizeOf(t)
    ensures d.Some? <==> t == PacketType.Session || t == PacketType.Event
    ensures d.Some? ==> d.value.image == image
  {
    match t
    case Session => Some(SessionDispatch(image))
    case Event => Some(EventDispatch(image))
    case _ => None
  }

  /** The result of one pass of the reader loop over the buffered bytes. */
  datatype StepResult =
    | NeedMore                                    // nothing consumed; wait for more bytes
    | Consumed(size: nat, dispatch: Option<Dispatch>) // one whole packet consumed
    | Unsupported(id: nat)                        // the header names no packet type: the loop throws

  /**
   * One pass as the parser makes it: try to read a header; on success switch on its
   * identifier and try to read the whole packet of that type from the front of the buffer.
   */
  function Step(segs: Segments): (r: StepResult)
  {
    var h := TryReadFromBuffer(segs, HeaderSize);
    if !h.success then NeedMore
    else
      var id := DecodeHeader(h.image).packetId;
      match TypeOfId(id)
      case None => Unsupported(id)
      case Some(t) =>
        var m := TryReadFromBuffer(segs, SizeOf(t));
        if !m.success then NeedMore else Consumed(m.bytesRead, DispatchOf(t, m.image))
  }

  /** The packet identifier: byte 3 of at least a header's worth of bytes. */
  function IdAt(b: seq<byte>): (id: nat)
    requires |b| >= HeaderSize
    ensures id < 256
  {
    b[3] as nat
  }

  /** IdAt is the identifier of the header read from the first 21 bytes. */
  lemma IdAtHeader(b: seq<byte>)
    requires |b| >= HeaderSize
    ensures IdAt(b) == DecodeHeader(b[..HeaderSize]).packetId
  {
    HeaderField(b[..HeaderSize], 2);
    assert b[..HeaderSize][3..4] == b[3..4];
    OneByte(b[3..4]);
  }

  /** The same pass stated on the buffered bytes laid end to end. */
  function StepBytes(b: seq<byte>): (r: StepResult)
    ensures r.Consumed? ==> HeaderSize <= r.size <= |b|
  {
    if |b| < HeaderSize then NeedMore
    else
      match TypeOfId(IdAt(b))
      case None => Unsupported(IdAt(b))
      case Some(t) => if |b| < SizeOf(t) then NeedMore else Consumed(SizeOf(t), DispatchOf(t, b[..SizeOf(t)]))
  }

  /** How the buffered bytes are split into segments does not change the pass. */
  lemma StepIsStepBytes(segs: Segments)
    ensures Step(segs) == StepBytes(Flatten(segs))
  {
    var b := Flatten(segs);
    TryReadPrefix(segs, HeaderSize);
    if |b| >= HeaderSize {
      var id := IdAt(b);
      IdAtHeader(b);
      if TypeOfId(id).Some? {
        TryReadPrefix(segs, SizeOf(TypeOfId(id).value));
      }
    }
  }

  /** Nothing is consumed until a whole header and then a whole packet of its type are buffered. */
  lemma StepWaitsForWholePacket(b: seq<byte>)
    ensures StepBytes(b) == NeedMore <==>
      |b| < HeaderSize || (IdAt(b) < |PacketSizes| && |b| < PacketSizes[IdAt(b)])
  {
  }

  /** A pass that consumes advances by exactly the full size of the type in the header, header included. */
  lemma StepAdvancesByPacketSize(b: seq<byte>)
    requires StepBytes(b).Consumed?
    ensures |b| >= HeaderSize && IdAt(b) < |PacketSizes|
    ensures StepBytes(b).size == PacketSizes[IdAt(b)]
  {
  }

  /** An identifier of 8 or more is reported, whatever follows it. */
  lemma StepRejectsUnknownId(b: seq<byte>)
    requires |b| >= HeaderSize && IdAt(b) >= |PacketSizes|
    ensures StepBytes(b) == Unsupported(IdAt(b))
  {
  }

  /** Only Session and Event packets produce a handler call; it carries exactly the consumed bytes. */
  lemma StepDispatches(b: seq<byte>)
    requires StepBytes(b).Consumed?
    ensures |b| >= HeaderSize && IdAt(b) < |PacketSizes|
    ensures var t := TypeOfId(IdAt(b)).value;
      StepBytes(b).dispatch.Some? <==> t == PacketType.Session || t == PacketType.Event
    ensures StepBytes(b).dispatch.Some? ==> StepBytes(b).dispatch.value.image == b[..StepBytes(b).size]
  {
  }

  /** Bytes arriving after a decided pass do not change it. */
  lemma StepExtends(b: seq<byte>, c: seq<byte>)
    requires StepBytes(b) != NeedMore
    ensures StepBytes(b + c) == StepBytes(b)
  {
    assert (b + c)[..HeaderSize] == b[..HeaderSize];
    assert (b + c)[3] == b[3];
    if StepBytes(b).Consumed? {
      var n := StepBytes(b).size;
      assert (b + c)[..n] == b[..n];
    }
  }

  /**
   * The validator accepts exactly the datagrams of format 2018 on which the decoder
   * can take a step: a whole header, a known type, and the whole packet of that type.
   */
  lemma ValidateMatchesStep(s: seq<byte>)
    ensures Validate(s) <==>
      |s| >= HeaderSize && DecodeHeader(s[..HeaderSize]).packetFormat == SupportedFormat && StepBytes(s).Consumed?
  {
    if |s| >= HeaderSize {
      var id := IdAt(s);
      IdAtHeader(s);
      if id < |PacketSizes| {
        assert SizeOf(TypeOfId(id).value) == PacketSizes[id];
      }
    }
  }

  /** The datagram of a packet of a known type: the right size, and that type's identifier in its header. */
  datatype Frame = Frame(kind: PacketType, bytes: seq<byte>)

  predicate Framed(fr: Frame) {
    |fr.bytes| == SizeOf(fr.kind) && IdAt(fr.bytes) == Id(fr.kind)
  }

  /** The handler call a framed packet should produce: its own bytes, for a Session or Event packet. */
  function Expected(fr: Frame): (d: Option<Dispatch>)
    requires Framed(fr)
    ensures d.Some? <==> fr.kind == PacketType.Session || fr.kind == PacketType.Event
  {
    DispatchOf(fr.kind, fr.bytes)
  }

  /** A dispatched packet type is read with its own format. */
  lemma DispatchFormatOf(t: PacketType, image: seq<byte>)
    requires |image| == SizeOf(t) && DispatchOf(t, image).Some?
    ensures DispatchFormat(DispatchOf(t, image).value) == FormatOf(t)
  {
  }

  /**
   * Writing a packet whose header carries its type's identifier gives a frame, and the
   * handler call that frame produces delivers the very packet that was written.
   */
  lemma WrittenFrame(t: PacketType, p: Packet)
    requires Valid(FormatOf(t), p) && p.header.packetId == Id(t)
    ensures Framed(Frame(t, Write(FormatOf(t), p)))
    ensures var d := Expected(Frame(t, Write(FormatOf(t), p)));
      d.Some? ==> |d.value.image| == TotalSize(DispatchFormat(d.value)) && Received(d.value) == p
  {
    var f := FormatOf(t);
    var img := Write(f, p);
    FormatSizes(t);
    ReadWrite(f, p);
    ReadParts(f, img);
    IdAtHeader(img);
    if DispatchOf(t, img).Some? {
      DispatchFormatOf(t, img);
    }
  }

  /** A pass over a frame, whatever follows it, consumes exactly that frame and dispatches its bytes. */
  lemma StepFrame(fr: Frame, rest: seq<byte>)
    requires Framed(fr)
    ensures StepBytes(fr.bytes + rest) == Consumed(SizeOf(fr.kind), Expected(fr))
  {
    TypeOfIdOfId(fr.kind);
    assert fr.bytes[..SizeOf(fr.kind)] == fr.bytes;
    StepExtends(fr.bytes, rest);
  }

  /** What decoding a byte string packet by packet yields: the handler calls, the bytes left, and the exception that stopped it. */
  datatype Drained = Drained(dispatches: seq<Dispatch>, rest: seq<byte>, fault: Option<Fault>)

  /** The handler calls an optional dispatch stands for. */
  function Calls(d: Option<Dispatch>): (ds: seq<Dispatch>)
    ensures |ds| <= 1
  {
    if d.Some? then [d.value] else []
  }

  /** A pass that consumes takes at least one byte and no more than it has. */
  ghost predicate Advances(step: seq<byte> -> StepResult) {
    forall b :: step(b).Consumed? ==> 0 < step(b).size <= |b|
  }

  /** A pass that does not wait for more bytes is not changed by bytes arriving after them. */
  ghost predicate Stable(step: seq<byte> -> StepResult) {
    forall b, c :: step(b) != NeedMore ==> step(b + c) == step(b)
  }

  /** Take passes of step until one waits for more bytes or throws. */
  function DrainBy(step: seq<byte> -> StepResult, b: seq<byte>): (r: Drained)
    requires Advances(step)
    decreases |b|
  {
    match step(b)
    case NeedMore => Drained([], b, None)
    case Unsupported(id) => Drained([], b, Some(UnsupportedPacketId(id)))
    case Consumed(n, d) =>
      var r := DrainBy(step, b[n..]);
      Drained(Calls(d) + r.dispatches, r.rest, r.fault)
  }

  /** The decoder's own passes are Advances and Stable. */
  lemma StepBytesDrains()
    ensures Advances(StepBytes) && Stable(StepBytes)
  {
    forall b, c | StepBytes(b) != NeedMore
      ensures StepBytes(b + c) == StepBytes(b)
    {
      StepExtends(b, c);
    }
  }

  /** Decoding a byte string packet by packet: the reference for the reader loop. */
  function Drain(b: seq<byte>): (r: Drained)
  {
    StepBytesDrains();
    DrainBy(StepBytes, b)
  }

  /** Draining stops on the bytes of an incomplete packet, or on a header naming no type. */
  lemma {:induction false} DrainByStops(step: seq<byte> -> StepResult, b: seq<byte>)
    requires Advances(step)
    ensures DrainBy(step, b).fault.None? ==> step(DrainBy(step, b).rest) == NeedMore
    ensures DrainBy(step, b).fault.Some? ==> step(DrainBy(step, b).rest).Unsupported?
    decreases |b|
  {
    match step(b)
    case NeedMore =>
    case Unsupported(id) =>
    case Consumed(n, d) =>
      DrainByStops(step, b[n..]);
  }

  lemma {:induction false} DrainByAppend(step: seq<byte> -> StepResult, b: seq<byte>, c: seq<byte>)
    requires Advances(step) && Stable(step)
    requires DrainBy(step, b).fault.None?
    ensures DrainBy(step, b + c).dispatches == DrainBy(step, b).dispatches + DrainBy(step, DrainBy(step, b).rest + c).dispatches
    ensures DrainBy(step, b + c).fault == DrainBy(step, DrainBy(step, b).rest + c).fault
    decreases |b|
  {
    match step(b)
    case NeedMore =>
    case Consumed(n, d) =>
      assert step(b + c) == step(b);
      SliceAppend(b, c, n);
      DrainByAppend(step, b[n..], c);
      var tail := DrainBy(step, b[n..]);
      var after := DrainBy(step, tail.rest + c);
      ConcatAssoc(Calls(d), tail.dispatches, after.dispatches);
  }

  lemma SliceAppend(b: seq<byte>, c: seq<byte>, n: nat)
    requires n <= |b|
    ensures (b + c)[n..] == b[n..] + c
  {
  }

  lemma ConcatAssoc(x: seq<Dispatch>, y: seq<Dispatch>, z: seq<Dispatch>)
    ensures (x + y) + z == x + (y + z)
  {
  }

  /** Draining stops on the bytes of an incomplete packet, or on a header naming no type. */
  lemma DrainStops(b: seq<byte>)
    ensures Drain(b).fault.None? ==> StepBytes(Drain(b).rest) == NeedMore
    ensures Drain(b).fault.Some? ==> StepBytes(Drain(b).rest).Unsupported?
  {
    StepBytesDrains();
    DrainByStops(StepBytes, b);
  }

  /**
   * Bytes appended after a drain that waited for more continue the drain where it stopped:
   * decoding in two installments gives the handler calls of decoding all at once.
   */
  lemma DrainAppend(b: seq<byte>, c: seq<byte>)
    requires Drain(b).fault.None?
    ensures Drain(b + c).dispatches == Drain(b).dispatches + Drain(Drain(b).rest + c).dispatches
    ensures Drain(b + c).fault == Drain(Drain(b).rest + c).fault
  {
    StepBytesDrains();
    DrainByAppend(StepBytes, b, c);
  }

  /** A pass that consumes a packet contributes its handler call ahead of the drain of the remaining bytes. */
  lemma DrainConsumed(b: seq<byte>)
    requires StepBytes(b).Consumed?
    ensures var n := StepBytes(b).size;
      n <= |b| &&
      Drain(b) == Drained(Calls(StepBytes(b).dispatch) + Drain(b[n..]).dispatches, Drain(b[n..]).rest, Drain(b[n..]).fault)
  {
  }

  /** A pass that meets an unknown identifier ends the drain with that exception. */
  lemma DrainThrows(b: seq<byte>)
    requires StepBytes(b).Unsupported?
    ensures Drain(b) == Drained([], b, Some(UnsupportedPacketId(StepBytes(b).id)))
  {
  }

  /** A pass that waits for more bytes ends the drain with nothing decoded. */
  lemma DrainWaits(b: seq<byte>)
    requires StepBytes(b) == NeedMore
    ensures Drain(b) == Drained([], b, None)
  {
  }

  /** The datagrams of a sequence of frames, back to back. */
  function Images(frs: seq<Frame>): (s: seq<byte>)
  {
    if frs == [] then [] else frs[0].bytes + Images(frs[1..])
  }

  /** The handler calls a sequence of frames should produce, in order. */
  function Expectations(frs: seq<Frame>): (ds: seq<Dispatch>)
    requires forall i :: 0 <= i < |frs| ==> Framed(frs[i])
  {
    if frs == [] then [] else Calls(Expected(frs[0])) + Expectations(frs[1..])
  }

  /**
   * Packets written back to back decode to exactly their handler calls, in order, with no
   * bytes left over and no exception: the decoder inverts the writer.
   */
  lemma {:induction false} DrainImages(frs: seq<Frame>)
    requires forall i :: 0 <= i < |frs| ==> Framed(frs[i])
    ensures Drain(Images(frs)) == Drained(Expectations(frs), [], None)
  {
    if frs != [] {
      var img := frs[0].bytes;
      var rest := Images(frs[1..]);
      StepFrame(frs[0], rest);
      assert (img + rest)[SizeOf(frs[0].kind)..] == rest;
      DrainConsumed(img + rest);
      DrainImages(frs[1..]);
    } else {
      DrainWaits([]);
    }
  }
}
