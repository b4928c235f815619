/**
 * The pipe the parser reads from, as far as the reader loop observes it: the buffered
 * segments, whether everything buffered has been examined, whether the writer has
 * completed, and the writer's future actions, which arrive while the reader waits.
 */
module Pipes {
  import opened Wrappers
  import opened Wire
  import opened PacketParsers

  /** A writer action: flush a chunk (completing the writer or not), or cancel the pending read. */
  datatype Signal = Flush(chunk: seq<byte>, complete: bool) | CancelRead

  /**
   * The reader's view of the pipe. examined holds when the last AdvanceTo examined all
   * buffered bytes, so that the next read waits for the writer.
   */
  datatype Pipe = Pipe(segs: Segments, examined: bool, writerDone: bool, signals: seq<Signal>)

  /** What ReadAsync returns: the buffered segments and the completed and canceled flags. */
  datatype ReadResult = ReadResult(buffer: Segments, isCompleted: bool, isCanceled: bool)

  /** A read does not wait when the writer has completed or there are bytes not yet examined. */
  predicate Ready(p: Pipe) {
    p.writerDone || !p.examined
  }

  /**
   * The result of ReadAsync and the pipe after it, or None when the read waits for a
   * writer action that never comes. A read that has to wait takes the writer's next action.
   */
  function NextRead(p: Pipe): (r: Option<(ReadResult, Pipe)>)
    ensures r.None? <==> !Ready(p) && p.signals == []
    ensures r.Some? ==> r.value.0.buffer == r.value.1.segs
    ensures r.Some? && !r.value.0.isCanceled ==> r.value.0.isCompleted == r.value.1.writerDone
    ensures r.Some? && Ready(p) ==> r.value == (ReadResult(p.segs, p.writerDone, false), p)
    ensures r.Some? && !Ready(p) ==> r.value.1.signals == p.signals[1..]
  {
    if Ready(p) then Some((ReadResult(p.segs, p.writerDone, false), p))
    else if p.signals == [] then None
    else match p.signals[0]
      case CancelRead =>
        Some((ReadResult(p.segs, p.writerDone, true), p.(signals := p.signals[1..])))
      case Flush(c, done) =>
        var q := Pipe(p.segs + [c], false, done, p.signals[1..]);
        Some((ReadResult(q.segs, done, false), q))
  }

  /** Flattening distributes over a new last segment. */
  lemma {:induction false} FlattenAppend(segs: Segments, c: seq<byte>)
    ensures Flatten(segs + [c]) == Flatten(segs) + c
  {
    if segs != [] {
      assert (segs + [c])[1..] == segs[1..] + [c];
      FlattenAppend(segs[1..], c);
    }
  }

  /** The segments left after consuming n bytes: whole segments drop, the next one is sliced. */
  function DropBytes(segs: Segments, n: nat): (r: Segments)
    requires n <= |Flatten(segs)|
    ensures Flatten(r) == Flatten(segs)[n..]
    decreases |segs|
  {
    if n == 0 then segs
    else
      FlattenFirst(segs);
      if n >= |segs[0]| then DropBytes(segs[1..], n - |segs[0]|)
      else
        var r := [segs[0][n..]] + segs[1..];
        FlattenFirst(r);
        assert r[1..] == segs[1..];
        r
  }

  /** The reading end of the pipe; completed records the reader's Complete call. */
  class PipeReader {
    var segs: Segments
    var examined: bool
    var writerDone: bool
    var signals: seq<Signal>
    var completed: bool

    function State(): Pipe
      reads this
    {
      Pipe(segs, examined, writerDone, signals)
    }

    /** A fresh pipe: nothing buffered, so the first read waits for the writer's first action. */
    constructor(writes: seq<Signal>)
      ensures State() == Pipe([], true, false, writes) && !completed
    {
      segs, examined, writerDone, signals := [], true, false, writes;
      completed := false;
    }

    method ReadAsync() returns (r: Option<ReadResult>)
      modifies this
      ensures NextRead(old(State())).None? ==> r.None? && State() == old(State())
      ensures NextRead(old(State())).Some? ==>
        r == Some(NextRead(old(State())).value.0) && State() == NextRead(old(State())).value.1
      ensures completed == old(completed)
    {
      var next := NextRead(State());
      if next.Some? {
        var q := next.value.1;
        segs, examined, writerDone, signals := q.segs, q.examined, q.writerDone, q.signals;
        r := Some(next.value.0);
      } else {
        r := None;
      }
    }

    /**
     * AdvanceTo(position after n bytes): consume n bytes; what remains is not yet examined,
     * so the next read returns at once unless nothing remains.
     */
    method AdvanceTo(n: nat)
      requires n <= |Flatten(segs)|
      modifies this
      ensures State() == old(State()).(segs := DropBytes(old(segs), n), examined := n == |Flatten(old(segs))|)
      ensures completed == old(completed)
    {
      examined := n == |Flatten(segs)|;
      segs := DropBytes(segs, n);
    }

    /** AdvanceTo(Start, End): consume nothing, examine everything; the next read waits for the writer. */
    method AdvanceToEnd()
      modifies this
      ensures State() == old(State()).(examined := true)
      ensures completed == old(completed)
    {
      examined := true;
    }

    method Complete()
      modifies this
      ensures State() == old(State()) && completed
    {
      completed := true;
    }
  }
}
