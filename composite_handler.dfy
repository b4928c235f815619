/**
 * The composite handler: every call is fanned out to the registered handlers in
 * registration order, each inside its own try/catch, with the packet passed along by
 * reference. A handler is modelled by its state and a reaction function that gives the
 * state and packet it leaves behind, and whether it threw.
 */
module CompositeHandlers {
  import opened PacketHeaders
  import opened PacketFormats
  import opened Handlers

  /** After one fan-out: every handler's new state, the packet as the last one left it, and the exceptions logged. */
  datatype Round<H> = Round(states: seq<H>, packet: Packet, logged: seq<Fault>)

  /**
   * The fan-out over hs: each handler is invoked on the packet the previous one left,
   * and an exception is logged without stopping the handlers after it.
   */
  function FanOut<H>(react: (H, Call) -> Reaction<H>, hs: seq<H>, c: Call): (r: Round<H>)
    ensures |r.states| == |hs| && |r.logged| <= |hs|
    ensures hs == [] ==> r == Round([], c.packet, [])
    decreases |hs|
  {
    if hs == [] then Round([], c.packet, [])
    else
      var before := FanOut(react, hs[..|hs| - 1], c);
      var o := react(hs[|hs| - 1], c.(packet := before.packet));
      Round(before.states + [o.state], o.packet, before.logged + if o.Threw? then [o.fault] else [])
  }

  /** The packet handler i receives: the call's packet as the handlers before it left it. */
  function Seen<H>(react: (H, Call) -> Reaction<H>, hs: seq<H>, c: Call, i: nat): Packet
    requires i <= |hs|
  {
    FanOut(react, hs[..i], c).packet
  }

  /**
   * Every handler is invoked exactly once, in order: handler i's new state is its reaction
   * to the packet the handlers before it left, whether or not any of them threw, and the
   * packet handed on after it is the one it left.
   */
  lemma {:induction false} EachHandlerOnce<H>(react: (H, Call) -> Reaction<H>, hs: seq<H>, c: Call, i: nat)
    requires i < |hs|
    ensures FanOut(react, hs, c).states[i] == react(hs[i], c.(packet := Seen(react, hs, c, i))).state
    ensures Seen(react, hs, c, i + 1) == react(hs[i], c.(packet := Seen(react, hs, c, i))).packet
    decreases |hs|
  {
    var front := hs[..|hs| - 1];
    assert hs[..i + 1][..i] == hs[..i];
    if i < |hs| - 1 {
      EachHandlerOnce(react, front, c, i);
      assert front[..i] == hs[..i] && front[..i + 1] == hs[..i + 1];
    } else {
      assert front == hs[..i];
    }
  }

  /** The reaction with every exception caught: the same state and packet, nothing thrown. */
  function Swallowed<H>(react: (H, Call) -> Reaction<H>): (H, Call) -> Reaction<H> {
    (h, c) => Returned(react(h, c).state, react(h, c).packet)
  }

  /**
   * Fault isolation: the handlers' states and the final packet are the same as if no
   * handler had thrown; an exception only adds to the log and never reaches the caller.
   */
  lemma {:induction false} FaultsAreContained<H>(react: (H, Call) -> Reaction<H>, hs: seq<H>, c: Call)
    ensures FanOut(Swallowed(react), hs, c).states == FanOut(react, hs, c).states
    ensures FanOut(Swallowed(react), hs, c).packet == FanOut(react, hs, c).packet
    ensures FanOut(Swallowed(react), hs, c).logged == []
    decreases |hs|
  {
    if hs != [] {
      FaultsAreContained(react, hs[..|hs| - 1], c);
    }
  }

  /** The composite: the registered handlers, in constructor order, and the log of caught exceptions. */
  class CompositePacketHandler<H> {
    const react: (H, Call) -> Reaction<H>
    var handlers: seq<H>
    var logged: seq<Fault>

    constructor(react: (H, Call) -> Reaction<H>, handlers: seq<H>)
      ensures this.react == react && this.handlers == handlers && logged == []
    {
      this.react := react;
      this.handlers := handlers;
      logged := [];
    }

    /**
     * HandlePacket for the On* method of kind (each of the eight forwards this way): every
     * handler is invoked once, in order, on the packet by reference; exceptions are logged.
     */
    method HandlePacket(kind: PacketType, packet: Packet, source: PacketSource) returns (after: Packet)
      modifies this
      ensures handlers == FanOut(react, old(handlers), Call(kind, packet, source)).states
      ensures after == FanOut(react, old(handlers), Call(kind, packet, source)).packet
      ensures logged == old(logged) + FanOut(react, old(handlers), Call(kind, packet, source)).logged
    {
      var c := Call(kind, packet, source);
      ghost var hs := handlers;
      ghost var start := logged;
      var faults: seq<Fault> := [];
      after := packet;
      var i := 0;
      while i < |handlers|
        invariant 0 <= i <= |handlers| == |hs| && logged == start
        invariant forall j :: i <= j < |hs| ==> handlers[j] == hs[j]
        invariant FanOut(react, hs[..i], c) == Round(handlers[..i], after, faults)
      {
        var o := react(handlers[i], c.(packet := after));
        assert hs[..i + 1][..i] == hs[..i];
        handlers := handlers[i := o.state];
        after := o.packet;
        if o.Threw? {
          faults := faults + [o.fault];
        }
        i := i + 1;
      }
      assert hs[..i] == hs;
      logged := logged + faults;
    }
  }
}
