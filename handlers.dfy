/**
 * The handler interface the packet consumers implement: one method per packet type,
 * each receiving the packet by reference together with where the packet came from.
 * A call of that interface is a value here: the packet type names the method.
 */
module Handlers {
  import opened PacketHeaders
  import opened PacketFormats
  import opened Packets

  /** Where a packet came from: the live UDP feed or a recorded file. */
  datatype PacketSource = Udp | File

  /** One call of the interface: the On* method for kind, the packet it receives by reference, and the source. */
  datatype Call = Call(kind: PacketType, packet: Packet, source: PacketSource)

  /** The packet is a value of the struct its method takes. */
  predicate WellFormed(c: Call) {
    Valid(FormatOf(c.kind), c.packet)
  }

  /** The session id every handler keys its bookkeeping by: the header's SessionUID. */
  function SessionOf(c: Call): nat {
    c.packet.header.sessionUid
  }

  /**
   * The exceptions the modelled handlers raise: a missing dictionary key, an unknown event
   * code, and a pacing delay that TimeSpan.FromSeconds or Thread.Sleep rejects.
   */
  datatype Fault = KeyNotFound(sessionId: nat) | InvalidSessionType(code: string) | InvalidDelay

  /**
   * What one invocation of a handler left behind: the handler's own new state and the
   * packet as it left it, and the exception when it threw one.
   */
  datatype Reaction<H> = Returned(state: H, packet: Packet) | Threw(state: H, packet: Packet, fault: Fault)
}
