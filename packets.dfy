/** The format of each packet type, and the agreement of every format with the documented size table. */
module Packets {
  import opened Wire
  import opened PacketHeaders
  import opened PacketFormats
  import opened MotionPackets
  import opened SessionPackets
  import opened LapDataPackets
  import opened EventPackets
  import opened ParticipantsPackets
  import opened CarSetupsPackets
  import opened CarTelemetryPackets
  import opened CarStatusPackets

  /** The struct a packet of type t is reinterpreted as. */
  function FormatOf(t: PacketType): (f: Format)
    ensures f.count > 0
  {
    match t
    case Motion => MotionFormat
    case Session => SessionFormat
    case LapData => LapDataFormat
    case Event => EventFormat
    case Participants => ParticipantsFormat
    case CarSetups => CarSetupsFormat
    case CarTelemetry => CarTelemetryFormat
    case CarStatus => CarStatusFormat
  }

  /** Every struct's packed size is the entry of the size table for its type. */
  lemma FormatSizes(t: PacketType)
    ensures TotalSize(FormatOf(t)) == SizeOf(t) == PacketSizes[Id(t)]
  {
    match t
    case Motion => MotionPacketSize();
    case Session => SessionPacketSize();
    case LapData => LapDataPacketSize();
    case Event => EventPacketSize();
    case Participants => ParticipantsPacketSize();
    case CarSetups => CarSetupsPacketSize();
    case CarTelemetry => CarTelemetryPacketSize();
    case CarStatus => CarStatusPacketSize();
  }

  /** Every entry of the size table covers at least the 21-byte header. */
  lemma SizesCoverHeader(id: nat)
    requires id < |PacketSizes|
    ensures PacketSizes[id] >= HeaderSize
  {
    var t := TypeOfId(id).value;
    assert SizeOf(t) == PacketSizes[id];
  }
}
