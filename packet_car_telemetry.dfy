/**
 * The car-telemetry packet: the header, a fixed buffer of 20 CarTelemetryData
 * records of 53 bytes, then the ButtonStatus bit flags.
 */
module CarTelemetryPackets {
  import opened Wire
  import opened PacketHeaders
  import opened PacketFormats

  /**
   * Speed (u16), throttle (u8), steer (i8), brake and clutch (u8), gear (i8),
   * engine RPM (u16), DRS and rev-lights percentage (u8).
   */
  const TelemetryLead: Layout := Run(U16, 1) + Run(U8, 1) + Run(I8, 1) + Run(U8, 2) + Run(I8, 1) + Run(U16, 1) + Run(U8, 2)

  /**
   * The brake, tyre-surface and tyre-inner temperature buffers (4 x u16 each),
   * the engine temperature (u16), then the tyre-pressure buffer (4 x float).
   */
  const TelemetryTail: Layout := Run(U16, 12) + Run(U16, 1) + Run(F32, 4)

  const CarTelemetryLayout: Layout := TelemetryLead + TelemetryTail

  /** The declared CarTelemetryData.Size: 15 * sizeof(ushort) + 5 * sizeof(byte) + 2 * sizeof(sbyte) + 4 * sizeof(float). */
  const CarTelemetrySize: nat := 15 * 2 + 5 * 1 + 2 * 1 + 4 * 4

  /** ButtonStatus u32. */
  const TelemetryTrailer: Layout := [U32]

  const CarTelemetryFormat: Format := Format([], CarTelemetryLayout, CarCount, TelemetryTrailer)

  /** A record has 26 fields and the declared stride of 53 bytes. */
  lemma CarTelemetryStride()
    ensures |CarTelemetryLayout| == 26
    ensures Size(CarTelemetryLayout) == CarTelemetrySize == 53
  {
    Sizes();
  }

  /** The records occupy bytes 21 .. 1080, ButtonStatus 1081 .. 1084; the packet is the documented 1085 bytes. */
  lemma CarTelemetryPacketSize()
    ensures Size(TelemetryTrailer) == 4
    ensures BufferStart(CarTelemetryFormat) == HeaderSize
    ensures BufferSize(CarTelemetryFormat) == 1060
    ensures TrailerStart(CarTelemetryFormat) == 1081
    ensures TotalSize(CarTelemetryFormat) == 1085 == SizeOf(PacketType.CarTelemetry)
  {
    CarTelemetryStride();
    assert TelemetryTrailer[1..] == [];
    FormatSize(CarTelemetryFormat, 0, 53, 4);
  }

  /** Car i is read from the 53 bytes at 21 + 53 * i. */
  lemma CarTelemetryAt(s: seq<byte>, i: nat)
    requires |s| == TotalSize(CarTelemetryFormat) && i < CarCount
    ensures Size(CarTelemetryLayout) == 53 && 21 + 53 * i + 53 <= |s|
    ensures Records(CarTelemetryFormat, Read(CarTelemetryFormat, s))[i] == Decode(CarTelemetryLayout, s[21 + 53 * i..21 + 53 * i + 53])
  {
    CarTelemetryPacketSize();
    CarTelemetryStride();
    TimesIsProduct(i, 53);
    RecordAtOffset(CarTelemetryFormat, s, i, 21 + 53 * i, 53);
  }

  /** ButtonStatus is the little-endian value of bytes 1081 .. 1084, right after the car array. */
  lemma ButtonStatusBytes(s: seq<byte>)
    requires |s| == TotalSize(CarTelemetryFormat)
    ensures |s| == 1085
    ensures Read(CarTelemetryFormat, s).trailer[0] == DecodeUint(s[1081..1085])
  {
    CarTelemetryPacketSize();
    assert TelemetryTrailer[..0] == [];
    TrailerAtOffset(CarTelemetryFormat, s, 0, 1081, 4);
  }

  /** Writing back the struct read from a 1085-byte datagram reproduces the datagram. */
  lemma CarTelemetryRoundTrip(s: seq<byte>)
    requires |s| == TotalSize(CarTelemetryFormat)
    ensures Write(CarTelemetryFormat, Read(CarTelemetryFormat, s)) == s
  {
    WriteRead(CarTelemetryFormat, s);
  }
}
