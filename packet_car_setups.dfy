/** The car-setups packet: the header, then a fixed buffer of 20 CarSetupData records of 41 bytes. */
module CarSetupsPackets {
  import opened Wire
  import opened PacketHeaders
  import opened PacketFormats

  /**
   * Front and rear wing, on- and off-throttle differential (bytes); front and rear camber,
   * front and rear toe (floats); suspension, anti-roll bars, ride heights, brake pressure and
   * bias (eight bytes); front and rear tyre pressure (floats); ballast (byte); fuel load (float).
   */
  const CarSetupLayout: Layout := Run(U8, 4) + Run(F32, 4) + Run(U8, 8) + Run(F32, 2) + Run(U8, 1) + Run(F32, 1)

  /** The declared CarSetupData.Size: 7 * sizeof(float) + 13. */
  const CarSetupSize: nat := 7 * 4 + 13

  const CarSetupsFormat: Format := Format([], CarSetupLayout, CarCount, [])

  /** A record has 20 fields and the declared stride of 41 bytes. */
  lemma CarSetupStride()
    ensures |CarSetupLayout| == 20
    ensures Size(CarSetupLayout) == CarSetupSize == 41
  {
    Sizes();
  }

  /** The records fill 820 bytes after the header; the packet is the documented 841 bytes. */
  lemma CarSetupsPacketSize()
    ensures BufferStart(CarSetupsFormat) == HeaderSize
    ensures BufferSize(CarSetupsFormat) == 820
    ensures TotalSize(CarSetupsFormat) == 841 == SizeOf(PacketType.CarSetups)
  {
    CarSetupStride();
    FormatSize(CarSetupsFormat, 0, 41, 0);
  }

  /** Setup i is read from the 41 bytes at 21 + 41 * i. */
  lemma CarSetupAt(s: seq<byte>, i: nat)
    requires |s| == TotalSize(CarSetupsFormat) && i < CarCount
    ensures Size(CarSetupLayout) == 41 && 21 + 41 * i + 41 <= |s|
    ensures Records(CarSetupsFormat, Read(CarSetupsFormat, s))[i] == Decode(CarSetupLayout, s[21 + 41 * i..21 + 41 * i + 41])
  {
    CarSetupsPacketSize();
    CarSetupStride();
    TimesIsProduct(i, 41);
    RecordAtOffset(CarSetupsFormat, s, i, 21 + 41 * i, 41);
  }

  /** Writing back the struct read from an 841-byte datagram reproduces the datagram. */
  lemma CarSetupsRoundTrip(s: seq<byte>)
    requires |s| == TotalSize(CarSetupsFormat)
    ensures Write(CarSetupsFormat, Read(CarSetupsFormat, s)) == s
  {
    WriteRead(CarSetupsFormat, s);
  }
}
