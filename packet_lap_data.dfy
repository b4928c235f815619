/** The lap-data packet: the header, then a fixed buffer of 20 LapData records of 41 bytes. */
module LapDataPackets {
  import opened Wire
  import opened PacketHeaders
  import opened PacketFormats

  /**
   * LapData: eight 4-byte floats (last, current and best lap time, the two sector
   * times, lap and total distance, safety-car delta), then nine one-byte fields
   * (position, lap number, pit status, sector, lap invalid, penalties, grid position,
   * driver status, result status).
   */
  const LapDataLayout: Layout := Run(F32, 8) + Run(U8, 9)

  /** The declared LapData.Size: 8 * sizeof(float) + 9. */
  const LapDataSize: nat := 8 * 4 + 9

  /** No leading fields, 20 LapData records, no trailing fields. */
  const LapDataFormat: Format := Format([], LapDataLayout, CarCount, [])

  lemma LapDataStride()
    ensures Size(LapDataLayout) == LapDataSize == 41
  {
    SizeAppend(Run(F32, 8), Run(U8, 9));
    SizeRun(F32, 8);
    SizeRun(U8, 9);
  }

  /** The records fill 820 bytes right after the header, and the whole packet is the documented 841 bytes. */
  lemma LapDataPacketSize()
    ensures BufferStart(LapDataFormat) == HeaderSize
    ensures BufferSize(LapDataFormat) == 820
    ensures TotalSize(LapDataFormat) == 841 == SizeOf(PacketType.LapData)
  {
    LapDataStride();
    FormatSize(LapDataFormat, 0, 41, 0);
  }

  /** Car i's LapData is read from bytes 21 + 41 * i .. 21 + 41 * i + 40 of the datagram. */
  lemma LapDataOfCar(s: seq<byte>, i: nat)
    requires |s| == TotalSize(LapDataFormat) && i < CarCount
    ensures Size(LapDataLayout) == 41 && 21 + 41 * i + 41 <= |s|
    ensures Records(LapDataFormat, Read(LapDataFormat, s))[i] == Decode(LapDataLayout, s[21 + 41 * i..21 + 41 * i + 41])
  {
    LapDataPacketSize();
    LapDataStride();
    TimesIsProduct(i, 41);
    RecordAtOffset(LapDataFormat, s, i, 21 + 41 * i, 41);
  }

  /** Writing back the struct read from an 841-byte datagram reproduces the datagram. */
  lemma LapDataRoundTrip(s: seq<byte>)
    requires |s| == TotalSize(LapDataFormat)
    ensures Write(LapDataFormat, Read(LapDataFormat, s)) == s
  {
    WriteRead(LapDataFormat, s);
  }
}
