/**
 * The participants packet: the header, the number of active cars, then a fixed
 * buffer of 20 ParticipantData records of 53 bytes.
 */
module ParticipantsPackets {
  import opened Wire
  import opened PacketHeaders
  import opened PacketFormats

  /** NumCars u8. */
  const ParticipantsFields: Layout := [U8]

  /** AiControlled, DriverId, TeamId, RaceNumber, Nationality: one byte each. */
  const ParticipantLead: Layout := Run(U8, 5)

  /** The fixed 48-byte buffer holding the null-terminated UTF-8 name. */
  const NameLength: nat := 48

  const ParticipantLayout: Layout := ParticipantLead + Run(U8, NameLength)

  /** The declared ParticipantData.Size: 5 + 48. */
  const ParticipantSize: nat := 5 + 48

  const ParticipantsFormat: Format := Format(ParticipantsFields, ParticipantLayout, CarCount, [])

  lemma ParticipantStride()
    ensures |ParticipantLayout| == 53
    ensures Size(ParticipantLayout) == ParticipantSize == 53
  {
    SizeAppend(ParticipantLead, Run(U8, NameLength));
    SizeRun(U8, 5);
    SizeRun(U8, NameLength);
  }

  /** NumCars takes one byte; the records fill 20 * 53 = 1060 bytes; the packet is the documented 1082 bytes. */
  lemma ParticipantsPacketSize()
    ensures Size(ParticipantsFields) == 1
    ensures BufferStart(ParticipantsFormat) == 22
    ensures BufferSize(ParticipantsFormat) == 1060
    ensures TotalSize(ParticipantsFormat) == 21 + 1 + 20 * 53 == 1082 == SizeOf(PacketType.Participants)
  {
    ParticipantStride();
    assert ParticipantsFields[1..] == [];
    FormatSize(ParticipantsFormat, 1, 53, 0);
  }

  /** NumCars is byte 21. */
  lemma NumCarsByte(s: seq<byte>)
    requires |s| == TotalSize(ParticipantsFormat)
    ensures |s| == 1082
    ensures Read(ParticipantsFormat, s).fields[0] == s[21] as nat
  {
    ParticipantsPacketSize();
    assert ParticipantsFields[..0] == [];
    FieldAtOffset(ParticipantsFormat, s, 0, 21, 1);
    OneByte(s[21..22]);
  }

  /** Participant i is read from the 53 bytes at 22 + 53 * i. */
  lemma ParticipantAt(s: seq<byte>, i: nat)
    requires |s| == TotalSize(ParticipantsFormat) && i < CarCount
    ensures Size(ParticipantLayout) == 53 && 22 + 53 * i + 53 <= |s|
    ensures Records(ParticipantsFormat, Read(ParticipantsFormat, s))[i] == Decode(ParticipantLayout, s[22 + 53 * i..22 + 53 * i + 53])
  {
    ParticipantsPacketSize();
    ParticipantStride();
    TimesIsProduct(i, 53);
    RecordAtOffset(ParticipantsFormat, s, i, 22 + 53 * i, 53);
  }

  /** The name of participant i is exactly the 48 raw bytes at 22 + 53 * i + 5, after the five one-byte fields. */
  lemma ParticipantNameByte(s: seq<byte>, i: nat, k: nat)
    requires |s| == TotalSize(ParticipantsFormat) && i < CarCount && k < NameLength
    ensures |s| == 1082 && |Records(ParticipantsFormat, Read(ParticipantsFormat, s))[i]| == 53
    ensures Records(ParticipantsFormat, Read(ParticipantsFormat, s))[i][5 + k] == s[22 + 53 * i + 5 + k] as nat
  {
    ParticipantsPacketSize();
    ParticipantStride();
    TimesIsProduct(i, 53);
    OffsetAppend(ParticipantLead, Run(U8, NameLength), k);
    OffsetRun(U8, NameLength, k);
    SizeRun(U8, 5);
    RecordFieldAt(ParticipantsFormat, s, i, 5 + k, 22 + 53 * i + 5 + k, 1);
    OneByte(s[22 + 53 * i + 5 + k..22 + 53 * i + 5 + k + 1]);
  }

  /** Writing back the struct read from a 1082-byte datagram reproduces the datagram. */
  lemma ParticipantsRoundTrip(s: seq<byte>)
    requires |s| == TotalSize(ParticipantsFormat)
    ensures Write(ParticipantsFormat, Read(ParticipantsFormat, s)) == s
  {
    WriteRead(ParticipantsFormat, s);
  }
}
