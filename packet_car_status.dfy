/** The car-status packet: the header, then a fixed buffer of 20 CarStatusData records of 52 bytes. */
module CarStatusPackets {
  import opened Wire
  import opened PacketHeaders
  import opened PacketFormats

  /**
   * Traction control, anti-lock brakes, fuel mix, front brake bias, pit limiter (bytes),
   * fuel in tank and fuel capacity (floats), max and idle RPM (u16), max gears and DRS allowed (bytes).
   */
  const StatusLead: Layout := Run(U8, 5) + Run(F32, 2) + Run(U16, 2) + Run(U8, 2)

  /** The fixed four-byte tyre-wear buffer. */
  const TyresWear: Layout := Run(U8, 4)

  /** The fixed four-byte tyre-damage buffer. */
  const TyresDamage: Layout := Run(U8, 4)

  /**
   * Front-left, front-right and rear wing, engine, gearbox and exhaust damage (bytes),
   * FIA flags (signed byte), ERS store energy (float), ERS deploy mode (byte), the three ERS lap totals (floats).
   */
  const StatusTail: Layout := Run(U8, 6) + Run(I8, 1) + Run(F32, 1) + Run(U8, 1) + Run(F32, 3)

  /** The tyre compound byte sits between the two tyre buffers. */
  const CarStatusLayout: Layout := StatusLead + TyresWear + Run(U8, 1) + TyresDamage + StatusTail

  /** The declared CarStatusData.Size: 23 * sizeof(byte) + 6 * sizeof(float) + 2 * sizeof(ushort) + sizeof(sbyte). */
  const CarStatusSize: nat := 23 * 1 + 6 * 4 + 2 * 2 + 1

  const CarStatusFormat: Format := Format([], CarStatusLayout, CarCount, [])

  /** The parts of a record: 11 leading fields in 19 bytes, 4 + 1 + 4 tyre bytes, 12 trailing fields in 24 bytes. */
  lemma CarStatusParts()
    ensures |StatusLead| == 11 && Size(StatusLead) == 19
    ensures |TyresWear| == 4 && Size(TyresWear) == 4
    ensures |TyresDamage| == 4 && Size(TyresDamage) == 4
    ensures |StatusTail| == 12 && Size(StatusTail) == 24
  {
    Sizes();
  }

  /** A record has 32 fields and the declared stride of 52 bytes. */
  lemma CarStatusStride()
    ensures |CarStatusLayout| == 32
    ensures Size(CarStatusLayout) == CarStatusSize == 52
  {
    CarStatusParts();
    Sizes();
  }

  /** The records fill 1040 bytes after the header; the packet is the documented 1061 bytes. */
  lemma CarStatusPacketSize()
    ensures BufferStart(CarStatusFormat) == HeaderSize
    ensures BufferSize(CarStatusFormat) == 1040
    ensures TotalSize(CarStatusFormat) == 1061 == SizeOf(PacketType.CarStatus)
  {
    CarStatusStride();
    FormatSize(CarStatusFormat, 0, 52, 0);
  }

  /** Car i is read from the 52 bytes at 21 + 52 * i. */
  lemma CarStatusAt(s: seq<byte>, i: nat)
    requires |s| == TotalSize(CarStatusFormat) && i < CarCount
    ensures Size(CarStatusLayout) == 52 && 21 + 52 * i + 52 <= |s|
    ensures Records(CarStatusFormat, Read(CarStatusFormat, s))[i] == Decode(CarStatusLayout, s[21 + 52 * i..21 + 52 * i + 52])
  {
    CarStatusPacketSize();
    CarStatusStride();
    TimesIsProduct(i, 52);
    RecordAtOffset(CarStatusFormat, s, i, 21 + 52 * i, 52);
  }

  /** Tyre-wear slot k is the one-byte field 11 + k, at byte 19 + k of the record. */
  lemma WearSlot(k: nat)
    requires k < 4
    ensures 11 + k < |CarStatusLayout| && CarStatusLayout[11 + k] == U8
    ensures Offset(CarStatusLayout, 11 + k) == 19 + k
  {
    CarStatusParts();
    var wear := StatusLead + TyresWear;
    var compound := wear + Run(U8, 1);
    var damage := compound + TyresDamage;
    assert CarStatusLayout == damage + StatusTail;
    OffsetPrefix(damage, StatusTail, 11 + k);
    OffsetPrefix(compound, TyresDamage, 11 + k);
    OffsetPrefix(wear, Run(U8, 1), 11 + k);
    OffsetAppend(StatusLead, TyresWear, k);
    OffsetRun(U8, 4, k);
  }

  /** Tyre-damage slot k is the one-byte field 16 + k, at byte 24 + k of the record. */
  lemma DamageSlot(k: nat)
    requires k < 4
    ensures 16 + k < |CarStatusLayout| && CarStatusLayout[16 + k] == U8
    ensures Offset(CarStatusLayout, 16 + k) == 24 + k
  {
    CarStatusParts();
    var wear := StatusLead + TyresWear;
    var compound := wear + Run(U8, 1);
    var damage := compound + TyresDamage;
    assert CarStatusLayout == damage + StatusTail;
    SizeAppend(StatusLead, TyresWear);
    SizeAppend(wear, Run(U8, 1));
    SizeRun(U8, 1);
    OffsetPrefix(damage, StatusTail, 16 + k);
    OffsetAppend(compound, TyresDamage, k);
    OffsetRun(U8, 4, k);
  }

  /** The tyre wear of car i for slot k is byte 21 + 52 * i + 19 + k: exactly four bytes per car. */
  lemma TyreWearByte(s: seq<byte>, i: nat, k: nat)
    requires |s| == TotalSize(CarStatusFormat) && i < CarCount && k < 4
    ensures |s| == 1061 && |Records(CarStatusFormat, Read(CarStatusFormat, s))[i]| == 32
    ensures Records(CarStatusFormat, Read(CarStatusFormat, s))[i][11 + k] == s[21 + 52 * i + 19 + k] as nat
  {
    CarStatusPacketSize();
    CarStatusStride();
    TimesIsProduct(i, 52);
    WearSlot(k);
    var at := 21 + 52 * i + 19 + k;
    RecordFieldAt(CarStatusFormat, s, i, 11 + k, at, 1);
    OneByte(s[at..at + 1]);
  }

  /** The tyre damage of car i for slot k is byte 21 + 52 * i + 24 + k: exactly four bytes per car. */
  lemma TyreDamageByte(s: seq<byte>, i: nat, k: nat)
    requires |s| == TotalSize(CarStatusFormat) && i < CarCount && k < 4
    ensures |s| == 1061 && |Records(CarStatusFormat, Read(CarStatusFormat, s))[i]| == 32
    ensures Records(CarStatusFormat, Read(CarStatusFormat, s))[i][16 + k] == s[21 + 52 * i + 24 + k] as nat
  {
    CarStatusPacketSize();
    CarStatusStride();
    TimesIsProduct(i, 52);
    DamageSlot(k);
    var at := 21 + 52 * i + 24 + k;
    RecordFieldAt(CarStatusFormat, s, i, 16 + k, at, 1);
    OneByte(s[at..at + 1]);
  }

  /** Writing back the struct read from a 1061-byte datagram reproduces the datagram. */
  lemma CarStatusRoundTrip(s: seq<byte>)
    requires |s| == TotalSize(CarStatusFormat)
    ensures Write(CarStatusFormat, Read(CarStatusFormat, s)) == s
  {
    WriteRead(CarStatusFormat, s);
  }
}
