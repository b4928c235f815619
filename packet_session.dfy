/**
 * The session packet: the header, sixteen fields of its own, a fixed buffer of 21
 * MarshalZone records of 5 bytes, then the safety-car status and the network-game flag.
 */
module SessionPackets {
  import opened Wire
  import opened PacketHeaders
  import opened PacketFormats

  /**
   * Weather u8, TrackTemperature i8, AirTemperature i8, TotalLaps u8, TrackLength u16,
   * SessionType u8, TrackId i8, Era u8, SessionTimeLeft u16, SessionDuration u16,
   * PitSpeedLimit u8, GamePaused u8, IsSpectating u8, SpectatorCarIndex u8,
   * SliProNativeSupport u8, NumMarshalZones u8.
   */
  const SessionFields: Layout := [U8, I8, I8, U8] + [U16, U8, I8, U8] + [U16, U16, U8, U8] + [U8, U8, U8, U8]

  /** MarshalZone: ZoneStart f32, ZoneFlag i8; its declared Size is sizeof(float) + sizeof(sbyte). */
  const MarshalZoneLayout: Layout := [F32, I8]

  const MaxMarshalZones: nat := 21

  /** SafetyCarStatus u8, NetworkGame u8. */
  const SessionTrailer: Layout := [U8, U8]

  const SessionFormat: Format := Format(SessionFields, MarshalZoneLayout, MaxMarshalZones, SessionTrailer)

  /** Within the leading fields: Weather at 0, the temperatures at 1 and 2, TotalLaps at 3, TrackLength at 4 .. 5. */
  lemma SessionOffsetsFirst()
    ensures Offset(SessionFields, 0) == 0 && Offset(SessionFields, 1) == 1 && Offset(SessionFields, 2) == 2
    ensures Offset(SessionFields, 3) == 3 && Offset(SessionFields, 4) == 4
  {
    assert SessionFields[..0] == [];
    OffsetNext(SessionFields, 0);
    OffsetNext(SessionFields, 1);
    OffsetNext(SessionFields, 2);
    OffsetNext(SessionFields, 3);
  }

  /** SessionType at 6, TrackId at 7, Era at 8, SessionTimeLeft at 9 .. 10. */
  lemma SessionOffsetsSecond()
    ensures Offset(SessionFields, 5) == 6 && Offset(SessionFields, 6) == 7
    ensures Offset(SessionFields, 7) == 8 && Offset(SessionFields, 8) == 9
  {
    SessionOffsetsFirst();
    OffsetNext(SessionFields, 4);
    OffsetNext(SessionFields, 5);
    OffsetNext(SessionFields, 6);
    OffsetNext(SessionFields, 7);
  }

  /** SessionDuration at 11 .. 12, PitSpeedLimit at 13, GamePaused at 14, IsSpectating at 15. */
  lemma SessionOffsetsThird()
    ensures Offset(SessionFields, 9) == 11 && Offset(SessionFields, 10) == 13
    ensures Offset(SessionFields, 11) == 14 && Offset(SessionFields, 12) == 15
  {
    SessionOffsetsSecond();
    OffsetNext(SessionFields, 8);
    OffsetNext(SessionFields, 9);
    OffsetNext(SessionFields, 10);
    OffsetNext(SessionFields, 11);
  }

  /** SpectatorCarIndex at 16, SliProNativeSupport at 17, NumMarshalZones at 18; 19 bytes in all. */
  lemma SessionOffsetsLast()
    ensures Offset(SessionFields, 13) == 16 && Offset(SessionFields, 14) == 17
    ensures Offset(SessionFields, 15) == 18 && Size(SessionFields) == 19
  {
    SessionOffsetsThird();
    OffsetNext(SessionFields, 12);
    OffsetNext(SessionFields, 13);
    OffsetNext(SessionFields, 14);
    OffsetNext(SessionFields, 15);
    assert SessionFields[..16] == SessionFields;
  }

  /** A MarshalZone is 5 bytes and the zone buffer 21 * 5 = 105 bytes; the packet is the documented 147 bytes. */
  lemma SessionPacketSize()
    ensures Size(MarshalZoneLayout) == 5
    ensures BufferStart(SessionFormat) == 40
    ensures BufferSize(SessionFormat) == 105
    ensures TrailerStart(SessionFormat) == 145
    ensures TotalSize(SessionFormat) == 147 == SizeOf(PacketType.Session)
  {
    SessionOffsetsLast();
    assert MarshalZoneLayout[1..][1..] == [];
    assert SessionTrailer[1..][1..] == [];
    FormatSize(SessionFormat, 19, 5, 2);
  }

  /** A marshal zone: where it starts as a fraction of the lap (a float pattern), and its flag. */
  datatype MarshalZone = MarshalZone(zoneStart: nat, zoneFlag: int)

  /** The session packet with its fields named and typed as declared. */
  datatype SessionData = SessionData(
    header: PacketHeader,
    weather: nat,
    trackTemperature: int,
    airTemperature: int,
    totalLaps: nat,
    trackLength: nat,
    sessionType: nat,
    trackId: int,
    era: nat,
    sessionTimeLeft: nat,
    sessionDuration: nat,
    pitSpeedLimit: nat,
    gamePaused: nat,
    isSpectating: nat,
    spectatorCarIndex: nat,
    sliProNativeSupport: nat,
    numMarshalZones: nat,
    marshalZones: seq<MarshalZone>,
    safetyCarStatus: nat,
    networkGame: nat)

  /** The zone held by a decoded MarshalZone record. */
  function ZoneOf(r: seq<nat>): (z: MarshalZone)
    requires Fits(MarshalZoneLayout, r)
    ensures z.zoneStart == r[0] && -128 <= z.zoneFlag < 128
  {
    MarshalZone(r[0], AsSigned8(r[1]))
  }

  /** The named view of a session packet: signed fields reinterpreted as two's complement, all 21 zones decoded. */
  function View(p: Packet): (d: SessionData)
    requires Valid(SessionFormat, p)
    ensures |d.marshalZones| == MaxMarshalZones
    ensures d.header == p.header
    ensures d.weather == p.fields[0] && d.trackLength == p.fields[4] && d.sessionTimeLeft == p.fields[8]
    ensures d.sessionDuration == p.fields[9] && d.gamePaused == p.fields[11] && d.isSpectating == p.fields[12]
    ensures d.numMarshalZones == p.fields[15] && d.safetyCarStatus == p.trailer[0] && d.networkGame == p.trailer[1]
    ensures d.trackTemperature == AsSigned8(p.fields[1]) && d.airTemperature == AsSigned8(p.fields[2])
    ensures d.trackId == AsSigned8(p.fields[6])
  {
    var v := p.fields;
    var zones := Records(SessionFormat, p);
    forall k | 0 <= k < |zones| ensures Fits(MarshalZoneLayout, zones[k]) {
      DecodeArrayFits(MarshalZoneLayout, MaxMarshalZones, p.buffer, k);
    }
    SessionData(p.header, v[0], AsSigned8(v[1]), AsSigned8(v[2]), v[3], v[4], v[5], AsSigned8(v[6]), v[7], v[8], v[9],
      v[10], v[11], v[12], v[13], v[14], v[15], seq(|zones|, k requires 0 <= k < |zones| => ZoneOf(zones[k])),
      p.trailer[0], p.trailer[1])
  }

  /** Only the first NumMarshalZones zones are meaningful (all 21 when the count is larger). */
  function ActiveZones(d: SessionData): (zs: seq<MarshalZone>)
    ensures |zs| == if d.numMarshalZones < |d.marshalZones| then d.numMarshalZones else |d.marshalZones|
    ensures zs == d.marshalZones[..|zs|]
  {
    if d.numMarshalZones < |d.marshalZones| then d.marshalZones[..d.numMarshalZones] else d.marshalZones
  }

  /** Weather at byte 21, the temperatures at 22 and 23 (signed), TrackLength at 25 .. 26, TrackId at 28 (signed). */
  lemma SessionTrackBytes(s: seq<byte>)
    requires |s| == TotalSize(SessionFormat)
    ensures |s| == 147
    ensures View(Read(SessionFormat, s)).weather == s[21] as nat
    ensures View(Read(SessionFormat, s)).trackTemperature == AsSigned8(s[22] as nat)
    ensures View(Read(SessionFormat, s)).airTemperature == AsSigned8(s[23] as nat)
    ensures View(Read(SessionFormat, s)).trackLength == DecodeUint(s[25..27])
    ensures View(Read(SessionFormat, s)).trackId == AsSigned8(s[28] as nat)
  {
    SessionPacketSize();
    ReadParts(SessionFormat, s);
    TrackFieldValues(s, Read(SessionFormat, s).fields);
  }

  /** The track-related leading fields, read from the 19 bytes that follow the header. */
  lemma TrackFieldValues(s: seq<byte>, v: seq<nat>)
    requires Size(SessionFields) == 19 && |s| == 147
    requires v == Decode(SessionFields, s[21..40])
    ensures v[0] == s[21] as nat && v[1] == s[22] as nat && v[2] == s[23] as nat
    ensures v[4] == DecodeUint(s[25..27]) && v[6] == s[28] as nat
  {
    SessionOffsetsFirst();
    SessionOffsetsSecond();
    FieldInSlice(SessionFields, s, 21, 0, 21, 1);
    FieldInSlice(SessionFields, s, 21, 1, 22, 1);
    FieldInSlice(SessionFields, s, 21, 2, 23, 1);
    FieldInSlice(SessionFields, s, 21, 4, 25, 2);
    FieldInSlice(SessionFields, s, 21, 6, 28, 1);
    OneByte(s[21..22]);
    OneByte(s[22..23]);
    OneByte(s[23..24]);
    OneByte(s[28..29]);
  }

  /** SessionTimeLeft at bytes 30 .. 31, SessionDuration at 32 .. 33, GamePaused at 35, IsSpectating at 36, NumMarshalZones at 39. */
  lemma SessionStateBytes(s: seq<byte>)
    requires |s| == TotalSize(SessionFormat)
    ensures |s| == 147
    ensures View(Read(SessionFormat, s)).sessionTimeLeft == DecodeUint(s[30..32])
    ensures View(Read(SessionFormat, s)).sessionDuration == DecodeUint(s[32..34])
    ensures View(Read(SessionFormat, s)).gamePaused == s[35] as nat
    ensures View(Read(SessionFormat, s)).isSpectating == s[36] as nat
    ensures View(Read(SessionFormat, s)).numMarshalZones == s[39] as nat
  {
    SessionPacketSize();
    ReadParts(SessionFormat, s);
    StateFieldValues(s, Read(SessionFormat, s).fields);
  }

  /** The session-state leading fields, read from the 19 bytes that follow the header. */
  lemma StateFieldValues(s: seq<byte>, v: seq<nat>)
    requires Size(SessionFields) == 19 && |s| == 147
    requires v == Decode(SessionFields, s[21..40])
    ensures v[8] == DecodeUint(s[30..32]) && v[9] == DecodeUint(s[32..34])
    ensures v[11] == s[35] as nat && v[12] == s[36] as nat && v[15] == s[39] as nat
  {
    SessionOffsetsSecond();
    SessionOffsetsThird();
    SessionOffsetsLast();
    FieldInSlice(SessionFields, s, 21, 8, 30, 2);
    FieldInSlice(SessionFields, s, 21, 9, 32, 2);
    FieldInSlice(SessionFields, s, 21, 11, 35, 1);
    FieldInSlice(SessionFields, s, 21, 12, 36, 1);
    FieldInSlice(SessionFields, s, 21, 15, 39, 1);
    OneByte(s[35..36]);
    OneByte(s[36..37]);
    OneByte(s[39..40]);
  }

  /** SafetyCarStatus at byte 145 and NetworkGame at 146, after the 105-byte zone buffer that starts at 40. */
  lemma SessionTrailerBytes(s: seq<byte>)
    requires |s| == TotalSize(SessionFormat)
    ensures |s| == 147
    ensures View(Read(SessionFormat, s)).safetyCarStatus == s[145] as nat
    ensures View(Read(SessionFormat, s)).networkGame == s[146] as nat
  {
    SessionPacketSize();
    ReadParts(SessionFormat, s);
    TrailerValues(s, Read(SessionFormat, s).trailer);
  }

  /** The two trailing one-byte fields. */
  lemma TrailerValues(s: seq<byte>, v: seq<nat>)
    requires Size(SessionTrailer) == 2 && |s| == 147
    requires v == Decode(SessionTrailer, s[145..])
    ensures v[0] == s[145] as nat && v[1] == s[146] as nat
  {
    assert SessionTrailer[..0] == [] && SessionTrailer[..1] == [U8];
    assert s[145..] == s[145..145 + Size(SessionTrailer)];
    FieldInSlice(SessionTrailer, s, 145, 0, 145, 1);
    FieldInSlice(SessionTrailer, s, 145, 1, 146, 1);
    OneByte(s[145..146]);
    OneByte(s[146..147]);
  }

  /** Zone k is read from the 5 bytes at 40 + 5 * k. */
  lemma MarshalZoneAt(s: seq<byte>, k: nat)
    requires |s| == TotalSize(SessionFormat) && k < MaxMarshalZones
    ensures Size(MarshalZoneLayout) == 5 && 40 + 5 * k + 5 <= |s|
    ensures Records(SessionFormat, Read(SessionFormat, s))[k] == Decode(MarshalZoneLayout, s[40 + 5 * k..40 + 5 * k + 5])
  {
    SessionPacketSize();
    TimesIsProduct(k, 5);
    RecordAtOffset(SessionFormat, s, k, 40 + 5 * k, 5);
  }

  /** Writing back the struct read from a 147-byte datagram reproduces the datagram. */
  lemma SessionRoundTrip(s: seq<byte>)
    requires |s| == TotalSize(SessionFormat)
    ensures Write(SessionFormat, Read(SessionFormat, s)) == s
  {
    WriteRead(SessionFormat, s);
  }
}
