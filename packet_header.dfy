/**
 * The 21-byte header that starts every telemetry datagram, the packet-type
 * enumeration and the table of documented packet sizes.
 */
module PacketHeaders {
  import opened Wrappers
  import opened Wire

  /** The eight packet types of the 2018 format, with their one-byte identifiers 0 .. 7. */
  datatype PacketType = Motion | Session | LapData | Event | Participants | CarSetups | CarTelemetry | CarStatus

  function Id(t: PacketType): (id: nat)
    ensures id < 8
  {
    match t
    case Motion => 0
    case Session => 1
    case LapData => 2
    case Event => 3
    case Participants => 4
    case CarSetups => 5
    case CarTelemetry => 6
    case CarStatus => 7
  }

  /** The declared packet type whose identifier is id, if any (the byte is cast to the enum unchecked). */
  function TypeOfId(id: nat): (t: Option<PacketType>)
    ensures t.Some? <==> id < 8
    ensures t.Some? ==> Id(t.value) == id
  {
    if id == 0 then Some(Motion)
    else if id == 1 then Some(Session)
    else if id == 2 then Some(LapData)
    else if id == 3 then Some(Event)
    else if id == 4 then Some(Participants)
    else if id == 5 then Some(CarSetups)
    else if id == 6 then Some(CarTelemetry)
    else if id == 7 then Some(CarStatus)
    else None
  }

  /** Every packet type's identifier names that type back. */
  lemma TypeOfIdOfId(t: PacketType)
    ensures TypeOfId(Id(t)) == Some(t)
  {
  }

  /** The documented total size in bytes of each packet type, indexed by identifier. */
  const PacketSizes: seq<nat> := [1341, 147, 841, 25, 1082, 841, 1085, 1061]

  const HeaderSize: nat := 21

  /** The documented size of a packet of type t; every packet holds at least a header. */
  function SizeOf(t: PacketType): (n: nat)
    ensures n >= HeaderSize
    ensures n == PacketSizes[Id(t)]
  {
    PacketSizes[Id(t)]
  }

  /** PacketFormat u16, PacketVersion u8, PacketId u8, SessionUID u64, SessionTime f32, FrameIdentifier u32, PlayerCarIndex u8. */
  const HeaderLayout: Layout := [U16, U8, U8, U64, F32, U32, U8]

  /** The header struct; SessionTime is the raw pattern of a 32-bit float. */
  datatype PacketHeader = PacketHeader(
    packetFormat: nat,
    packetVersion: nat,
    packetId: nat,
    sessionUid: nat,
    sessionTime: nat,
    frameIdentifier: nat,
    playerCarIndex: nat)

  function HeaderFields(h: PacketHeader): seq<nat> {
    [h.packetFormat, h.packetVersion, h.packetId, h.sessionUid, h.sessionTime, h.frameIdentifier, h.playerCarIndex]
  }

  /** The header held by the first seven fields of a decoded packet struct. */
  function HeaderOf(v: seq<nat>): (h: PacketHeader)
    requires |v| >= 7
    ensures HeaderFields(h) == v[..7]
  {
    PacketHeader(v[0], v[1], v[2], v[3], v[4], v[5], v[6])
  }

  /** Every field of h fits its declared width. */
  predicate ValidHeader(h: PacketHeader) {
    Fits(HeaderLayout, HeaderFields(h))
  }

  lemma HeaderLayoutSize()
    ensures Size(HeaderLayout) == HeaderSize
  {
    HeaderOffsets(7);
    assert HeaderLayout[..7] == HeaderLayout;
  }

  function EncodeHeader(h: PacketHeader): (s: seq<byte>)
    requires ValidHeader(h)
    ensures |s| == HeaderSize
  {
    HeaderLayoutSize();
    Encode(HeaderLayout, HeaderFields(h))
  }

  /** The header read from the first 21 bytes of a datagram. */
  function DecodeHeader(s: seq<byte>): (h: PacketHeader)
    requires |s| == HeaderSize
    ensures ValidHeader(h)
  {
    HeaderLayoutSize();
    DecodeFits(HeaderLayout, s);
    HeaderOf(Decode(HeaderLayout, s))
  }

  lemma DecodeEncodeHeader(h: PacketHeader)
    requires ValidHeader(h)
    ensures DecodeHeader(EncodeHeader(h)) == h
  {
    HeaderLayoutSize();
    DecodeEncode(HeaderLayout, HeaderFields(h));
  }

  lemma EncodeDecodeHeader(s: seq<byte>)
    requires |s| == HeaderSize
    ensures EncodeHeader(DecodeHeader(s)) == s
  {
    HeaderLayoutSize();
    EncodeDecode(HeaderLayout, s);
    var v := Decode(HeaderLayout, s);
    assert HeaderFields(HeaderOf(v)) == v;
  }

  /**
   * The byte offset of each header field, and the header size as the final entry:
   * format 0 .. 1, version 2, identifier 3, session id 4 .. 11, session time 12 .. 15,
   * frame 16 .. 19, player car index 20.
   */
  const HeaderOffsetTable: seq<nat> := [0, 2, 3, 4, 12, 16, 20, 21]

  /** The packed layout puts field i at HeaderOffsetTable[i]; entry 7 is the total size. */
  lemma {:induction false} HeaderOffsets(i: nat)
    requires i <= 7
    ensures i <= |HeaderLayout| && Offset(HeaderLayout, i) == HeaderOffsetTable[i]
  {
    if i == 0 {
      assert HeaderLayout[..0] == [];
    } else {
      HeaderOffsets(i - 1);
      OffsetNext(HeaderLayout, i - 1);
    }
  }

  /** Header field i is the little-endian value of bytes HeaderOffsetTable[i] .. HeaderOffsetTable[i + 1] - 1. */
  lemma HeaderField(s: seq<byte>, i: nat)
    requires |s| == HeaderSize && i < 7
    ensures HeaderOffsetTable[i] < HeaderOffsetTable[i + 1] <= |s|
    ensures HeaderFields(DecodeHeader(s))[i] == DecodeUint(s[HeaderOffsetTable[i]..HeaderOffsetTable[i + 1]])
  {
    HeaderFieldsDecoded(s);
    var v := Decode(HeaderLayout, s);
    var a, b := HeaderOffsetTable[i], HeaderOffsetTable[i + 1];
    HeaderOffsets(i);
    HeaderOffsets(i + 1);
    OffsetNext(HeaderLayout, i);
    FieldAt(HeaderLayout, s, i, a, b - a);
    assert v[i] == DecodeUint(s[a..b]);
  }

  /** The header's fields, in declaration order, are the decoded header layout. */
  lemma HeaderFieldsDecoded(s: seq<byte>)
    requires |s| == HeaderSize
    ensures Size(HeaderLayout) == |s|
    ensures HeaderFields(DecodeHeader(s)) == Decode(HeaderLayout, s)
  {
    HeaderLayoutSize();
  }

  /** A one-byte field is the value of its byte. */
  lemma OneByte(s: seq<byte>)
    requires |s| == 1
    ensures DecodeUint(s) == s[0] as nat
  {
    assert s[1..] == [];
  }
}
