# F1 2018 telemetry pipeline, modelled in Dafny

F1Telemetry receives the UDP telemetry that the F1 2018 game broadcasts, or replays it
from a recording. Its core is a pipeline that turns raw bytes into per-session state:

- **Wire format** (`wire.dfy`, `packet_header.dfy`, `packet_format.dfy`, `packets.dfy`
  and one `packet_*.dfy` per packet type). Every datagram starts with a packed 21-byte
  little-endian header, followed by a fixed-size payload per packet type. Most payloads
  are 20 car records of a fixed stride. A packet struct is a byte reinterpretation of
  its datagram, so decoding and encoding are inverse maps between byte strings and
  field values. Floats are kept as raw 32-bit patterns.
- **Header validator and streaming decoder** (`packet_parser.dfy`, `pipe.dfy`,
  `reader_loop.dfy`). The validator filters datagrams. The reader loop of `PacketParser`
  takes whole packets off a `PipeReader` and hands Session and Event packets to a handler.
- **Handlers** (`handlers.dfy`, `composite_handler.dfy`, `delay_handler.dfy`,
  `file_writer.dfy`):
  - the composite fans each packet out to several handlers, with per-handler fault
    isolation;
  - the delay handler keeps the per-session last session time used to pace a replay,
    and keeps it unchanged when the pacing sleep throws;
  - the file writer records each session's raw packets in a file of its own.
- **Packet-to-event translators** (`session_events_handler.dfy`,
  `observable_handler.dfy`). They turn event and session packets into session events.
- **Session management** (`events.dfy`, `session.dfy`, `session_manager.dfy`):
  - event equality as the event classes define it;
  - the `Session` aggregate, with its distinct-until-changed, replay-one channels and
    its lifecycle fold;
  - the `SessionManager`, which groups events by session id until a session end,
    creates one session per group, keeps an id-to-session map and replays the sessions
    it created. When the event stream completes, every open session completes, and so
    does the replay of sessions.

Stateful parts are classes whose methods update fields in place:

- `PipeReader`, `PacketParser`;
- `CompositePacketHandler`, `DelayScale`, `DelayPacketHandler`, `FileWriterPacketHandler`;
- `Session`, `SessionManager`.

Each method is specified by a function over the old state. The properties the code
promises are proved about those functions. Everything else is datatypes, functions and
lemmas.

The clock (`DateTime.Now`) is a parameter wherever an event is stamped. A packet's
source (UDP or file) is a parameter of every handler call. Whether creating a recording
file succeeds is a parameter of the file writer. The local application-data folder is a
parameter of the file writer's constructor.

`SessionManager.SessionCount` is `_sessions.Count` (SessionManager.cs:24): the number of
distinct session ids that ever had a group, not the number of sessions that have ended.

## Model

| member | source | states |
|---|---|---|
| Wire.Run | F1Telemetry.Core/Packets/PacketMotionData.cs:16-20 | a fixed buffer of n elements is n consecutive fields of one kind |
| Wire.EncodeUint | F1Telemetry.Core/Packets/PacketHeader.cs:5-14 | a w-byte field is stored as exactly w little-endian bytes |
| Wire.Encode | F1Telemetry.Core/Packets/PacketHeader.cs:5-14 | a packed struct's image has exactly the struct's packed size |
| Wire.Decode | F1Telemetry.Core/PacketParser.cs:21 | reinterpreting Size(layout) bytes yields one value per field |
| Wire.DecodeFits | F1Telemetry.Core/PacketParser.cs:63 | every field read from bytes lies within its width |
| Wire.AsSigned8 | F1TelemetryNetCore/Packets/PacketSessionData.cs:15-16 | an sbyte field is the byte in two's complement: -128 .. 127, equal to the byte or the byte minus 256 |
| Wire.AsSigned16 | F1Telemetry.Core/Packets/PacketMotionData.cs:60-79 | a short field is two bytes in two's complement: -32768 .. 32767 |
| Wire.DecodeEncodeUint | F1Telemetry.Core/Packets/PacketHeader.cs:5-14 | reading back the little-endian bytes of a value gives the value |
| Wire.EncodeDecodeUint | F1Telemetry.Core/Packets/PacketHeader.cs:5-14 | every byte string is the little-endian encoding of the value read from it |
| Wire.DecodeEncode | F1Telemetry.Core/Packets/PacketHeader.cs:5-14 | reading back a packed struct's image gives the struct |
| Wire.EncodeDecode | F1Telemetry.Core/PacketParser.cs:63 | every byte string of the struct's size is the image of the struct read from it |
| Wire.DecodeField | F1Telemetry.Core/Packets/PacketHeader.cs:5-14 | field i is read from the Width bytes at its packed offset, and those bytes lie inside the struct |
| Wire.OffsetAppend | F1Telemetry.Core/Packets/PacketMotionData.cs:10-30 | a struct placed after another starts Size(first) bytes further, field for field |
| Wire.OffsetRun | F1Telemetry.Core/Packets/PacketMotionData.cs:16-20 | element j of a fixed buffer starts j * width bytes in |
| Wire.OffsetNext | F1Telemetry.Core/Packets/PacketHeader.cs:5-14 | packing: each field starts where the previous one ends |
| Wire.FieldWithin | F1Telemetry.Core/Packets/PacketHeader.cs:5-14 | every field ends within its struct |
| Wire.DecodeArray | F1TelemetryNetCore/Packets/PacketLapData.cs:11-14 | a span over a fixed buffer of n records exposes n records |
| Wire.ArrayRecord | F1TelemetryNetCore/Packets/PacketLapData.cs:11-14 | record i is reinterpreted from the Size bytes at i * Size, inside the buffer |
| Wire.RecordsTile | F1TelemetryNetCore/Packets/PacketLapData.cs:11-14 | the records, laid end to end with no gap or overlap, are exactly the buffer |
| Wire.DecodeArrayFits | F1TelemetryNetCore/Packets/PacketLapData.cs:11-14 | every record read from a buffer is a value of its layout |
| PacketHeaders.Id | F1Telemetry.Core/Packets/PacketHeader.cs:16-26 | every packet type's ordinal is below 8 |
| PacketHeaders.TypeOfId | F1Telemetry.Core/Packets/PacketHeader.cs:16-26 | an identifier names a packet type exactly when it is below 8, and that type's ordinal is the identifier |
| PacketHeaders.TypeOfIdOfId | F1Telemetry.Core/Packets/PacketHeader.cs:16-26 | each of the eight types is named back by its ordinal |
| PacketHeaders.SizeOf | F1Telemetry.Core/Packets/PacketHeader.cs:28 | a type's size is its entry of the size table and covers the header |
| PacketHeaders.HeaderOf | F1Telemetry.Core/Packets/PacketHeader.cs:8-14 | the header's seven fields, in declaration order, are the first seven decoded fields |
| PacketHeaders.HeaderLayoutSize | F1Telemetry.Core/Packets/PacketHeader.cs:5-14 | the packed header is 2+1+1+8+4+4+1 = 21 bytes |
| PacketHeaders.EncodeHeader | F1Telemetry.Core/Packets/PacketHeader.cs:5-14 | a header's image is 21 bytes |
| PacketHeaders.DecodeHeader | F1Telemetry.Core/Packets/PacketHeader.cs:5-14 | any 21 bytes read as a header give fields within their widths |
| PacketHeaders.DecodeEncodeHeader | F1Telemetry.Core/Packets/PacketHeader.cs:5-14 | decoding an encoded header gives the header back |
| PacketHeaders.EncodeDecodeHeader | F1Telemetry.Core/Packets/PacketHeader.cs:5-14 | re-encoding a decoded 21-byte buffer gives the same bytes |
| PacketHeaders.HeaderOffsets | F1Telemetry.Core/Packets/PacketHeader.cs:8-14 | the fields start at 0, 2, 3, 4, 12, 16 and 20, and the header ends at 21 |
| PacketHeaders.HeaderField | F1Telemetry.Core/Packets/PacketHeader.cs:8-14 | format is bytes 0-1, version 2, type 3, session id 4-11, session time 12-15, frame 16-19, player car 20 |
| PacketHeaders.HeaderFieldsDecoded | F1Telemetry.Core/Packets/PacketHeader.cs:5-14 | the header's fields are the packed header layout decoded |
| Packets.FormatOf | F1Telemetry.Core/PacketParser.cs:102-133 | each packet type is read as a struct with a non-empty record buffer |
| Packets.FormatSizes | F1Telemetry.Core/Packets/PacketHeader.cs:28 | each packet struct's packed size equals its type's entry of the size table |
| Packets.SizesCoverHeader | F1Telemetry.Core/Packets/PacketHeader.cs:28 | every size-table entry is at least the 21-byte header |
| PacketFormats.Read | F1Telemetry.Core/PacketParser.cs:63 | a datagram of exactly a struct's size reinterprets as a well-formed struct value |
| PacketFormats.Write | F1Telemetry.Core/Persistence/FIleWriterPacketHandler.cs:103-105 | a struct's in-memory image has the struct's size |
| PacketFormats.Records | F1TelemetryNetCore/Packets/PacketLapData.cs:11-14 | the span exposes one record per element of the fixed buffer |
| PacketFormats.ReadParts | F1Telemetry.Core/PacketParser.cs:63 | a packet is read as header, leading fields, record buffer and trailing fields, from consecutive byte ranges |
| PacketFormats.ReadWrite | F1Telemetry.Core/Persistence/FIleWriterPacketHandler.cs:103-105 | reading back a written struct gives the struct |
| PacketFormats.WriteRead | F1Telemetry.Core/PacketParser.cs:63 | writing the struct read from a datagram reproduces the datagram |
| PacketFormats.FieldBytes | F1TelemetryNetCore/Packets/PacketSessionData.cs:13-29 | leading field i is read at 21 + its packed offset, before the record buffer |
| PacketFormats.TrailerBytes | F1TelemetryNetCore/Packets/PacketSessionData.cs:31-32 | trailing field i is read after the record buffer, at its packed offset |
| PacketFormats.RecordAt | F1TelemetryNetCore/Packets/PacketLapData.cs:11-14 | record i is read from the record-size bytes at buffer start + i * record size, before the trailer |
| PacketFormats.RecordOf | F1TelemetryNetCore/Packets/PacketLapData.cs:11-14 | record i of a struct value is read at i * record size in its buffer |
| PacketFormats.FormatSize | F1TelemetryNetCore/Packets/PacketLapData.cs:9-12 | buffer start, buffer size, trailer start and total size follow from the parts' sizes |
| PacketFormats.RecordFieldAt | F1Telemetry.Core/Packets/PacketCarStatusData.cs:15-16 | field j of record i is read at the record's start plus the field's offset in the record |
| EventPackets.EventPacketSize | F1Telemetry.Core/Packets/PacketEventData.cs:9-16 | an event packet is the header then 4 code bytes: 25 bytes, the Event entry of the size table |
| EventPackets.DecodeByte | F1Telemetry.Core/Packets/PacketEventData.cs:17 | a byte below 128 decodes to the character with its value; any other byte to no ASCII character |
| EventPackets.DecodeUtf8 | F1Telemetry.Core/Packets/PacketEventData.cs:17 | decoding yields one character per byte |
| EventPackets.EncodeAscii | F1Telemetry.Core/Packets/PacketEventData.cs:17 | an ASCII string encodes to one byte per character |
| EventPackets.DecodeEncodeAscii | F1Telemetry.Core/Packets/PacketEventData.cs:17 | decoding the encoding of an ASCII string gives the string |
| EventPackets.DecodesTo | F1Telemetry.Core/Packets/PacketEventData.cs:17 | bytes decode to an ASCII string if and only if they are its encoding |
| EventPackets.EventCode | F1Telemetry.Core/Packets/PacketEventData.cs:16-17 | the event code has four characters |
| EventPackets.EventCodeBytes | F1Telemetry.Core/Packets/PacketEventData.cs:12-17 | the code is the UTF-8 decoding of bytes 21 .. 24 |
| EventPackets.IsStartCode | F1Telemetry.Core/Packets/PacketEventData.cs:17 | the code is SSTA if and only if bytes 21 .. 24 are 0x53 0x53 0x54 0x41 |
| EventPackets.IsEndCode | F1Telemetry.Core/Packets/PacketEventData.cs:17 | the code is SEND if and only if bytes 21 .. 24 are 0x53 0x45 0x4E 0x44 |
| EventPackets.EventRoundTrip | F1Telemetry.Core/Packets/PacketEventData.cs:9-16 | re-encoding a decoded 25-byte buffer reproduces it |
| SessionPackets.SessionOffsetsFirst | F1TelemetryNetCore/Packets/PacketSessionData.cs:14-18 | Weather, the temperatures, TotalLaps and TrackLength sit at offsets 0, 1, 2, 3 and 4 after the header |
| SessionPackets.SessionOffsetsSecond | F1TelemetryNetCore/Packets/PacketSessionData.cs:19-22 | SessionType, TrackId, Era and SessionTimeLeft sit at 6, 7, 8 and 9 |
| SessionPackets.SessionOffsetsThird | F1TelemetryNetCore/Packets/PacketSessionData.cs:23-26 | SessionDuration, PitSpeedLimit, GamePaused and IsSpectating sit at 11, 13, 14 and 15 |
| SessionPackets.SessionOffsetsLast | F1TelemetryNetCore/Packets/PacketSessionData.cs:27-29 | SpectatorCarIndex, SliProNativeSupport and NumMarshalZones sit at 16, 17 and 18, in 19 bytes |
| SessionPackets.SessionPacketSize | F1TelemetryNetCore/Packets/PacketSessionData.cs:8-32 | a MarshalZone is 5 bytes, the zones 21 * 5 = 105 bytes from byte 40, and the packet 147 bytes, the Session entry |
| SessionPackets.ZoneOf | F1TelemetryNetCore/Packets/PacketSessionData.cs:43-49 | a zone's start is its first field and its flag a signed byte |
| SessionPackets.View | F1TelemetryNetCore/Packets/PacketSessionData.cs:13-32 | the named fields are the decoded fields, with temperatures and track id read as signed bytes |
| SessionPackets.ActiveZones | F1TelemetryNetCore/Packets/PacketSessionData.cs:39 | only the first NumMarshalZones zones are meaningful, at most all 21 |
| SessionPackets.SessionTrackBytes | F1TelemetryNetCore/Packets/PacketSessionData.cs:14-20 | Weather is byte 21, the temperatures 22 and 23 (signed), TrackLength 25-26, TrackId 28 (signed) |
| SessionPackets.SessionStateBytes | F1TelemetryNetCore/Packets/PacketSessionData.cs:22-29 | SessionTimeLeft is bytes 30-31, SessionDuration 32-33, GamePaused 35, IsSpectating 36, NumMarshalZones 39 |
| SessionPackets.SessionTrailerBytes | F1TelemetryNetCore/Packets/PacketSessionData.cs:31-32 | SafetyCarStatus is byte 145 and NetworkGame byte 146 |
| SessionPackets.MarshalZoneAt | F1TelemetryNetCore/Packets/PacketSessionData.cs:30 | zone k is read from the 5 bytes at 40 + 5k |
| SessionPackets.SessionRoundTrip | F1TelemetryNetCore/Packets/PacketSessionData.cs:8-32 | re-encoding a decoded 147-byte buffer reproduces it |
| LapDataPackets.LapDataStride | F1TelemetryNetCore/Packets/PacketLapData.cs:24-42 | a LapData record is 8 four-byte and 9 one-byte fields: 41 bytes, the declared Size |
| LapDataPackets.LapDataPacketSize | F1TelemetryNetCore/Packets/PacketLapData.cs:9-12 | 20 records fill 820 bytes right after the header; the packet is 841 bytes, the LapData entry |
| LapDataPackets.LapDataOfCar | F1TelemetryNetCore/Packets/PacketLapData.cs:11-12 | car i is bytes 21 + 41i .. 21 + 41i + 40 |
| LapDataPackets.LapDataRoundTrip | F1TelemetryNetCore/Packets/PacketLapData.cs:7-12 | re-encoding a decoded 841-byte buffer reproduces it |
| ParticipantsPackets.ParticipantStride | F1TelemetryNetCore/Packets/PacketParticipantsData.cs:31-39 | a participant is 5 one-byte fields and a 48-byte name: 53 bytes |
| ParticipantsPackets.ParticipantsPacketSize | F1TelemetryNetCore/Packets/PacketParticipantsData.cs:12-17 | the packet is 21 + 1 + 20 * 53 = 1082 bytes, the Participants entry |
| ParticipantsPackets.NumCarsByte | F1TelemetryNetCore/Packets/PacketParticipantsData.cs:14 | NumCars is byte 21 |
| ParticipantsPackets.ParticipantAt | F1TelemetryNetCore/Packets/PacketParticipantsData.cs:16-17 | participant i is read from the 53 bytes at 22 + 53i |
| ParticipantsPackets.ParticipantNameByte | F1TelemetryNetCore/Packets/PacketParticipantsData.cs:39 | the name is exactly the 48 raw bytes after the five one-byte fields |
| ParticipantsPackets.ParticipantsRoundTrip | F1TelemetryNetCore/Packets/PacketParticipantsData.cs:10-17 | re-encoding a decoded 1082-byte buffer reproduces it |
| MotionPackets.CarMotionStride | F1Telemetry.Core/Packets/PacketMotionData.cs:60-79 | a CarMotionData record is 12 four-byte and 6 two-byte fields: 60 bytes |
| MotionPackets.PlayerBlockSize | F1Telemetry.Core/Packets/PacketMotionData.cs:16-30 | the player block is 5 arrays of 4 four-byte values, then 10 four-byte values: 120 bytes |
| MotionPackets.MotionPacketSize | F1Telemetry.Core/Packets/PacketMotionData.cs:10-30 | 20 records fill 1200 bytes after the header; the packet is 21 + 1200 + 80 + 40 = 1341 bytes, the Motion entry |
| MotionPackets.CarMotionAt | F1Telemetry.Core/Packets/PacketMotionData.cs:12-13 | car i is read from the 60 bytes at 21 + 60i |
| MotionPackets.WheelIndexInjective | F1Telemetry.Core/Packets/PacketMotionData.cs:16-17 | the four wheels RL, RR, FL, FR take distinct slots of each array |
| MotionPackets.WheelValuesDisjoint | F1Telemetry.Core/Packets/PacketMotionData.cs:16-20 | two different (array, wheel) pairs read non-overlapping four-byte slots |
| MotionPackets.WheelValue | F1Telemetry.Core/Packets/PacketMotionData.cs:16-20 | a wheel value is a four-byte value |
| MotionPackets.WheelValueBytes | F1Telemetry.Core/Packets/PacketMotionData.cs:16-20 | array a's value for wheel w is the four bytes at 1221 + 16a + 4w, in RL, RR, FL, FR order |
| MotionPackets.MotionRoundTrip | F1Telemetry.Core/Packets/PacketMotionData.cs:8-30 | re-encoding a decoded 1341-byte buffer reproduces it |
| CarStatusPackets.CarStatusParts | F1Telemetry.Core/Packets/PacketCarStatusData.cs:27-58 | a record is 11 leading fields in 19 bytes, 4 wear bytes, one byte, 4 damage bytes and 12 trailing fields in 24 bytes |
| CarStatusPackets.CarStatusStride | F1Telemetry.Core/Packets/PacketCarStatusData.cs:25-58 | a record is 32 fields in the declared 52 bytes |
| CarStatusPackets.CarStatusPacketSize | F1Telemetry.Core/Packets/PacketCarStatusData.cs:12-15 | 20 records fill 1040 bytes after the header; the packet is 1061 bytes, the CarStatus entry |
| CarStatusPackets.CarStatusAt | F1Telemetry.Core/Packets/PacketCarStatusData.cs:14-16 | car i is read from the 52 bytes at 21 + 52i |
| CarStatusPackets.TyreWearByte | F1Telemetry.Core/Packets/PacketCarStatusData.cs:40 | tyre wear k of car i is the single byte 21 + 52i + 19 + k: four bytes per car |
| CarStatusPackets.TyreDamageByte | F1Telemetry.Core/Packets/PacketCarStatusData.cs:45 | tyre damage k of car i is the single byte 21 + 52i + 24 + k: four bytes per car |
| CarStatusPackets.CarStatusRoundTrip | F1Telemetry.Core/Packets/PacketCarStatusData.cs:10-15 | re-encoding a decoded 1061-byte buffer reproduces it |
| CarTelemetryPackets.CarTelemetryStride | F1Telemetry.Core/Packets/PacketCarTelemetryData.cs:29-44 | a record is 26 fields in the declared 53 bytes |
| CarTelemetryPackets.CarTelemetryPacketSize | F1Telemetry.Core/Packets/PacketCarTelemetryData.cs:12-18 | records occupy bytes 21 .. 1080 and ButtonStatus 1081 .. 1084; the packet is 1085 bytes, the CarTelemetry entry |
| CarTelemetryPackets.CarTelemetryAt | F1Telemetry.Core/Packets/PacketCarTelemetryData.cs:14-15 | car i is read from the 53 bytes at 21 + 53i |
| CarTelemetryPackets.ButtonStatusBytes | F1Telemetry.Core/Packets/PacketCarTelemetryData.cs:15-18 | ButtonStatus is the little-endian value of bytes 1081 .. 1084 |
| CarTelemetryPackets.CarTelemetryRoundTrip | F1Telemetry.Core/Packets/PacketCarTelemetryData.cs:10-18 | re-encoding a decoded 1085-byte buffer reproduces it |
| CarSetupsPackets.CarSetupStride | F1Telemetry.Core/Packets/PacketCarSetupsData.cs:28-49 | a record is 20 fields (7 four-byte, 13 one-byte) in the declared 41 bytes |
| CarSetupsPackets.CarSetupsPacketSize | F1Telemetry.Core/Packets/PacketCarSetupsData.cs:12-15 | 20 records fill 820 bytes after the header; the packet is 841 bytes, the CarSetups entry |
| CarSetupsPackets.CarSetupAt | F1Telemetry.Core/Packets/PacketCarSetupsData.cs:14-15 | setup i is read from the 41 bytes at 21 + 41i |
| CarSetupsPackets.CarSetupsRoundTrip | F1Telemetry.Core/Packets/PacketCarSetupsData.cs:10-15 | re-encoding a decoded 841-byte buffer reproduces it |
| PacketParsers.ValidateAsWritten | F1Telemetry.Core/PacketParser.cs:19-49 | the validator as written throws exactly on datagrams shorter than 21 bytes |
| PacketParsers.Validate | F1Telemetry.Core/PacketParser.cs:22-48 | an accepted datagram holds at least a whole header |
| PacketParsers.ValidateAgrees | F1Telemetry.Core/PacketParser.cs:28-48 | on datagrams of at least 21 bytes the validator as written returns the corrected validator's answer |
| PacketParsers.ShortDatagramThrows | F1Telemetry.Core/PacketParser.cs:21-26 | a datagram under 21 bytes makes the validator as written throw, where the corrected one rejects it |
| PacketParsers.ValidateMatchesStep | F1Telemetry.Core/PacketParser.cs:28-48 | accepted if and only if the format is 2018, the type ordinal is below 8 and the whole packet of that type is present |
| PacketParsers.Accepts | F1Telemetry.Core/PacketParser.cs:28-48 | the validator's checks once a header is present: format 2018, a known type ordinal and that type's whole packet; ValidateMatchesStep ties it to the pass |
| PacketParsers.FirstSpan | F1Telemetry.Core/PacketParser.cs:61 | the first span is the first segment of a non-empty buffer |
| PacketParsers.TryReadFromBuffer | F1Telemetry.Core/PacketParser.cs:51-77 | the read always yields an n-byte image |
| PacketParsers.TryReadPrefix | F1Telemetry.Core/PacketParser.cs:53-76 | success if and only if n bytes are buffered; then the first n bytes and n read, whether or not they are contiguous; otherwise the default struct and 0 read |
| PacketParsers.Received | F1Telemetry.Core/PacketParser.cs:105-107 | the handler receives the struct whose image is exactly the consumed bytes |
| PacketParsers.DispatchOf | F1Telemetry.Core/PacketParser.cs:102-133 | only Session and Event packets produce a handler call, carrying the packet's bytes |
| PacketParsers.IdAt | F1Telemetry.Core/PacketParser.cs:102 | the dispatched identifier is one byte |
| PacketParsers.IdAtHeader | F1Telemetry.Core/PacketParser.cs:96-102 | the identifier switched on is the packet id of the header read from the first 21 bytes |
| PacketParsers.StepBytes | F1Telemetry.Core/PacketParser.cs:96-155 | a pass that consumes takes at least a header and no more than is buffered |
| PacketParsers.Step | F1Telemetry.Core/PacketParser.cs:96-155 | one pass over the segmented buffer: read a header, switch on its identifier, read the whole packet; StepIsStepBytes shows the segmentation is irrelevant, and StepWaitsForWholePacket, StepAdvancesByPacketSize and StepDispatches state its three outcomes |
| PacketParsers.StepIsStepBytes | F1Telemetry.Core/PacketParser.cs:61-76 | how the buffered bytes are split into segments does not change the pass |
| PacketParsers.StepWaitsForWholePacket | F1Telemetry.Core/PacketParser.cs:96-99 | nothing is consumed if and only if fewer than 21 bytes, or fewer than the known type's full size, are buffered |
| PacketParsers.StepAdvancesByPacketSize | F1Telemetry.Core/PacketParser.cs:140-155 | a consuming pass advances by exactly its type's full size, header included |
| PacketParsers.StepRejectsUnknownId | F1Telemetry.Core/PacketParser.cs:134-136 | an identifier of 8 or more raises the unsupported-id exception |
| PacketParsers.StepDispatches | F1Telemetry.Core/PacketParser.cs:104-133 | a consuming pass calls the handler if and only if the type is Session or Event, with exactly the consumed bytes |
| PacketParsers.StepExtends | F1Telemetry.Core/PacketParser.cs:96-155 | bytes arriving after a decided pass do not change it |
| PacketParsers.Expected | F1Telemetry.Core/PacketParser.cs:104-124 | a framed packet should produce a handler call if and only if it is a Session or Event packet |
| PacketParsers.DispatchFormatOf | F1Telemetry.Core/PacketParser.cs:104-124 | a dispatched packet is read with its own type's struct |
| PacketParsers.WrittenFrame | F1Telemetry.Core/PacketParser.cs:140-155 | writing a packet gives a frame whose handler call delivers the very packet written |
| PacketParsers.StepFrame | F1Telemetry.Core/PacketParser.cs:140-155 | a pass over a frame, whatever follows it, consumes exactly that frame and dispatches its bytes |
| PacketParsers.DrainStops | F1Telemetry.Core/PacketParser.cs:96-99 | decoding all buffered bytes stops only before an incomplete packet or at an unknown identifier |
| PacketParsers.DrainAppend | F1Telemetry.Core/PacketParser.cs:88-156 | decoding bytes in two installments makes the handler calls of decoding them at once |
| PacketParsers.DrainConsumed | F1Telemetry.Core/PacketParser.cs:153 | a consumed packet's handler call comes before those of the bytes after it |
| PacketParsers.DrainThrows | F1Telemetry.Core/PacketParser.cs:134-136 | an unknown identifier ends decoding with that exception and nothing consumed |
| PacketParsers.DrainWaits | F1Telemetry.Core/PacketParser.cs:96-99 | a buffer without a whole packet ends decoding with nothing consumed |
| PacketParsers.DrainImages | F1Telemetry.Core/PacketParser.cs:88-156 | packets written back to back decode to exactly their handler calls, in order, with nothing left over: the decoder inverts the writer |
| Pipes.NextRead | F1Telemetry.Core/PacketParser.cs:90 | a read returns the whole buffer; it is completed exactly when the writer has completed; a read with nothing new waits for the writer's next action |
| Pipes.DropBytes | F1Telemetry.Core/PacketParser.cs:153 | consuming n bytes leaves exactly the bytes after them |
| Pipes.PipeReader.constructor | F1Telemetry.Core/PacketParser.cs:84 | a fresh pipe has nothing buffered and is not completed |
| Pipes.PipeReader.ReadAsync | F1Telemetry.Core/PacketParser.cs:90 | the read and the new pipe state are those NextRead gives |
| Pipes.PipeReader.AdvanceTo | F1Telemetry.Core/PacketParser.cs:153 | consumes n bytes; the rest is unexamined, so the next read waits for the writer only when nothing remains |
| Pipes.PipeReader.AdvanceToEnd | F1Telemetry.Core/PacketParser.cs:98 | consumes nothing and marks everything examined, so the next read waits for the writer |
| Pipes.PipeReader.Complete | F1Telemetry.Core/PacketParser.cs:165 | completes the reader and changes nothing else |
| ReaderLoops.Advanced | F1Telemetry.Core/PacketParser.cs:153 | the buffer shrinks by exactly the consumed bytes; it counts as examined exactly when it is empty; the writer's side is untouched |
| ReaderLoops.ParseWaiting | F1Telemetry.Core/PacketParser.cs:90-99 | with nothing new to read, the intended loop has made the calls of decoding everything written |
| ReaderLoops.ParseAfterFlush | F1Telemetry.Core/PacketParser.cs:90 | a flush the reader waits for is read at once |
| ReaderLoops.FlushWritten | F1Telemetry.Core/PacketParser.cs:90 | a flush appends its chunk and changes neither what is written in all nor whether the writer completes |
| ReaderLoops.ParseReadyWaits | F1Telemetry.Core/PacketParser.cs:96-99 | a pass without a whole packet keeps the intended loop on track |
| ReaderLoops.ParseReadyThrows | F1Telemetry.Core/PacketParser.cs:134-136 | a pass at an unknown identifier throws as decoding everything does |
| ReaderLoops.ParseReadyConsumes | F1Telemetry.Core/PacketParser.cs:140-155 | a consuming pass makes the first call of decoding everything |
| ReaderLoops.ParseDrains | F1Telemetry.Core/PacketParser.cs:84-167 | the intended loop makes exactly the handler calls of decoding every byte written, throws where that decoding does, and otherwise stops when the writer completes |
| ReaderLoops.Parse | F1Telemetry.Core/PacketParser.cs:84-167 | the read loop as intended, where a completed read still decodes its buffer; ParseDrains proves it makes exactly the calls of decoding every byte written |
| ReaderLoops.ParseAsWritten | F1Telemetry.Core/PacketParser.cs:84-167 | the read loop as written, which stops at a completed read before decoding; AsWrittenPrefix proves its calls are a prefix of the intended ones |
| ReaderLoops.AsWrittenPrefix | F1Telemetry.Core/PacketParser.cs:91-94 | the loop as written makes a prefix of the intended calls, and exactly them while the writer never completes |
| ReaderLoops.CompletionDropsBufferedPackets | F1Telemetry.Core/PacketParser.cs:91-94 | packets flushed together with completion are never decoded as written, though every Session and Event packet among them should reach the handler |
| ReaderLoops.OneEventDropped | F1Telemetry.Core/PacketParser.cs:91-94 | one event packet flushed with completion is dropped as written and handed on as intended |
| ReaderLoops.AsWrittenWaits | F1Telemetry.Core/PacketParser.cs:90 | a read that never returns leaves the loop waiting with no call made |
| ReaderLoops.AsWrittenStops | F1Telemetry.Core/PacketParser.cs:91-94 | a completed or cancelled read stops the loop as written, with no call made |
| ReaderLoops.AsWrittenNeedMore | F1Telemetry.Core/PacketParser.cs:96-99 | without a whole packet the loop examines the buffer and reads again |
| ReaderLoops.AsWrittenThrows | F1Telemetry.Core/PacketParser.cs:134-136 | an unknown identifier throws with no call made |
| ReaderLoops.AsWrittenConsumes | F1Telemetry.Core/PacketParser.cs:140-155 | a consumed packet's call comes first, then the loop goes on past the packet |
| ReaderLoops.ReadMessageAndAdvanceBuffer | F1Telemetry.Core/PacketParser.cs:140-155 | reads the struct's bytes and advances past them, or, with too few bytes, examines the buffer and consumes nothing |
| ReaderLoops.PacketParser.constructor | F1Telemetry.Core/PacketParser.cs:79-82 | a parser has handled nothing yet |
| ReaderLoops.PacketParser.ReadMessages | F1Telemetry.Core/PacketParser.cs:84-167 | the handler receives the loop's calls; the reader is completed however the loop ends, unless it is still waiting |
| CompositeHandlers.FanOut | F1Telemetry.Core/Packets/CompositePacketHandler.cs:67-80 | every handler gets a new state, at most one log entry each; with no handlers a call changes nothing |
| CompositeHandlers.EachHandlerOnce | F1Telemetry.Core/Packets/CompositePacketHandler.cs:69-74 | handler i is invoked once, in constructor order, on the packet the earlier handlers left (by ref), whether or not they threw |
| CompositeHandlers.FaultsAreContained | F1Telemetry.Core/Packets/CompositePacketHandler.cs:71-78 | an exception never reaches the caller and changes no handler's outcome; it is only logged |
| CompositeHandlers.CompositePacketHandler.constructor | F1Telemetry.Core/Packets/CompositePacketHandler.cs:16-19 | the handlers are kept in the order given, and nothing is logged yet |
| CompositeHandlers.CompositePacketHandler.HandlePacket | F1Telemetry.Core/Packets/CompositePacketHandler.cs:21-80 | each On* call fans out with its packet and source; states, packet and log follow the fan-out |
| DelayHandlers.DelayScale.constructor | F1Telemetry.Core/Packets/DelayPacketHandler.cs:12-15 | a scale built from a float keeps it and is disabled |
| DelayHandlers.ToFloat | F1Telemetry.Core/Packets/DelayPacketHandler.cs:20-23 | the scale as a float; FromFloat proves the round trip from a float |
| DelayHandlers.FromFloat | F1Telemetry.Core/Packets/DelayPacketHandler.cs:20-28 | the implicit conversion gives a new, disabled scale that converts back to the float |
| DelayHandlers.Paced | F1Telemetry.Core/Packets/DelayPacketHandler.cs:41-98 | SSTA sets the session's time to 0 and any other code removes it. A file packet with pacing on raises KeyNotFound for an untracked session. For a tracked session it raises the sleep's exception when the sleep throws, and otherwise records its session time. Every failing call leaves the map unchanged, and other ids never change |
| DelayHandlers.Replay | F1Telemetry.Core/Packets/DelayPacketHandler.cs:41-98 | a stream of calls raises at most once per call |
| DelayHandlers.TrackedSessionNeverFaults | F1Telemetry.Core/Packets/DelayPacketHandler.cs:89-97 | once a session is tracked, it stays tracked and its packets never raise KeyNotFound; the only exceptions are rejected sleeps, and a sleep that accepts every delay gives none |
| DelayHandlers.StartedSessionNeverFaults | F1Telemetry.Core/Packets/DelayPacketHandler.cs:43-46 | a session replayed from its start event never raises KeyNotFound for its later packets; a sleep that accepts every delay makes it raise nothing |
| DelayHandlers.DelayPacketHandler.constructor | F1Telemetry.Core/Packets/DelayPacketHandler.cs:36-39 | the handler keeps its scale and tracks no session |
| DelayHandlers.DelayPacketHandler.OnPacketEventData | F1Telemetry.Core/Packets/DelayPacketHandler.cs:41-52 | the map becomes Paced's map for the event |
| DelayHandlers.DelayPacketHandler.OnPacket | F1Telemetry.Core/Packets/DelayPacketHandler.cs:54-87 | the map becomes Paced's map, or the call raises Paced's exception (KeyNotFound or a rejected sleep) and leaves the map alone |
| DelayHandlers.DelayPacketHandler.Delay | F1Telemetry.Core/Packets/DelayPacketHandler.cs:89-98 | a live packet or disabled pacing changes nothing. An untracked session raises KeyNotFound, and a sleep that throws raises its exception; neither changes the map. Otherwise only the session's time becomes the packet's |
| FileWriters.Decimal | F1Telemetry.Core/Persistence/FIleWriterPacketHandler.cs:53 | an id renders as one or more decimal digits |
| FileWriters.ParseDecimalOf | F1Telemetry.Core/Persistence/FIleWriterPacketHandler.cs:53 | parsing a rendered id gives the id back |
| FileWriters.FileName | F1Telemetry.Core/Persistence/FIleWriterPacketHandler.cs:53 | the name starts with the prefix and an underscore, ends with .f1s.gz, and holds between them only digits that read back as the session id |
| FileWriters.FileNameInjective | F1Telemetry.Core/Persistence/FIleWriterPacketHandler.cs:53 | distinct sessions get distinct file names |
| FileWriters.Combine | F1Telemetry.Core/Persistence/FIleWriterPacketHandler.cs:53 | a combined path ends with the file name |
| FileWriters.PathsDistinct | F1Telemetry.Core/Persistence/FIleWriterPacketHandler.cs:53 | distinct sessions are recorded at distinct paths |
| FileWriters.Written | F1Telemetry.Core/Persistence/FIleWriterPacketHandler.cs:92-112 | with an open file the raw bytes are appended to it; without one the session becomes ignored; no other file changes |
| FileWriters.HandledConsistent | F1Telemetry.Core/Persistence/FIleWriterPacketHandler.cs:33-147 | every call keeps each open file at its session's path and no session both open and ignored |
| FileWriters.Handled | F1Telemetry.Core/Persistence/FIleWriterPacketHandler.cs:42-89 | the writer's state after one packet or event; HandledConsistent, PacketsAppend and SessionRecorded state what it keeps and records |
| FileWriters.WrittenConsistent | F1Telemetry.Core/Persistence/FIleWriterPacketHandler.cs:101-111 | writing a packet keeps that invariant |
| FileWriters.PacketsAppend | F1Telemetry.Core/Persistence/FIleWriterPacketHandler.cs:101-106 | while a file is open, its session's packets are appended in arrival order, and nothing else changes |
| FileWriters.SessionRecorded | F1Telemetry.Core/Persistence/FIleWriterPacketHandler.cs:43-88 | after start, packets and end, the session's file holds exactly their raw bytes in order, and the session has no open file |
| FileWriters.CloseKeepsClosing | F1Telemetry.Core/Persistence/FIleWriterPacketHandler.cs:149-156 | closing one more file keeps disposal on track |
| FileWriters.FileWriterPacketHandler.constructor | F1Telemetry.Core/Persistence/FIleWriterPacketHandler.cs:26-31 | the location defaults to the app-data folder's F1Telemetry and the prefix to F1TelemetrySession; nothing is open or ignored |
| FileWriters.FileWriterPacketHandler.WritePacket | F1Telemetry.Core/Persistence/FIleWriterPacketHandler.cs:92-112 | the state becomes Written's; the warning is logged if and only if the session had no file and was not yet ignored |
| FileWriters.FileWriterPacketHandler.Close | F1Telemetry.Core/Persistence/FIleWriterPacketHandler.cs:49-50 | one file is disposed and removed |
| FileWriters.FileWriterPacketHandler.OnPacketEventData | F1Telemetry.Core/Persistence/FIleWriterPacketHandler.cs:33-90 | SSTA replaces any open file with a new one and writes the start packet; SEND writes the end packet and closes the file; other codes change nothing; the invariant holds |
| FileWriters.FileWriterPacketHandler.OnPacket | F1Telemetry.Core/Persistence/FIleWriterPacketHandler.cs:114-147 | each forwarder writes its packet for the header's session id |
| FileWriters.FileWriterPacketHandler.Handle | F1Telemetry.Core/Persistence/FIleWriterPacketHandler.cs:42-89 | the shared body of the On* methods keeps the invariant |
| FileWriters.FileWriterPacketHandler.Dispose | F1Telemetry.Core/Persistence/FIleWriterPacketHandler.cs:149-156 | every open file is closed with its bytes on disk at its path; the open set is emptied; no other file is created or changed |
| SessionEventsHandlers.LifecycleOf | F1Telemetry.Core/SessionManagement/SessionEventsPacketHandler.cs:34-42 | SSTA and SEND translate, with the header's id and session time; any other code is the invalid-session-type error |
| SessionEventsHandlers.CodeOf | F1Telemetry.Core/SessionManagement/SessionEventsPacketHandler.cs:37-38 | the game's code for a start or end has four characters |
| SessionEventsHandlers.LifecycleRoundTrip | F1Telemetry.Core/SessionManagement/SessionEventsPacketHandler.cs:34-42 | the translation inverts the game's encoding of starts and ends |
| SessionEventsHandlers.SessionEventsOf | F1Telemetry.Core/SessionManagement/SessionEventsPacketHandler.cs:70-103 | a session packet gives five events in order (weather, track, pause or resume, duration, time left), all with its id, session time and one timestamp; a pause if and only if GamePaused is non-zero |
| SessionEventsHandlers.NoReadingLost | F1Telemetry.Core/SessionManagement/SessionEventsPacketHandler.cs:76-101 | every reading of the packet comes back out of the five events, with spans in whole seconds and no range checks |
| SessionEventsHandlers.Emitted | F1Telemetry.Core/SessionManagement/SessionEventsPacketHandler.cs:32-103 | an event packet gives exactly one lifecycle event or throws and gives nothing; a session packet gives the five events; the six other kinds give nothing |
| SessionEventsHandlers.SessionEventsFromBytes | F1Telemetry.Core/SessionManagement/SessionEventsPacketHandler.cs:76-101 | each event's reading is the field at its byte offset in the datagram |
| SessionEventsHandlers.EventsNameEnumerators | F1Telemetry.Core/SessionManagement/SessionEventsPacketHandler.cs:76-90 | the weather event names a Weather enumerator if and only if the byte is below 6, the track event a Track enumerator if and only if the id is in -1 .. 24, and then the one with that ordinal |
| ObservableHandlers.EventTypeOf | F1Telemetry.Core/Observables/ObservablePacketHandler.cs:31-37 | SSTA is Start and SEND is End, each if and only if; any other code is the error |
| ObservableHandlers.SnapshotOf | F1Telemetry.Core/Observables/ObservablePacketHandler.cs:70-88 | the bundle's Paused, Online and Spectating flags are GamePaused, NetworkGame and IsSpectating non-zero; it carries the header's id and session time |
| ObservableHandlers.Emitted | F1Telemetry.Core/Observables/ObservablePacketHandler.cs:29-88 | an event packet gives one notification or throws; a session packet gives exactly one bundle; the six other kinds give nothing |
| ObservableHandlers.TranslatorsAgree | F1Telemetry.Core/Observables/ObservablePacketHandler.cs:29-88 | the older translator throws exactly when the newer one does, and its bundle carries exactly the readings of the newer one's five events |
| Events.FromSeconds | F1Telemetry.Core/SessionManagement/SessionEventsPacketHandler.cs:98 | a whole number of seconds as ticks divides back to the seconds, with no remainder |
| Events.SameIsEquivalence | F1Telemetry.Core/SessionManagement/Events/WeatherInfo.cs:18-26 | event equality is reflexive, symmetric and transitive |
| Events.SameClass | F1Telemetry.Core/SessionManagement/Events/SessionPause.cs:16-19 | equal events are of one class, so a pause never equals a resume, and all but weather agree on the session id |
| Events.SameHash | F1Telemetry.Core/SessionManagement/Events/TrackInfo.cs:27-36 | equal events have equal hash codes |
| Events.Same | F1Telemetry.Core/SessionManagement/Events/SessionDuration.cs:15-23 | the events' Equals overrides: same class and equal compared fields; SameIsEquivalence and SameClass state its properties |
| Events.Hash | F1Telemetry.Core/SessionManagement/Events/SessionDuration.cs:25-30 | the GetHashCode overrides over the compared fields; SameHash proves equal events hash alike |
| Events.WeatherOf | F1Telemetry.Core/SessionManagement/Events/WeatherInfo.cs:39-47 | a weather byte names an enumerator if and only if it is below 6 |
| Events.WeatherOrdinals | F1Telemetry.Core/SessionManagement/Events/WeatherInfo.cs:39-47 | the ordinals 0 .. 5 and the enumerators correspond one to one |
| Events.TrackOf | F1Telemetry.Core/SessionManagement/Events/TrackInfo.cs:39-67 | a track value names an enumerator if and only if it is in -1 .. 24 |
| Events.TrackOrdinalNamesTrack | F1Telemetry.Core/SessionManagement/Events/TrackInfo.cs:39-67 | every enumerator's ordinal names it back |
| Events.TrackNamedByOrdinal | F1Telemetry.Core/SessionManagement/Events/TrackInfo.cs:39-67 | each of -1 .. 24 names the enumerator with that ordinal |
| Sessions.Offer | F1Telemetry.Core/SessionManagement/Session.cs:27 | a value is published if it differs from the last one published, and dropped otherwise; the cache stays in step |
| Sessions.Passes | F1Telemetry.Core/SessionManagement/Session.cs:27 | DistinctUntilChanged's test: a value gets through unless it equals the last one published; Offer and OfferAllIsKept state its effect |
| Sessions.OfferAll | F1Telemetry.Core/SessionManagement/Session.cs:27 | a stream offered in order keeps what was already published, adds at most one value per value offered and keeps the channel invariant |
| Sessions.Kept | F1Telemetry.Core/SessionManagement/Session.cs:27 | the reference filter never publishes more than it receives |
| Sessions.OfferAllIsKept | F1Telemetry.Core/SessionManagement/Session.cs:27 | comparing with the last value published keeps exactly what comparing with the last value received keeps |
| Sessions.OfferAllSettled | F1Telemetry.Core/SessionManagement/Session.cs:27-33 | a channel's cache always holds its last published value, and nothing published repeats |
| Sessions.LateJoin | F1Telemetry.Core/SessionManagement/Session.cs:27-30 | a late subscriber gets the last value published, or nothing |
| Sessions.LateJoinSeesLatest | F1Telemetry.Core/SessionManagement/Session.cs:27-30 | once anything was offered, a late subscriber gets exactly one value, equal to the latest one |
| Sessions.OnSlot | F1Telemetry.Core/SessionManagement/Session.cs:27-33 | each channel sees only events of its class |
| Sessions.HandleLifecycle | F1Telemetry.Core/SessionManagement/Session.cs:40-50 | start sets StartTime, end EndTime, pause and resume Paused; every other field is unchanged |
| Sessions.WithChannel | F1Telemetry.Core/SessionManagement/Session.cs:27-33 | replacing one channel leaves the others and the fold alone |
| Sessions.Step | F1Telemetry.Core/SessionManagement/Session.cs:27-36 | an event never changes whether the session completed |
| Sessions.StepEffect | F1Telemetry.Core/SessionManagement/Session.cs:27-36 | only the event's own channel changes, the fold sees exactly the lifecycle events that get through, and it keeps agreeing with the channels |
| Sessions.Run | F1Telemetry.Core/SessionManagement/Session.cs:23-38 | a stream of events never completes the session by itself |
| Sessions.RunFolded | F1Telemetry.Core/SessionManagement/Session.cs:34-36 | the fold's fields agree with the lifecycle channels from a new session on |
| Sessions.ChannelsFilter | F1Telemetry.Core/SessionManagement/Session.cs:27-33 | each channel is the filter applied to the events of its class |
| Sessions.ChannelsAreDistinct | F1Telemetry.Core/SessionManagement/Session.cs:27-33 | each channel publishes exactly the events of its class that differ from the one received before, with no consecutive repeats |
| Sessions.RepeatPublishedOnce | F1Telemetry.Core/SessionManagement/Session.cs:27-30 | a value received twice in a row (Clear, Clear) is published once |
| Sessions.PauseResumePauseAllPublish | F1Telemetry.Core/SessionManagement/Session.cs:33 | pause, resume, pause share one channel and are all published; the session ends paused |
| Sessions.PausedFollowsLast | F1Telemetry.Core/SessionManagement/Session.cs:46-47 | Paused is true if and only if the last pause-or-resume received is a pause |
| Sessions.SameIdStartsKeepFirst | F1Telemetry.Core/SessionManagement/Session.cs:31 | repeated starts of one session are published once |
| Sessions.StartChannelKeepsFirst | F1Telemetry.Core/SessionManagement/Session.cs:31 | when every start names one session, the start channel publishes and caches only the first start |
| Sessions.FirstStartWins | F1Telemetry.Core/SessionManagement/Session.cs:31-44 | StartTime keeps the first start's timestamp |
| Sessions.LateJoinLifecycle | F1Telemetry.Core/SessionManagement/Session.cs:34 | a late lifecycle subscriber gets at most three events |
| Sessions.LateJoinLifecycleLatest | F1Telemetry.Core/SessionManagement/Session.cs:31-34 | a late lifecycle subscriber gets the latest start, then the latest pause-or-resume, then the latest end |
| Sessions.LateJoinOnSlot | F1Telemetry.Core/SessionManagement/Session.cs:27-33 | a late subscriber to one channel of a session that has seen events of its class gets one value, equal to the latest of them |
| Sessions.Session.constructor | F1Telemetry.Core/SessionManagement/Session.cs:23-26 | a new session has published nothing, is not paused and has not completed |
| Sessions.Session.OnEvent | F1Telemetry.Core/SessionManagement/Session.cs:27-36 | the session's new state is Step's |
| Sessions.Session.SetChannel | F1Telemetry.Core/SessionManagement/Session.cs:27-33 | only that channel changes |
| Sessions.Session.Handle | F1Telemetry.Core/SessionManagement/Session.cs:40-50 | the new state is HandleLifecycle's |
| Sessions.Session.OnComplete | F1Telemetry.Core/SessionManagement/Session.cs:36 | completion sets Completed and nothing else |
| SessionManagers.Route | F1Telemetry.Core/SessionManagement/SessionManager.cs:31 | an event joins its id's open group or opens a new one; a session end closes its group |
| SessionManagers.RouteSound | F1Telemetry.Core/SessionManagement/SessionManager.cs:31 | the event lands at the end of its id's latest group, which is new exactly when the id had none open; other groups are untouched |
| SessionManagers.RoutedGroupSound | F1Telemetry.Core/SessionManagement/SessionManager.cs:31 | the group the event lands in is closed exactly when the event is a session end |
| SessionManagers.GroupAll | F1Telemetry.Core/SessionManagement/SessionManager.cs:31 | grouping a stream keeps the grouping sound |
| SessionManagers.GroupAllOneMore | F1Telemetry.Core/SessionManagement/SessionManager.cs:31 | grouping one more event routes it into the grouping of the ones before |
| SessionManagers.EveryEventRoutedOnce | F1Telemetry.Core/SessionManagement/SessionManager.cs:31-32 | every event reaches exactly one group |
| SessionManagers.IdsOf | F1Telemetry.Core/SessionManagement/SessionManager.cs:24 | every event's id is among the ids of the stream |
| SessionManagers.GroupedIds | F1Telemetry.Core/SessionManagement/SessionManager.cs:24 | the ids with a group are exactly the ids of the events seen |
| SessionManagers.Deliver | F1Telemetry.Core/SessionManagement/SessionManager.cs:31-32 | a session completes when it receives its group's session end |
| SessionManagers.DeliveredIsRun | F1Telemetry.Core/SessionManagement/SessionManager.cs:31-32 | a managed session has seen all its group's events and has completed exactly when its group ended |
| SessionManagers.CompletedExactlyWhenEnded | F1Telemetry.Core/SessionManagement/SessionManager.cs:31-32 | a managed session has completed exactly when its group has ended with a session end |
| SessionManagers.OpenTagged | F1Telemetry.Core/SessionManagement/SessionManager.cs:31-32 | each open group's session carries the group's id |
| SessionManagers.OpenExactlyUnended | F1Telemetry.Core/SessionManagement/SessionManager.cs:31 | the sessions of the open groups are exactly those whose group has not ended |
| SessionManagers.OpenAtCompletion | F1Telemetry.Core/SessionManagement/SessionManager.cs:31 | when the input completes, every session outside the open groups has already completed, and the open sessions are one per id |
| SessionManagers.MatchesRoute | F1Telemetry.Core/SessionManagement/SessionManager.cs:31-33 | routing changes one session, which receives the event; every other session keeps its state |
| SessionManagers.MatchesOthers | F1Telemetry.Core/SessionManagement/SessionManager.cs:31-33 | the sessions the event does not reach keep their groups' states |
| SessionManagers.TaggedRoute | F1Telemetry.Core/SessionManagement/SessionManager.cs:32-34 | a new session joins the end of the replay list, tagged with its group's id |
| SessionManagers.LatestRoute | F1Telemetry.Core/SessionManagement/SessionManager.cs:33 | an id without an open group gets the new session in the map, overwriting the old one |
| SessionManagers.OpenedRoute | F1Telemetry.Core/SessionManagement/SessionManager.cs:31 | the session the event reaches stays open unless the event is a session end |
| SessionManagers.RoutedIndex | F1Telemetry.Core/SessionManagement/SessionManager.cs:31-34 | the event's session is at its open group's index, or just past the end of the list |
| SessionManagers.ConsistentRoute | F1Telemetry.Core/SessionManagement/SessionManager.cs:31-34 | routing an event keeps map, open groups, list and session states consistent with the grouping |
| SessionManagers.SessionManager.constructor | F1Telemetry.Core.Tests/SessionManagerTests.cs:58-72 | a manager created after events were published has seen none of them, has no session, and its replay has not completed |
| SessionManagers.SessionManager.OnEvent | F1Telemetry.Core/SessionManagement/SessionManager.cs:29-36 | the invariant holds; SessionCount is the number of distinct ids seen; the list only grows, by one fresh session exactly when the id had no open group; the map holds a session for the id; the group stays open unless the event is a session end |
| SessionManagers.SessionManager.SessionCount | F1Telemetry.Core/SessionManagement/SessionManager.cs:24 | the number of session ids in the map; OnEvent proves it is the number of distinct ids seen |
| SessionManagers.SessionManager.Admit | F1Telemetry.Core/SessionManagement/SessionManager.cs:31-33 | the event's session is its id's open one, or a fresh one recorded in the map and at the end of the list |
| SessionManagers.SessionManager.Forward | F1Telemetry.Core/SessionManagement/SessionManager.cs:32 | the event reaches one session, and every other session keeps its state |
| SessionManagers.SessionManager.OnCompleted | F1Telemetry.Core/SessionManagement/SessionManager.cs:31-36 | when the event stream completes, no group stays open, every session created has completed, and nothing else about it changes; the replay of sessions completes, as F1Telemetry.Core.Tests/SessionManagerTests.cs:49-53 waits for |
| SessionManagers.SessionManager.CompleteEach | F1Telemetry.Core/SessionManagement/Session.cs:36 | each open session completes and nothing else changes in it |
| SessionManagers.SessionManager.Sessions | F1Telemetry.Core/SessionManagement/SessionManager.cs:34-36 | every subscriber, however late, receives one entry per session created |

## Left out

- Floating point: the header's session time and every physics and telemetry float are kept as raw 32-bit patterns, never as numbers.
- EventPackets.DecodeUtf8: decodes only ASCII exactly; any byte of 128 or more becomes U+FFFD on its own, where UTF-8 would decode multi-byte sequences. Event codes are ASCII.
- UTF-8 decoding of participant names is not modelled; the name stays 48 raw bytes.
- The `Span` accessor properties and every `ToString` override of the packet structs are not modelled. The accessors pass the buffer's byte count as an element count; the model exposes the 20 records of the wire layout instead. LapData's missing `Pack=1` is not modelled either: its declared `Size` defines the stride.
- Sockets, threads and the gzip recording reader (`UdpListener`, `TelemetryListener`, `FileReader`) are not part of this model. The pipe's writer side is a list of flush and cancel signals.
- The cancellation token of `ReadMessages` is not modelled; a cancelled read is one of the writer-side signals.
- Logging is not modelled, except the file writer's ignore warning (an out-parameter) and the composite's caught exceptions (a list).
- Handlers are modelled by one reaction function over handler states, with the eight `On*` methods as one method that takes the packet kind. Two handlers sharing state (aliasing) is not modelled.
- The three-method `IPacketHandler` interface and `PacketHandlerObservable` are not part of this model. `PacketSource` (UDP or file) is a two-valued datatype, since its declaration is not among the sources.
- DelayHandlers.Paced: float arithmetic is not modelled, so whether `Thread.Sleep(TimeSpan.FromSeconds((sessionTime − last) × scale))` throws is a parameter. It throws for a NaN, an overflow or a negative span other than −1 ms, for example when the session time goes backwards. A span of exactly −1 ms makes `Thread.Sleep` wait forever; the model treats that sleep as one that returns.
- DelayHandlers.DelayPacketHandler.Delay: how long the sleep lasts is not modelled; only whether it throws and the map of last times are.
- DelayHandlers.Replay: the scale is the same for every call of a replay, although the source reads the shared, settable scale at each call; the handler's methods read it at each call.
- File system and compression: creating the directory, opening the file and the gzip stream are one possibly failing step, a parameter. A file is an append-only byte sequence on a map from path to bytes.
- FileWriters.Combine: models `Path.Combine` for a relative file name only, with `/` as the separator. On Windows the separator is `\`, a location ending in `\` or in a volume separator gets none added, and a rooted name would replace the location.
- The local application-data folder is a parameter; `DateTime.Now` is a parameter wherever an event is stamped.
- Events.Hash: follows the .NET `GetHashCode` of the compared fields for integers and enums only; the randomised string hash is not needed, because no compared field is a string.
- Rx scheduling is not modelled: `ObserveOn`, `EventLoopScheduler`, `FromEventPattern`, `Publish` and `Connect`. Events arrive one at a time, in order, as method calls. A replayed observable with several subscribers is one list that every subscriber reads.
- `Session.SessionEnded` (a plain filter of the session's events) is not modelled.
- An error in the publisher's event stream (`OnError`) is not modelled; completion is (`SessionManager.OnCompleted`).
- A lifecycle event of another class reaching `HandleLifecycle` cannot be expressed: the event datatype has only the four lifecycle classes, so the throwing default branch is unreachable.
- The WPF view models and the log appender are user interface and are not part of this model.

## Findings

| source | as written | input that shows it | evidently intended | confidence | as-written member | corrected member |
|---|---|---|---|---|---|---|
| F1Telemetry.Core/PacketParser.cs:21-26 | `ValidatePacketHeaderAndLength` reinterprets the header before it compares the buffer length with the header size | any datagram of fewer than 21 bytes, e.g. an empty one: the read throws | the length check runs first, so a short datagram is logged and rejected with false | not executed; high, since `MemoryMarshal.Read` throws on a span shorter than the struct | PacketParsers.ShortDatagramThrows | PacketParsers.ValidateMatchesStep |
| F1Telemetry.Core/PacketParser.cs:91-94 | `ReadMessages` breaks as soon as a read reports `IsCompleted`, before decoding that read's buffer | one 25-byte SSTA event packet flushed together with the writer's completion: the handler never receives it | the loop decodes every whole packet still buffered, then stops | not executed; medium, since it depends on timing: the recording reader completes its writer right after its last write, so a reader that lags behind sees the last packets together with completion | ReaderLoops.OneEventDropped | ReaderLoops.ParseDrains |
