/**
 * The common shape of the eight packet structs. Each is the 21-byte header, then
 * some fields of its own, then a fixed byte buffer over which a span of records is
 * laid, then some trailing fields. The C# structs read that buffer as raw bytes
 * (`fixed byte XRaw[N]`) and reinterpret it on access, so the model keeps the
 * buffer as bytes and decodes records from it on demand.
 */
module PacketFormats {
  import opened Wire
  import opened PacketHeaders

  /** Every car-indexed buffer holds one record per car slot. */
  const CarCount: nat := 20

  /**
   * The layout of one packet struct after its header: the struct's own leading fields,
   * the record layout and record count of its fixed buffer, and its trailing fields.
   */
  datatype Format = Format(fields: Layout, record: Layout, count: nat, trailer: Layout)

  /** The size of the fixed buffer: count records of the record layout. */
  function BufferSize(f: Format): nat {
    Times(f.count, Size(f.record))
  }

  /** Where the fixed buffer starts in the datagram. */
  function BufferStart(f: Format): nat {
    HeaderSize + Size(f.fields)
  }

  /** Where the trailing fields start in the datagram. */
  function TrailerStart(f: Format): nat {
    BufferStart(f) + BufferSize(f)
  }

  /** The packed size of the whole struct, header included. */
  function TotalSize(f: Format): nat {
    TrailerStart(f) + Size(f.trailer)
  }

  /** A packet struct value: the decoded header and leading fields, the raw buffer, the decoded trailing fields. */
  datatype Packet = Packet(header: PacketHeader, fields: seq<nat>, buffer: seq<byte>, trailer: seq<nat>)

  /** p is a value of a struct of format f: every field fits its width and the buffer has its declared size. */
  predicate Valid(f: Format, p: Packet) {
    ValidHeader(p.header) && Fits(f.fields, p.fields) && |p.buffer| == BufferSize(f) && Fits(f.trailer, p.trailer)
  }

  /** The struct read by reinterpreting a datagram of exactly its size. */
  function Read(f: Format, s: seq<byte>): (p: Packet)
    requires |s| == TotalSize(f)
    ensures Valid(f, p)
  {
    var b, t := BufferStart(f), TrailerStart(f);
    DecodeFits(f.fields, s[HeaderSize..b]);
    DecodeFits(f.trailer, s[t..]);
    Packet(DecodeHeader(s[..HeaderSize]), Decode(f.fields, s[HeaderSize..b]), s[b..t], Decode(f.trailer, s[t..]))
  }

  /** The in-memory image of a struct value: the bytes a datagram carrying it holds. */
  function Write(f: Format, p: Packet): (s: seq<byte>)
    requires Valid(f, p)
    ensures |s| == TotalSize(f)
  {
    EncodeHeader(p.header) + Encode(f.fields, p.fields) + p.buffer + Encode(f.trailer, p.trailer)
  }

  /** The records the struct's span exposes, one per element of the fixed buffer. */
  function Records(f: Format, p: Packet): (rs: seq<seq<nat>>)
    requires Valid(f, p)
    ensures |rs| == f.count
  {
    DecodeArray(f.record, f.count, p.buffer)
  }

  /** The four parts of the struct read from a datagram. */
  lemma ReadParts(f: Format, s: seq<byte>)
    requires |s| == TotalSize(f)
    ensures Read(f, s).header == DecodeHeader(s[..HeaderSize])
    ensures Read(f, s).fields == Decode(f.fields, s[HeaderSize..BufferStart(f)])
    ensures Read(f, s).buffer == s[BufferStart(f)..TrailerStart(f)]
    ensures Read(f, s).trailer == Decode(f.trailer, s[TrailerStart(f)..])
  {
  }

  /** Reading back the image of a struct value yields that value. */
  lemma ReadWrite(f: Format, p: Packet)
    requires Valid(f, p)
    ensures Read(f, Write(f, p)) == p
  {
    var h, a, c := EncodeHeader(p.header), Encode(f.fields, p.fields), Encode(f.trailer, p.trailer);
    var s := Write(f, p);
    Split4(h, a, p.buffer, c);
    DecodeEncodeHeader(p.header);
    DecodeEncode(f.fields, p.fields);
    DecodeEncode(f.trailer, p.trailer);
  }

  /** A datagram of the struct's size is the image of the struct read from it. */
  lemma WriteRead(f: Format, s: seq<byte>)
    requires |s| == TotalSize(f)
    ensures Write(f, Read(f, s)) == s
  {
    var b, t := BufferStart(f), TrailerStart(f);
    var h, a, r, c := s[..HeaderSize], s[HeaderSize..b], s[b..t], s[t..];
    EncodeDecodeHeader(h);
    EncodeDecode(f.fields, a);
    EncodeDecode(f.trailer, c);
    Join4(s, HeaderSize, b, t);
    assert Write(f, Read(f, s)) == EncodeHeader(DecodeHeader(h)) + Encode(f.fields, Decode(f.fields, a)) + r + Encode(f.trailer, Decode(f.trailer, c));
  }

  /** The four parts of a concatenation are its slices at the parts' boundaries. */
  lemma Split4(a: seq<byte>, b: seq<byte>, c: seq<byte>, d: seq<byte>)
    ensures (a + b + c + d)[..|a|] == a
    ensures (a + b + c + d)[|a|..|a| + |b|] == b
    ensures (a + b + c + d)[|a| + |b|..|a| + |b| + |c|] == c
    ensures (a + b + c + d)[|a| + |b| + |c|..] == d
  {
  }

  /** A sequence is the concatenation of its slices at any three ordered cut points. */
  lemma Join4(s: seq<byte>, i: nat, j: nat, k: nat)
    requires i <= j <= k <= |s|
    ensures s == s[..i] + s[i..j] + s[j..k] + s[k..]
  {
  }

  /** Leading field i is read from the bytes at HeaderSize + its offset among the leading fields. */
  lemma FieldBytes(f: Format, s: seq<byte>, i: nat)
    requires |s| == TotalSize(f) && i < |f.fields|
    ensures HeaderSize + Offset(f.fields, i) + Width(f.fields[i]) <= BufferStart(f)
    ensures Read(f, s).fields[i]
         == DecodeUint(s[HeaderSize + Offset(f.fields, i)..HeaderSize + Offset(f.fields, i) + Width(f.fields[i])])
  {
    ReadParts(f, s);
    FieldInDatagram(f, Read(f, s).fields, s, i);
  }

  /** The same for any field values decoded from the datagram's leading-field bytes. */
  lemma FieldInDatagram(f: Format, v: seq<nat>, s: seq<byte>, i: nat)
    requires |s| == TotalSize(f) && i < |f.fields|
    requires v == Decode(f.fields, s[HeaderSize..BufferStart(f)])
    ensures HeaderSize + Offset(f.fields, i) + Width(f.fields[i]) <= BufferStart(f)
    ensures v[i] == DecodeUint(s[HeaderSize + Offset(f.fields, i)..HeaderSize + Offset(f.fields, i) + Width(f.fields[i])])
  {
    DecodeField(f.fields, s[HeaderSize..BufferStart(f)], i);
    SliceOfSlice(s, HeaderSize, BufferStart(f), Offset(f.fields, i), Width(f.fields[i]));
  }

  /** Trailing field i is read from the bytes at TrailerStart + its offset among the trailing fields. */
  lemma TrailerBytes(f: Format, s: seq<byte>, i: nat)
    requires |s| == TotalSize(f) && i < |f.trailer|
    ensures TrailerStart(f) + Offset(f.trailer, i) + Width(f.trailer[i]) <= |s|
    ensures Read(f, s).trailer[i]
         == DecodeUint(s[TrailerStart(f) + Offset(f.trailer, i)..TrailerStart(f) + Offset(f.trailer, i) + Width(f.trailer[i])])
  {
    ReadParts(f, s);
    TrailerInDatagram(f, Read(f, s).trailer, s, i);
  }

  /** The same for any field values decoded from the datagram's trailing bytes. */
  lemma TrailerInDatagram(f: Format, v: seq<nat>, s: seq<byte>, i: nat)
    requires |s| == TotalSize(f) && i < |f.trailer|
    requires v == Decode(f.trailer, s[TrailerStart(f)..])
    ensures TrailerStart(f) + Offset(f.trailer, i) + Width(f.trailer[i]) <= |s|
    ensures v[i] == DecodeUint(s[TrailerStart(f) + Offset(f.trailer, i)..TrailerStart(f) + Offset(f.trailer, i) + Width(f.trailer[i])])
  {
    DecodeField(f.trailer, s[TrailerStart(f)..], i);
    SliceOfSuffix(s, TrailerStart(f), Offset(f.trailer, i), Width(f.trailer[i]));
  }

  /** Where record i of the fixed buffer starts in the datagram. */
  function RecordStart(f: Format, i: nat): nat {
    BufferStart(f) + Times(i, Size(f.record))
  }

  /** Record i of the span is read from the Size(record) bytes at RecordStart(f, i) = BufferStart + i * Size(record). */
  lemma RecordAt(f: Format, s: seq<byte>, i: nat)
    requires |s| == TotalSize(f) && i < f.count
    ensures RecordStart(f, i) + Size(f.record) <= TrailerStart(f)
    ensures Records(f, Read(f, s))[i] == Decode(f.record, s[RecordStart(f, i)..RecordStart(f, i) + Size(f.record)])
  {
    ReadParts(f, s);
    RecordInDatagram(f, Read(f, s), s, i);
  }

  /** The same for any struct value whose buffer is the datagram's buffer bytes. */
  lemma RecordInDatagram(f: Format, p: Packet, s: seq<byte>, i: nat)
    requires Valid(f, p) && |s| == TotalSize(f) && i < f.count
    requires p.buffer == s[BufferStart(f)..TrailerStart(f)]
    ensures RecordStart(f, i) + Size(f.record) <= TrailerStart(f)
    ensures Records(f, p)[i] == Decode(f.record, s[RecordStart(f, i)..RecordStart(f, i) + Size(f.record)])
  {
    var z := Size(f.record);
    RecordOf(f, p, i);
    SliceOfSlice(s, BufferStart(f), TrailerStart(f), Times(i, z), z);
  }

  /** Record i of a struct value is read from the Size(record) bytes at i * Size(record) in its buffer. */
  lemma RecordOf(f: Format, p: Packet, i: nat)
    requires Valid(f, p) && i < f.count
    ensures Times(i, Size(f.record)) + Size(f.record) <= |p.buffer|
    ensures Records(f, p)[i] == Decode(f.record, p.buffer[Times(i, Size(f.record))..Times(i, Size(f.record)) + Size(f.record)])
  {
    ArrayRecord(f.record, f.count, p.buffer, i);
  }

  /** The positions of a format whose parts have the given sizes. */
  lemma FormatSize(f: Format, fields: nat, record: nat, trailer: nat)
    requires Size(f.fields) == fields && Size(f.record) == record && Size(f.trailer) == trailer
    ensures BufferStart(f) == HeaderSize + fields
    ensures BufferSize(f) == f.count * record
    ensures TrailerStart(f) == HeaderSize + fields + f.count * record
    ensures TotalSize(f) == HeaderSize + fields + f.count * record + trailer
  {
    TimesIsProduct(f.count, record);
  }

  /** RecordAt with the record's position and size given as plain numbers. */
  lemma RecordAtOffset(f: Format, s: seq<byte>, i: nat, at: nat, size: nat)
    requires |s| == TotalSize(f) && i < f.count
    requires at == RecordStart(f, i) && size == Size(f.record)
    ensures at + size <= |s|
    ensures Records(f, Read(f, s))[i] == Decode(f.record, s[at..at + size])
  {
    RecordAt(f, s, i);
  }

  /** FieldBytes with the field's position and width given as plain numbers. */
  lemma FieldAtOffset(f: Format, s: seq<byte>, i: nat, at: nat, w: nat)
    requires |s| == TotalSize(f) && i < |f.fields|
    requires at == HeaderSize + Offset(f.fields, i) && w == Width(f.fields[i])
    ensures at + w <= |s|
    ensures Read(f, s).fields[i] == DecodeUint(s[at..at + w])
  {
    FieldBytes(f, s, i);
  }

  /** TrailerBytes with the field's position and width given as plain numbers. */
  lemma TrailerAtOffset(f: Format, s: seq<byte>, i: nat, at: nat, w: nat)
    requires |s| == TotalSize(f) && i < |f.trailer|
    requires at == TrailerStart(f) + Offset(f.trailer, i) && w == Width(f.trailer[i])
    ensures at + w <= |s|
    ensures Read(f, s).trailer[i] == DecodeUint(s[at..at + w])
  {
    TrailerBytes(f, s, i);
  }

  /** Field j of record i is read from the bytes at RecordStart(f, i) + the field's offset in the record. */
  lemma RecordFieldAt(f: Format, s: seq<byte>, i: nat, j: nat, at: nat, w: nat)
    requires |s| == TotalSize(f) && i < f.count && j < |f.record|
    requires at == RecordStart(f, i) + Offset(f.record, j) && w == Width(f.record[j])
    ensures at + w <= |s|
    ensures |Records(f, Read(f, s))[i]| == |f.record|
    ensures Records(f, Read(f, s))[i][j] == DecodeUint(s[at..at + w])
  {
    ReadParts(f, s);
    RecordFieldInDatagram(f, Read(f, s), s, i, j, at, w);
  }

  /** The same for any struct value whose buffer is the datagram's buffer bytes. */
  lemma RecordFieldInDatagram(f: Format, p: Packet, s: seq<byte>, i: nat, j: nat, at: nat, w: nat)
    requires Valid(f, p) && |s| == TotalSize(f) && i < f.count && j < |f.record|
    requires p.buffer == s[BufferStart(f)..TrailerStart(f)]
    requires at == RecordStart(f, i) + Offset(f.record, j) && w == Width(f.record[j])
    ensures at + w <= |s|
    ensures |Records(f, p)[i]| == |f.record|
    ensures Records(f, p)[i][j] == DecodeUint(s[at..at + w])
  {
    RecordInDatagram(f, p, s, i);
    FieldInSlice(f.record, s, RecordStart(f, i), j, at, w);
  }
}
