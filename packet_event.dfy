/**
 * The event packet: the header followed by a four-byte event string code,
 * "SSTA" when a session starts and "SEND" when it ends.
 */
module EventPackets {
  import opened Wire
  import opened PacketHeaders
  import opened PacketFormats

  /** The code is a fixed buffer of four raw bytes. */
  const CodeLength: nat := 4

  const EventFormat: Format := Format([], [U8], CodeLength, [])

  lemma EventPacketSize()
    ensures Size([U8]) == 1
    ensures BufferStart(EventFormat) == HeaderSize
    ensures BufferSize(EventFormat) == CodeLength
    ensures TotalSize(EventFormat) == 25 == SizeOf(PacketType.Event)
  {
    assert [U8][1..] == [];
    FormatSize(EventFormat, 0, 1, 0);
  }

  /** The replacement character a UTF-8 decoder substitutes for a byte it cannot decode. */
  const Replacement: char := '\U{FFFD}'

  /** A character of the ASCII range, which UTF-8 encodes as the single byte of the same value. */
  predicate IsAscii(c: char) {
    c as int < 128
  }

  /** One byte decoded on its own: an ASCII byte is its character, any other byte starts no ASCII character. */
  function DecodeByte(b: byte): (c: char)
    ensures IsAscii(c) <==> b < 128
    ensures b < 128 ==> c as int == b as int
  {
    if b < 128 then b as char else Replacement
  }

  /** The UTF-8 decoding of a byte string, over the ASCII range; a byte outside it yields U+FFFD. */
  function DecodeUtf8(bs: seq<byte>): (s: string)
    ensures |s| == |bs|
  {
    seq(|bs|, i requires 0 <= i < |bs| => DecodeByte(bs[i]))
  }

  /** The UTF-8 encoding of an ASCII string: one byte per character. */
  function EncodeAscii(s: string): (bs: seq<byte>)
    requires forall i :: 0 <= i < |s| ==> IsAscii(s[i])
    ensures |bs| == |s|
  {
    seq(|s|, i requires 0 <= i < |s| && IsAscii(s[i]) => s[i] as int as byte)
  }

  /** Decoding the encoding of an ASCII string gives the string back. */
  lemma DecodeEncodeAscii(s: string)
    requires forall i :: 0 <= i < |s| ==> IsAscii(s[i])
    ensures DecodeUtf8(EncodeAscii(s)) == s
  {
    var d := DecodeUtf8(EncodeAscii(s));
    forall i | 0 <= i < |s| ensures d[i] == s[i] {
      assert EncodeAscii(s)[i] as int == s[i] as int;
    }
  }

  /** A byte string decodes to an ASCII string exactly when it is that string's encoding. */
  lemma DecodesTo(bs: seq<byte>, s: string)
    requires forall i :: 0 <= i < |s| ==> IsAscii(s[i])
    ensures DecodeUtf8(bs) == s <==> bs == EncodeAscii(s)
  {
    if bs == EncodeAscii(s) {
      DecodeEncodeAscii(s);
    }
    if DecodeUtf8(bs) == s {
      forall i | 0 <= i < |bs| ensures bs[i] == EncodeAscii(s)[i] {
        assert DecodeUtf8(bs)[i] == DecodeByte(bs[i]);
      }
    }
  }

  /** The event string code of an event packet. */
  function EventCode(p: Packet): (code: string)
    requires Valid(EventFormat, p)
    ensures |code| == CodeLength
  {
    EventPacketSize();
    DecodeUtf8(p.buffer)
  }

  const StartCode: string := "SSTA"
  const EndCode: string := "SEND"

  /** The code is read from bytes 21 .. 24 of the datagram. */
  lemma EventCodeBytes(s: seq<byte>)
    requires |s| == TotalSize(EventFormat)
    ensures |s| == 25
    ensures EventCode(Read(EventFormat, s)) == DecodeUtf8(s[21..25])
  {
    EventPacketSize();
    ReadParts(EventFormat, s);
  }

  /** The code is "SSTA" exactly when bytes 21 .. 24 are 0x53 0x53 0x54 0x41. */
  lemma IsStartCode(s: seq<byte>)
    requires |s| == TotalSize(EventFormat)
    ensures |s| == 25
    ensures EventCode(Read(EventFormat, s)) == StartCode <==> s[21..25] == [0x53, 0x53, 0x54, 0x41]
  {
    EventCodeBytes(s);
    DecodesTo(s[21..25], StartCode);
    assert EncodeAscii(StartCode) == [0x53, 0x53, 0x54, 0x41];
  }

  /** The code is "SEND" exactly when bytes 21 .. 24 are 0x53 0x45 0x4E 0x44. */
  lemma IsEndCode(s: seq<byte>)
    requires |s| == TotalSize(EventFormat)
    ensures |s| == 25
    ensures EventCode(Read(EventFormat, s)) == EndCode <==> s[21..25] == [0x53, 0x45, 0x4E, 0x44]
  {
    EventCodeBytes(s);
    DecodesTo(s[21..25], EndCode);
    assert EncodeAscii(EndCode) == [0x53, 0x45, 0x4E, 0x44];
  }

  /** Writing back the struct read from a 25-byte datagram reproduces the datagram. */
  lemma EventRoundTrip(s: seq<byte>)
    requires |s| == TotalSize(EventFormat)
    ensures Write(EventFormat, Read(EventFormat, s)) == s
  {
    WriteRead(EventFormat, s);
  }
}
