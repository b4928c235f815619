/**
 * The motion packet: the header, a fixed buffer of 20 CarMotionData records of
 * 60 bytes, then a block of values for the player's car only.
 */
module MotionPackets {
  import opened Wire
  import opened PacketHeaders
  import opened PacketFormats

  /**
   * CarMotionData: world position and velocity (six floats), forward and right
   * direction (six signed 16-bit values), then G-forces, yaw, pitch and roll (six floats).
   */
  const CarMotionLayout: Layout := Run(F32, 6) + Run(I16, 6) + Run(F32, 6)

  /** The declared CarMotionData.Size: 12 * sizeof(float) + 6 * sizeof(short). */
  const CarMotionSize: nat := 12 * 4 + 6 * 2

  /** The five per-wheel arrays of four floats each. */
  const WheelArrays: Layout := Run(F32, 20)

  /** Local velocity, angular velocity and angular acceleration (three floats each), front wheels angle. */
  const PlayerScalars: Layout := Run(F32, 10)

  const PlayerBlock: Layout := WheelArrays + PlayerScalars

  const MotionFormat: Format := Format([], CarMotionLayout, CarCount, PlayerBlock)

  lemma CarMotionStride()
    ensures Size(CarMotionLayout) == CarMotionSize == 60
  {
    SizeAppend(Run(F32, 6) + Run(I16, 6), Run(F32, 6));
    SizeAppend(Run(F32, 6), Run(I16, 6));
    SizeRun(F32, 6);
    SizeRun(I16, 6);
  }

  /** The player-only block is 5 * 4 four-byte values then 10 four-byte values: 80 + 40 bytes. */
  lemma PlayerBlockSize()
    ensures |WheelArrays| == 20 && Size(WheelArrays) == 80
    ensures Size(PlayerScalars) == 40
    ensures Size(PlayerBlock) == 120
  {
    SizeAppend(WheelArrays, PlayerScalars);
    SizeRun(F32, 20);
    SizeRun(F32, 10);
  }

  /** The records fill 1200 bytes after the header; with the player block the packet is the documented 1341 bytes. */
  lemma MotionPacketSize()
    ensures BufferStart(MotionFormat) == HeaderSize
    ensures BufferSize(MotionFormat) == 1200
    ensures TrailerStart(MotionFormat) == 1221
    ensures TotalSize(MotionFormat) == 21 + 1200 + 80 + 40 == 1341 == SizeOf(PacketType.Motion)
  {
    CarMotionStride();
    PlayerBlockSize();
    FormatSize(MotionFormat, 0, 60, 120);
  }

  /** Car i is read from the 60 bytes at 21 + 60 * i. */
  lemma CarMotionAt(s: seq<byte>, i: nat)
    requires |s| == TotalSize(MotionFormat) && i < CarCount
    ensures Size(CarMotionLayout) == 60 && 21 + 60 * i + 60 <= |s|
    ensures Records(MotionFormat, Read(MotionFormat, s))[i] == Decode(CarMotionLayout, s[21 + 60 * i..21 + 60 * i + 60])
  {
    MotionPacketSize();
    CarMotionStride();
    TimesIsProduct(i, 60);
    RecordAtOffset(MotionFormat, s, i, 21 + 60 * i, 60);
  }

  /** The order of every per-wheel array. */
  datatype Wheel = RearLeft | RearRight | FrontLeft | FrontRight

  function WheelIndex(w: Wheel): (k: nat)
    ensures k < 4
  {
    match w
    case RearLeft => 0
    case RearRight => 1
    case FrontLeft => 2
    case FrontRight => 3
  }

  /** The per-wheel arrays, in declaration order. */
  datatype WheelArray = SuspensionPosition | SuspensionVelocity | SuspensionAcceleration | WheelSpeed | WheelSlip

  function ArrayIndex(a: WheelArray): (k: nat)
    ensures k < 5
  {
    match a
    case SuspensionPosition => 0
    case SuspensionVelocity => 1
    case SuspensionAcceleration => 2
    case WheelSpeed => 3
    case WheelSlip => 4
  }

  /** Distinct wheels occupy distinct slots of an array. */
  lemma WheelIndexInjective(v: Wheel, w: Wheel)
    ensures WheelIndex(v) == WheelIndex(w) <==> v == w
  {
  }

  /** The value of array a for wheel w: the trailing field at 4 * a + w. */
  function WheelValue(p: Packet, a: WheelArray, w: Wheel): (v: nat)
    requires Valid(MotionFormat, p)
    ensures v < Pow256(4)
  {
    PlayerBlockSize();
    var j := 4 * ArrayIndex(a) + WheelIndex(w);
    OffsetPrefix(WheelArrays, PlayerScalars, j);
    p.trailer[j]
  }

  /** Array a for wheel w is the four bytes at 1221 + 16 * a + 4 * w. */
  lemma WheelValueBytes(s: seq<byte>, a: WheelArray, w: Wheel)
    requires |s| == TotalSize(MotionFormat)
    ensures |s| == 1341 && 1221 + 16 * ArrayIndex(a) + 4 * WheelIndex(w) + 4 <= |s|
    ensures WheelValue(Read(MotionFormat, s), a, w) == DecodeUint(s[1221 + 16 * ArrayIndex(a) + 4 * WheelIndex(w)..1221 + 16 * ArrayIndex(a) + 4 * WheelIndex(w) + 4])
  {
    MotionPacketSize();
    var j := 4 * ArrayIndex(a) + WheelIndex(w);
    WheelSlot(j);
    TrailerAtOffset(MotionFormat, s, j, 1221 + 4 * j, 4);
  }

  /** Two different array and wheel pairs are read from disjoint four-byte ranges. */
  lemma WheelValuesDisjoint(a: WheelArray, w: Wheel, b: WheelArray, v: Wheel)
    requires a != b || w != v
    ensures var i, j := 1221 + 16 * ArrayIndex(a) + 4 * WheelIndex(w), 1221 + 16 * ArrayIndex(b) + 4 * WheelIndex(v);
      i + 4 <= j || j + 4 <= i
  {
    WheelIndexInjective(w, v);
    if a != b {
      assert ArrayIndex(a) != ArrayIndex(b);
    }
  }

  /** Slot j of the wheel arrays is a float at 4 * j within the player block. */
  lemma WheelSlot(j: nat)
    requires j < 20
    ensures j < |MotionFormat.trailer| && MotionFormat.trailer[j] == F32
    ensures Offset(MotionFormat.trailer, j) == 4 * j
  {
    PlayerBlockSize();
    OffsetPrefix(WheelArrays, PlayerScalars, j);
    OffsetRun(F32, 20, j);
    assert MotionFormat.trailer == WheelArrays + PlayerScalars;
    assert Offset(WheelArrays, j) == j * 4;
  }

  /** Writing back the struct read from a 1341-byte datagram reproduces the datagram. */
  lemma MotionRoundTrip(s: seq<byte>)
    requires |s| == TotalSize(MotionFormat)
    ensures Write(MotionFormat, Read(MotionFormat, s)) == s
  {
    WriteRead(MotionFormat, s);
  }
}
