/**
 * The wire format of the telemetry packets: sequential, 1-byte-packed structs of
 * little-endian primitives. A layout lists a struct's field kinds in declaration
 * order; a decoded struct is the sequence of its fields' raw unsigned values
 * (a float is its 32-bit pattern, a signed field its two's-complement pattern).
 */
module Wire {

  /** One octet of a datagram or of a persisted file. */
  newtype byte = x: int | 0 <= x < 256

  /** The primitive field types that occur in the packet structs. */
  datatype Kind = U8 | I8 | U16 | I16 | U32 | F32 | U64

  function Width(k: Kind): nat {
    match k
    case U8 => 1
    case I8 => 1
    case U16 => 2
    case I16 => 2
    case U32 => 4
    case F32 => 4
    case U64 => 8
  }

  /** 256 to the power w: the number of distinct w-byte patterns. */
  function Pow256(w: nat): (p: nat)
    ensures p >= 1
  {
    if w == 0 then 1 else 256 * Pow256(w - 1)
  }

  /** A struct layout: its fields in declaration order, with no padding between them. */
  type Layout = seq<Kind>

  /** n consecutive fields of kind k, as a fixed-size buffer `fixed T name[n]` is laid out. */
  function Run(k: Kind, n: nat): (l: Layout)
    ensures |l| == n
    ensures forall i :: 0 <= i < n ==> l[i] == k
  {
    seq(n, _ => k)
  }

  /** i * k computed by repeated addition, so that stride arithmetic stays linear for the solver. */
  function Times(i: nat, k: nat): nat {
    if i == 0 then 0 else k + Times(i - 1, k)
  }

  /** The number of bytes a struct with layout l occupies: the sum of its field widths. */
  function Size(l: Layout): nat {
    if l == [] then 0 else Width(l[0]) + Size(l[1..])
  }

  /** The byte offset of field i: the size of the fields declared before it. */
  function Offset(l: Layout, i: nat): nat
    requires i <= |l|
  {
    Size(l[..i])
  }

  /** v is a value of a struct with layout l: one raw value per field, each within its width. */
  predicate Fits(l: Layout, v: seq<nat>) {
    |v| == |l| && forall i :: 0 <= i < |l| ==> v[i] < Pow256(Width(l[i]))
  }

  /** The w little-endian bytes of v. */
  function EncodeUint(v: nat, w: nat): (s: seq<byte>)
    requires v < Pow256(w)
    ensures |s| == w
  {
    if w == 0 then [] else [(v % 256) as byte] + EncodeUint(v / 256, w - 1)
  }

  /** The unsigned value of a little-endian byte sequence. */
  function DecodeUint(s: seq<byte>): (v: nat)
  {
    if s == [] then 0 else s[0] as nat + 256 * DecodeUint(s[1..])
  }

  /** The bytes of a struct value, fields in declaration order (a struct's in-memory image). */
  function Encode(l: Layout, v: seq<nat>): (s: seq<byte>)
    requires Fits(l, v)
    ensures |s| == Size(l)
  {
    if l == [] then [] else EncodeUint(v[0], Width(l[0])) + Encode(l[1..], v[1..])
  }

  /** The struct value whose image is s (a reinterpreting read of exactly Size(l) bytes). */
  function Decode(l: Layout, s: seq<byte>): (v: seq<nat>)
    requires |s| == Size(l)
    ensures |v| == |l|
  {
    if l == [] then []
    else [DecodeUint(s[..Width(l[0])])] + Decode(l[1..], s[Width(l[0])..])
  }

  /** Every field read from a buffer is within its width: decoding yields a value of the layout. */
  lemma {:induction false} DecodeFits(l: Layout, s: seq<byte>)
    requires |s| == Size(l)
    ensures Fits(l, Decode(l, s))
  {
    if l != [] {
      var w := Width(l[0]);
      DecodeFits(l[1..], s[w..]);
      var v := Decode(l, s);
      DecodeUintBound(s[..w]);
      forall i | 1 <= i < |l| ensures v[i] < Pow256(Width(l[i])) {
        assert v[i] == Decode(l[1..], s[w..])[i - 1];
        assert l[i] == l[1..][i - 1];
      }
    }
  }

  /** The value of a one-byte signed field (two's complement). */
  function AsSigned8(v: nat): (r: int)
    requires v < 256
    ensures -128 <= r < 128
    ensures r == v || r == v - 256
  {
    if v < 128 then v else v - 256
  }

  /** The value of a two-byte signed field (two's complement). */
  function AsSigned16(v: nat): (r: int)
    requires v < 65536
    ensures -32768 <= r < 32768
    ensures r == v || r == v - 65536
  {
    if v < 32768 then v else v - 65536
  }

  lemma {:induction false} DecodeEncodeUint(v: nat, w: nat)
    requires v < Pow256(w)
    ensures DecodeUint(EncodeUint(v, w)) == v
  {
    if w > 0 {
      var s := EncodeUint(v, w);
      assert s[1..] == EncodeUint(v / 256, w - 1);
      DecodeEncodeUint(v / 256, w - 1);
    }
  }

  lemma {:induction false} EncodeDecodeUint(s: seq<byte>)
    ensures DecodeUint(s) < Pow256(|s|)
    ensures EncodeUint(DecodeUint(s), |s|) == s
  {
    DecodeUintBound(s);
    if s != [] {
      var v := DecodeUint(s);
      assert v % 256 == s[0] as nat;
      assert v / 256 == DecodeUint(s[1..]);
      EncodeDecodeUint(s[1..]);
    }
  }

  /** Reading back the image of a struct value yields that value. */
  lemma {:induction false} DecodeEncode(l: Layout, v: seq<nat>)
    requires Fits(l, v)
    ensures Decode(l, Encode(l, v)) == v
  {
    if l != [] {
      var s := Encode(l, v);
      var w := Width(l[0]);
      assert s[..w] == EncodeUint(v[0], w);
      assert s[w..] == Encode(l[1..], v[1..]);
      DecodeEncodeUint(v[0], w);
      DecodeEncode(l[1..], v[1..]);
    }
  }

  /** Every byte sequence of the right size is the image of the struct value read from it. */
  lemma {:induction false} EncodeDecode(l: Layout, s: seq<byte>)
    requires |s| == Size(l)
    ensures Fits(l, Decode(l, s))
    ensures Encode(l, Decode(l, s)) == s
  {
    DecodeFits(l, s);
    if l != [] {
      var w := Width(l[0]);
      var v := Decode(l, s);
      assert v[0] == DecodeUint(s[..w]);
      assert v[1..] == Decode(l[1..], s[w..]);
      EncodeDecodeUint(s[..w]);
      DecodeFits(l, s);
      EncodeDecode(l[1..], s[w..]);
      assert s == s[..w] + s[w..];
    }
  }

  lemma {:induction false} SizeAppend(a: Layout, b: Layout)
    ensures Size(a + b) == Size(a) + Size(b)
  {
    if a != [] {
      assert (a + b)[1..] == a[1..] + b;
      SizeAppend(a[1..], b);
    } else {
      assert a + b == b;
    }
  }

  lemma {:induction false} SizeRun(k: Kind, n: nat)
    ensures Size(Run(k, n)) == n * Width(k)
  {
    if n > 0 {
      assert Run(k, n)[1..] == Run(k, n - 1);
      SizeRun(k, n - 1);
    }
  }

  lemma {:induction false} TimesIsProduct(i: nat, k: nat)
    ensures Times(i, k) == i * k
  {
    if i > 0 {
      TimesIsProduct(i - 1, k);
    }
  }

  /** The size facts needed to compute the size of a layout built from runs and repeats. */
  lemma Sizes()
    ensures forall a, b {:trigger Size(a + b)} :: Size(a + b) == Size(a) + Size(b)
    ensures forall k, n: nat {:trigger Size(Run(k, n))} :: Size(Run(k, n)) == n * Width(k)
  {
    forall a, b ensures Size(a + b) == Size(a) + Size(b) {
      SizeAppend(a, b);
    }
    forall k, n: nat ensures Size(Run(k, n)) == n * Width(k) {
      SizeRun(k, n);
    }
  }

  /**
   * Field i of a struct read from s is the little-endian value of the Width(l[i])
   * bytes of s that start at the field's offset.
   */
  lemma {:induction false} DecodeField(l: Layout, s: seq<byte>, i: nat)
    requires |s| == Size(l)
    requires i < |l|
    ensures Offset(l, i) + Width(l[i]) <= |s|
    ensures Decode(l, s)[i] == DecodeUint(s[Offset(l, i)..Offset(l, i) + Width(l[i])])
  {
    var w := Width(l[0]);
    if i == 0 {
      DecodeFirst(l, s);
    } else {
      var l', rest := l[1..], s[w..];
      var o, wi := Offset(l', i - 1), Width(l[i]);
      DecodeStep(l, s, i);
      OffsetStep(l, i);
      DecodeField(l', rest, i - 1);
      SliceOfSuffix(s, w, o, wi);
      calc {
        Decode(l, s)[i];
        Decode(l', rest)[i - 1];
        DecodeUint(rest[o..o + wi]);
        DecodeUint(s[w + o..w + o + wi]);
      }
    }
  }

  /** Field j of a struct b placed after a struct a is field |a| + j of the whole, Size(a) bytes further. */
  lemma OffsetAppend(a: Layout, b: Layout, j: nat)
    requires j <= |b|
    ensures Offset(a + b, |a| + j) == Size(a) + Offset(b, j)
    ensures j < |b| ==> (a + b)[|a| + j] == b[j]
  {
    assert (a + b)[..|a| + j] == a + b[..j];
    SizeAppend(a, b[..j]);
  }

  /** The fields before position j < |a| of a struct a followed by b are those of a alone. */
  lemma OffsetPrefix(a: Layout, b: Layout, j: nat)
    requires j <= |a|
    ensures Offset(a + b, j) == Offset(a, j)
    ensures j < |a| ==> (a + b)[j] == a[j]
  {
    assert (a + b)[..j] == a[..j];
  }

  /** Field j of a run of fields of kind k starts j * Width(k) bytes in. */
  lemma OffsetRun(k: Kind, n: nat, j: nat)
    requires j <= n
    ensures Offset(Run(k, n), j) == j * Width(k)
  {
    assert Run(k, n)[..j] == Run(k, j);
    SizeRun(k, j);
  }

  /** Each field starts where the previous one ends. */
  lemma OffsetNext(l: Layout, i: nat)
    requires i < |l|
    ensures Offset(l, i + 1) == Offset(l, i) + Width(l[i])
  {
    assert l[..i + 1] == l[..i] + [l[i]];
    SizeAppend(l[..i], [l[i]]);
  }

  /** DecodeField with the field's offset o and width w given as plain numbers. */
  lemma FieldAt(l: Layout, s: seq<byte>, i: nat, o: nat, w: nat)
    requires |s| == Size(l) && i < |l|
    requires o == Offset(l, i) && w == Width(l[i])
    ensures o + w <= |s|
    ensures Decode(l, s)[i] == DecodeUint(s[o..o + w])
  {
    DecodeField(l, s, i);
  }

  /** The first field of a struct is read from its first bytes. */
  lemma DecodeFirst(l: Layout, s: seq<byte>)
    requires |s| == Size(l) && 0 < |l|
    ensures Offset(l, 0) == 0 && Width(l[0]) <= |s|
    ensures Decode(l, s)[0] == DecodeUint(s[0..Width(l[0])])
  {
    assert l[..0] == [];
    assert s[0..Width(l[0])] == s[..Width(l[0])];
  }

  /** Field i > 0 of a struct is field i - 1 of the struct that follows its first field. */
  lemma DecodeStep(l: Layout, s: seq<byte>, i: nat)
    requires |s| == Size(l) && 0 < i < |l|
    ensures |s[Width(l[0])..]| == Size(l[1..]) && l[1..][i - 1] == l[i]
    ensures Decode(l, s)[i] == Decode(l[1..], s[Width(l[0])..])[i - 1]
  {
  }

  /** Field i > 0 of a struct starts Width(l[0]) bytes after field i - 1 of the struct that follows its first field. */
  lemma OffsetStep(l: Layout, i: nat)
    requires 0 < i <= |l|
    ensures Offset(l, i) == Width(l[0]) + Offset(l[1..], i - 1)
  {
    assert l[..i][1..] == l[1..][..i - 1];
  }

  lemma SliceOfSlice<T>(s: seq<T>, a: nat, b: nat, o: nat, n: nat)
    requires a + o + n <= b <= |s|
    ensures s[a..b][o..o + n] == s[a + o..a + o + n]
  {
    var t := s[a..];
    assert s[a..b] == t[..b - a];
    assert t[..b - a][o..o + n] == t[o..o + n];
  }

  lemma SliceOfSuffix<T>(s: seq<T>, w: nat, o: nat, n: nat)
    requires w + o + n <= |s|
    ensures s[w..][o..o + n] == s[w + o..w + o + n]
  {
  }

  /** Every field ends within its struct. */
  lemma FieldWithin(l: Layout, j: nat)
    requires j < |l|
    ensures Offset(l, j) + Width(l[j]) <= Size(l)
  {
    assert l == l[..j] + l[j..];
    SizeAppend(l[..j], l[j..]);
    assert l[j..][0] == l[j];
  }

  /** The Size(l) bytes of record i in a buffer of n records of layout l stored back to back. */
  function RecordBytes(l: Layout, n: nat, raw: seq<byte>, i: nat): (r: seq<byte>)
    requires |raw| == Times(n, Size(l)) && i < n
    ensures |r| == Size(l)
  {
    TimesBelow(i, n, Size(l));
    raw[Times(i, Size(l))..Times(i, Size(l)) + Size(l)]
  }

  /**
   * The records of a Span<T> laid over a fixed byte buffer of n * Size(l) bytes:
   * record i is the reinterpretation of the bytes at i * Size(l).
   */
  function DecodeArray(l: Layout, n: nat, raw: seq<byte>): (rs: seq<seq<nat>>)
    requires |raw| == Times(n, Size(l))
    ensures |rs| == n
  {
    seq(n, i requires 0 <= i < n => Decode(l, RecordBytes(l, n, raw, i)))
  }

  /** Record i of an array is read from the Size(l) bytes that start i * Size(l) bytes into the buffer. */
  lemma ArrayRecord(l: Layout, n: nat, raw: seq<byte>, i: nat)
    requires |raw| == Times(n, Size(l)) && i < n
    ensures Times(i, Size(l)) + Size(l) <= |raw|
    ensures DecodeArray(l, n, raw)[i] == Decode(l, raw[Times(i, Size(l))..Times(i, Size(l)) + Size(l)])
  {
    TimesBelow(i, n, Size(l));
  }

  /** The concatenation of a sequence of byte strings. */
  function Flatten(ss: seq<seq<byte>>): seq<byte> {
    if ss == [] then [] else ss[0] + Flatten(ss[1..])
  }

  /** The byte strings of the n records, in buffer order. */
  function AllRecordBytes(l: Layout, n: nat, raw: seq<byte>): (rs: seq<seq<byte>>)
    requires |raw| == Times(n, Size(l))
    ensures |rs| == n
  {
    seq(n, i requires 0 <= i < n => RecordBytes(l, n, raw, i))
  }

  /** The records tile their buffer: laid end to end, with no gap and no overlap, they are the whole buffer. */
  lemma {:induction false} RecordsTile(l: Layout, n: nat, raw: seq<byte>)
    requires |raw| == Times(n, Size(l))
    ensures Flatten(AllRecordBytes(l, n, raw)) == raw
  {
    if n > 0 {
      var z := Size(l);
      var rs := AllRecordBytes(l, n, raw);
      var rest := raw[z..];
      var ts := AllRecordBytes(l, n - 1, rest);
      forall i | 0 <= i < n - 1 ensures rs[1..][i] == ts[i] {
        RecordBytesShift(l, n, raw, i);
      }
      assert rs[1..] == ts;
      RecordsTile(l, n - 1, rest);
      assert rs[0] == raw[..z];
      assert raw == raw[..z] + rest;
    }
  }

  /** Every record read from a buffer is a value of its layout. */
  lemma DecodeArrayFits(l: Layout, n: nat, raw: seq<byte>, i: nat)
    requires |raw| == Times(n, Size(l)) && i < n
    ensures Fits(l, DecodeArray(l, n, raw)[i])
  {
    DecodeFits(l, RecordBytes(l, n, raw, i));
  }

  /** Record i starts Size(l) bytes before record i + 1 and ends within the buffer. */
  lemma {:induction false} TimesBelow(i: nat, n: nat, k: nat)
    requires i < n
    ensures Times(i, k) + k <= Times(n, k)
    ensures Times(i + 1, k) == Times(i, k) + k
  {
    if i + 1 < n {
      TimesBelow(i, n - 1, k);
    }
  }

  /** Record i + 1 of a buffer is record i of the buffer that follows the first record. */
  lemma RecordBytesShift(l: Layout, n: nat, raw: seq<byte>, i: nat)
    requires |raw| == Times(n, Size(l)) && i + 1 < n
    ensures |raw[Size(l)..]| == Times(n - 1, Size(l))
    ensures RecordBytes(l, n, raw, i + 1) == RecordBytes(l, n - 1, raw[Size(l)..], i)
  {
    TimesBelow(i, n - 1, Size(l));
    SliceOfSuffix(raw, Size(l), Times(i, Size(l)), Size(l));
  }

  /** A little-endian value of w bytes is below 256 to the power w. */
  lemma {:induction false} DecodeUintBound(s: seq<byte>)
    ensures DecodeUint(s) < Pow256(|s|)
  {
    if s != [] {
      DecodeUintBound(s[1..]);
    }
  }

  /** Field j of the struct read from the Size(l) bytes of s at start is read from s at start + the field's offset. */
  lemma FieldInSlice(l: Layout, s: seq<byte>, start: nat, j: nat, at: nat, w: nat)
    requires start + Size(l) <= |s| && j < |l|
    requires at == start + Offset(l, j) && w == Width(l[j])
    ensures at + w <= |s|
    ensures Decode(l, s[start..start + Size(l)])[j] == DecodeUint(s[at..at + w])
  {
    var r := s[start..start + Size(l)];
    FieldAt(l, r, j, Offset(l, j), w);
    SliceOfSlice(s, start, start + Size(l), Offset(l, j), w);
  }
}
