/**
 * Little-endian integer codec (int_encode.c, int_decode.c).
 *
 * Each encoder stores the bytes of a value into a caller's buffer at an offset and is
 * specified by a pure byte-sequence function; each decoder is a pure function of the
 * bytes it reads.  The round-trip lemmas connect the two directions.
 */
module IntCodec {
  import opened Bytes

  /** The two little-endian bytes of a 16-bit value. */
  function Uint16Bytes(v: U16): (b: seq<Byte>)
    ensures |b| == 2
  {
    [v % 0x100, v / 0x100]
  }

  /** The three low-order bytes of a 32-bit value, least significant first; bits 24 to 31 do not appear. */
  function Uint24Bytes(v: U32): (b: seq<Byte>)
    ensures |b| == 3
  {
    [v % 0x100, v / 0x100 % 0x100, v / 0x1_0000 % 0x100]
  }

  /** The four little-endian bytes of a 32-bit value. */
  function Uint32Bytes(v: U32): (b: seq<Byte>)
    ensures |b| == 4
  {
    [v % 0x100, v / 0x100 % 0x100, v / 0x1_0000 % 0x100, v / 0x100_0000]
  }

  /** The two's-complement bytes of a signed 16-bit value: those of the same value modulo 2^16. */
  function Int16Bytes(v: I16): (b: seq<Byte>)
    ensures |b| == 2
  {
    Uint16Bytes(v % 0x1_0000)
  }

  /** Reads one byte. */
  function DecodeUint8(b: seq<Byte>): (v: Byte)
    requires |b| >= 1
  {
    b[0]
  }

  /** Reads two little-endian bytes; only `b[0]` and `b[1]` matter. */
  function DecodeUint16(b: seq<Byte>): (v: U16)
    requires |b| >= 2
  {
    b[0] as int + b[1] as int * 0x100
  }

  /** Reads three little-endian bytes into a value that is always below 2^24. */
  function DecodeUint24(b: seq<Byte>): (v: U32)
    requires |b| >= 3
    ensures v < 0x100_0000
  {
    b[0] as int + b[1] as int * 0x100 + b[2] as int * 0x1_0000
  }

  /** Reads four little-endian bytes. */
  function DecodeUint32(b: seq<Byte>): (v: U32)
    requires |b| >= 4
  {
    b[0] as int + b[1] as int * 0x100 + b[2] as int * 0x1_0000 + b[3] as int * 0x100_0000
  }

  /** Reads two bytes as a two's-complement signed value. */
  function DecodeInt16(b: seq<Byte>): (v: I16)
    requires |b| >= 2
    ensures v < 0 <==> b[1] >= 0x80
  {
    var w := DecodeUint16(b);
    if w >= 0x8000 then w - 0x1_0000 else w
  }

  /** Stores one byte at `buf[at]`. */
  method EncodeUint8(buf: array<Byte>, at: nat, val: Byte)
    requires at + 1 <= buf.Length
    modifies buf
    ensures buf[..] == old(buf[..at]) + [val] + old(buf[at + 1..])
  {
    buf[at] := val;
  }

  /** Stores a 16-bit value, low byte first, at `buf[at..at+2]`. */
  method EncodeUint16(buf: array<Byte>, at: nat, val: U16)
    requires at + 2 <= buf.Length
    modifies buf
    ensures buf[..] == old(buf[..at]) + Uint16Bytes(val) + old(buf[at + 2..])
  {
    buf[at] := val % 0x100;
    buf[at + 1] := val / 0x100 % 0x100;
  }

  /** Stores the low 24 bits of a 32-bit value at `buf[at..at+3]`; bits 24 to 31 are dropped. */
  method EncodeUint24(buf: array<Byte>, at: nat, val: U32)
    requires at + 3 <= buf.Length
    modifies buf
    ensures buf[..] == old(buf[..at]) + Uint24Bytes(val) + old(buf[at + 3..])
  {
    buf[at] := val % 0x100;
    buf[at + 1] := val / 0x100 % 0x100;
    buf[at + 2] := val / 0x1_0000 % 0x100;
  }

  /** Stores a 32-bit value, low byte first, at `buf[at..at+4]`. */
  method EncodeUint32(buf: array<Byte>, at: nat, val: U32)
    requires at + 4 <= buf.Length
    modifies buf
    ensures buf[..] == old(buf[..at]) + Uint32Bytes(val) + old(buf[at + 4..])
  {
    buf[at] := val % 0x100;
    buf[at + 1] := val / 0x100 % 0x100;
    buf[at + 2] := val / 0x1_0000 % 0x100;
    buf[at + 3] := val / 0x100_0000 % 0x100;
  }

  /** Stores a signed 16-bit value as its unsigned 16-bit reinterpretation. */
  method EncodeInt16(buf: array<Byte>, at: nat, val: I16)
    requires at + 2 <= buf.Length
    modifies buf
    ensures buf[..] == old(buf[..at]) + Int16Bytes(val) + old(buf[at + 2..])
  {
    EncodeUint16(buf, at, val % 0x1_0000);
  }

  /** Two adjacent stores compose into one store of their concatenation. */
  lemma Splice(s0: seq<Byte>, s1: seq<Byte>, s2: seq<Byte>, at: nat, x: seq<Byte>, y: seq<Byte>)
    requires at + |x| + |y| <= |s0|
    requires s1 == s0[..at] + x + s0[at + |x|..]
    requires s2 == s1[..at + |x|] + y + s1[at + |x| + |y|..]
    ensures s2 == s0[..at] + (x + y) + s0[at + |x| + |y|..]
  {
    assert s1[..at + |x|] == s0[..at] + x;
    assert s1[at + |x| + |y|..] == s0[at + |x| + |y|..];
  }

  // Round trips ------------------------------------------------------------

  /** Euclidean division by 2^8, 2^16 or 2^24 is determined by the quotient and remainder it leaves. */
  lemma DivUnique(v: int, k: int, q: int, r: int)
    requires k == 0x100 || k == 0x1_0000 || k == 0x100_0000
    requires v == k * q + r && 0 <= r < k
    ensures v / k == q && v % k == r
  {
    if k == 0x100 {
      assert v == 0x100 * q + r;
    } else if k == 0x1_0000 {
      assert v == 0x1_0000 * q + r;
    } else {
      assert v == 0x100_0000 * q + r;
    }
  }

  /** The byte `EncodeUint8` stores decodes back to the value, and a decoded byte re-encodes to itself. */
  lemma Uint8RoundTrip(v: Byte, b: seq<Byte>)
    requires |b| >= 1
    ensures DecodeUint8([v]) == v && [DecodeUint8(b)] == b[..1]
  {
  }

  lemma Uint16RoundTrip(v: U16)
    ensures DecodeUint16(Uint16Bytes(v)) == v
  {
  }

  lemma Uint16BytesRoundTrip(b: seq<Byte>)
    requires |b| >= 2
    ensures Uint16Bytes(DecodeUint16(b)) == b[..2]
  {
  }

  /** The 24-bit encoder drops the high byte: decoding its bytes gives the value modulo 2^24. */
  lemma Uint24Truncates(v: U32)
    ensures DecodeUint24(Uint24Bytes(v)) == v % 0x100_0000
    ensures Uint24Bytes(v) == Uint24Bytes(v % 0x100_0000)
  {
    var a, x := v % 0x100, v / 0x100;
    var b, y := x % 0x100, x / 0x100;
    var c, z := y % 0x100, y / 0x100;
    DivUnique(v, 0x1_0000, y, a + 0x100 * b);
    DivUnique(v, 0x100_0000, z, a + 0x100 * b + 0x1_0000 * c);
    var w := v % 0x100_0000;
    DivUnique(w, 0x100, b + 0x100 * c, a);
    DivUnique(w, 0x1_0000, c, a + 0x100 * b);
    DivUnique(b + 0x100 * c, 0x100, c, b);
  }

  /** Below 2^24 nothing is dropped. */
  lemma Uint24RoundTrip(v: U32)
    requires v < 0x100_0000
    ensures DecodeUint24(Uint24Bytes(v)) == v
  {
    Uint24Truncates(v);
  }

  lemma Uint24BytesRoundTrip(b: seq<Byte>)
    requires |b| >= 3
    ensures Uint24Bytes(DecodeUint24(b)) == b[..3]
  {
    var v := DecodeUint24(b);
    DivUnique(v, 0x100, b[1] as int + b[2] as int * 0x100, b[0]);
    DivUnique(b[1] as int + b[2] as int * 0x100, 0x100, b[2], b[1]);
    DivUnique(v, 0x1_0000, b[2], b[0] as int + b[1] as int * 0x100);
    DivUnique(b[2], 0x100, 0, b[2]);
  }

  lemma Uint32RoundTrip(v: U32)
    ensures DecodeUint32(Uint32Bytes(v)) == v
  {
    var a, x := v % 0x100, v / 0x100;
    var b, y := x % 0x100, x / 0x100;
    var c, z := y % 0x100, y / 0x100;
    DivUnique(v, 0x1_0000, y, a + 0x100 * b);
    DivUnique(v, 0x100_0000, z, a + 0x100 * b + 0x1_0000 * c);
  }

  lemma Uint32BytesRoundTrip(b: seq<Byte>)
    requires |b| >= 4
    ensures Uint32Bytes(DecodeUint32(b)) == b[..4]
  {
    var v := DecodeUint32(b);
    var hi := b[1] as int + b[2] as int * 0x100 + b[3] as int * 0x1_0000;
    DivUnique(v, 0x100, hi, b[0]);
    DivUnique(hi, 0x100, b[2] as int + b[3] as int * 0x100, b[1]);
    DivUnique(v, 0x1_0000, b[2] as int + b[3] as int * 0x100, b[0] as int + b[1] as int * 0x100);
    DivUnique(b[2] as int + b[3] as int * 0x100, 0x100, b[3], b[2]);
    DivUnique(v, 0x100_0000, b[3], b[0] as int + b[1] as int * 0x100 + b[2] as int * 0x1_0000);
  }

  lemma Int16RoundTrip(v: I16)
    ensures DecodeInt16(Int16Bytes(v)) == v
  {
    Uint16RoundTrip(v % 0x1_0000);
  }

  lemma Int16BytesRoundTrip(b: seq<Byte>)
    requires |b| >= 2
    ensures Int16Bytes(DecodeInt16(b)) == b[..2]
  {
    Uint16BytesRoundTrip(b);
  }

  /** Known vectors: 1000000 as 24 bits, -1 and -32768 as signed 16 bits, 513 as 16 bits. */
  lemma KnownVectors()
    ensures Uint24Bytes(1000000) == [0x40, 0x42, 0x0F]
    ensures Int16Bytes(-1) == [0xFF, 0xFF]
    ensures Int16Bytes(-32768) == [0x00, 0x80]
    ensures DecodeInt16([0x17, 0xFB]) == -1257
    ensures Uint16Bytes(513) == [0x01, 0x02]
  {
  }
}
