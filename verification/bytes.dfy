/**
 * Fixed-width integers and their little-endian byte encodings, as used by
 * encoding/binary.LittleEndian in the Go code.
 */
module Bytes {

  type byte = b: int | 0 <= b < 0x100
  type uint16 = x: int | 0 <= x < 0x1_0000
  type uint32 = x: int | 0 <= x < 0x1_0000_0000
  type uint64 = x: int | 0 <= x < 0x1_0000_0000_0000_0000
  type int8 = x: int | -0x80 <= x < 0x80
  type int64 = x: int | -0x8000_0000_0000_0000 <= x < 0x8000_0000_0000_0000

  /** 256 to the power n: the number of values an n-byte field can hold. */
  function Pow256(n: nat): (p: nat)
    ensures p >= 1
  {
    if n == 0 then 1 else 256 * Pow256(n - 1)
  }

  lemma Pow256Widths()
    ensures Pow256(1) == 0x100
    ensures Pow256(2) == 0x1_0000
    ensures Pow256(4) == 0x1_0000_0000
    ensures Pow256(8) == 0x1_0000_0000_0000_0000
  {
    assert Pow256(1) == 0x100;
    assert Pow256(2) == 0x1_0000;
    assert Pow256(3) == 0x100_0000;
    assert Pow256(4) == 0x1_0000_0000;
    assert Pow256(5) == 0x100_0000_0000;
    assert Pow256(6) == 0x1_0000_0000_0000;
    assert Pow256(7) == 0x100_0000_0000_0000;
  }

  /** The unsigned value of a byte string read least significant byte first. */
  function LittleEndian(s: seq<byte>): (v: nat)
    ensures v < Pow256(|s|)
  {
    if |s| == 0 then 0
    else
      var rest := LittleEndian(s[1..]);
      assert rest <= Pow256(|s| - 1) - 1;
      assert 256 * rest <= 256 * Pow256(|s| - 1) - 256;
      s[0] + 256 * rest
  }

  /** The n-byte little-endian encoding of v, which must fit in n bytes. */
  function ToLittleEndian(v: nat, n: nat): (s: seq<byte>)
    requires v < Pow256(n)
    ensures |s| == n
    ensures LittleEndian(s) == v
  {
    if n == 0 then []
    else
      assert v / 256 < Pow256(n - 1);
      var s := [(v % 256) as byte] + ToLittleEndian(v / 256, n - 1);
      assert s[1..] == ToLittleEndian(v / 256, n - 1);
      s
  }

  /** Decoding is injective: a byte string is the encoding of its own value. */
  lemma {:induction false} LittleEndianInverse(s: seq<byte>)
    ensures ToLittleEndian(LittleEndian(s), |s|) == s
  {
    if |s| > 0 {
      var v := LittleEndian(s);
      var rest := LittleEndian(s[1..]);
      assert v % 256 == s[0] && v / 256 == rest;
      LittleEndianInverse(s[1..]);
    }
  }

  /** Reads the little-endian unsigned field of width n at offset off. */
  function UintAt(data: seq<byte>, off: nat, n: nat): (v: nat)
    requires off + n <= |data|
    ensures v < Pow256(n)
  {
    LittleEndian(data[off..off + n])
  }

  /** A field read back is the number whose n-byte encoding its bytes are. */
  lemma UintAtEncodes(data: seq<byte>, off: nat, n: nat)
    requires off + n <= |data|
    ensures ToLittleEndian(UintAt(data, off, n), n) == data[off..off + n]
  {
    LittleEndianInverse(data[off..off + n]);
  }

  function U16At(data: seq<byte>, off: nat): (v: uint16)
    requires off + 2 <= |data|
    ensures v == data[off] as int + 0x100 * data[off + 1] as int
  {
    Pow256Widths();
    var s := data[off..off + 2];
    assert LittleEndian(s) == s[0] + 256 * LittleEndian(s[1..]);
    assert LittleEndian(s[1..]) == s[1] + 256 * LittleEndian(s[1..][1..]);
    assert LittleEndian(s[1..][1..]) == 0;
    UintAt(data, off, 2)
  }

  function U32At(data: seq<byte>, off: nat): uint32
    requires off + 4 <= |data|
  {
    Pow256Widths();
    UintAt(data, off, 4)
  }

  function U64At(data: seq<byte>, off: nat): uint64
    requires off + 8 <= |data|
  {
    Pow256Widths();
    UintAt(data, off, 8)
  }

  lemma U32AtEncodes(data: seq<byte>, off: nat)
    requires off + 4 <= |data|
    ensures ToLittleEndian(U32At(data, off), 4) == data[off..off + 4]
  {
    Pow256Widths();
    UintAtEncodes(data, off, 4);
  }

  lemma U64AtEncodes(data: seq<byte>, off: nat)
    requires off + 8 <= |data|
    ensures ToLittleEndian(U64At(data, off), 8) == data[off..off + 8]
  {
    Pow256Widths();
    UintAtEncodes(data, off, 8);
  }

  /** Two's-complement reinterpretation of a 64-bit pattern, as Go's int64(u). */
  function Int64FromBits(u: uint64): (x: int64)
    ensures x >= 0 <==> u < 0x8000_0000_0000_0000
    ensures x % 0x1_0000_0000_0000_0000 == u
  {
    if u < 0x8000_0000_0000_0000 then u else u - 0x1_0000_0000_0000_0000
  }

  /** The 64-bit pattern of a signed value, as Go's uint64(x). */
  function Int64ToBits(x: int64): (u: uint64)
    ensures Int64FromBits(u) == x
  {
    if x >= 0 then x else x + 0x1_0000_0000_0000_0000
  }

  function I64At(data: seq<byte>, off: nat): int64
    requires off + 8 <= |data|
  {
    Int64FromBits(U64At(data, off))
  }

  /** A signed field read back is the value whose two's-complement encoding its bytes are. */
  lemma I64AtEncodes(data: seq<byte>, off: nat)
    requires off + 8 <= |data|
    ensures ToLittleEndian(Int64ToBits(I64At(data, off)), 8) == data[off..off + 8]
  {
    var u := U64At(data, off);
    U64AtEncodes(data, off);
    assert Int64ToBits(Int64FromBits(u)) == u;
  }

  /** Go's int8(b): the byte read as a two's-complement signed value. */
  function Int8FromByte(b: byte): (x: int8)
    ensures x % 0x100 == b
    ensures x < 0 <==> b >= 0x80
  {
    if b < 0x80 then b else b - 0x100
  }

  function EncodeU16(v: uint16): (s: seq<byte>)
    ensures |s| == 2
  {
    Pow256Widths();
    ToLittleEndian(v, 2)
  }

  function EncodeU32(v: uint32): (s: seq<byte>)
    ensures |s| == 4
  {
    Pow256Widths();
    ToLittleEndian(v, 4)
  }

  function EncodeU64(v: uint64): (s: seq<byte>)
    ensures |s| == 8
  {
    Pow256Widths();
    ToLittleEndian(v, 8)
  }

  function EncodeI64(x: int64): (s: seq<byte>)
    ensures |s| == 8
  {
    EncodeU64(Int64ToBits(x))
  }

  /** Each encoder is undone by the matching reader at offset 0. */
  lemma EncodeU16Decodes(v: uint16)
    ensures U16At(EncodeU16(v), 0) == v
  {
    Pow256Widths();
    var s := EncodeU16(v);
    assert s[0..2] == s;
  }

  lemma EncodeU32Decodes(v: uint32)
    ensures U32At(EncodeU32(v), 0) == v
  {
    Pow256Widths();
    var s := EncodeU32(v);
    assert s[0..4] == s;
  }

  lemma EncodeU64Decodes(v: uint64)
    ensures U64At(EncodeU64(v), 0) == v
  {
    Pow256Widths();
    var s := EncodeU64(v);
    assert s[0..8] == s;
  }

  lemma EncodeI64Decodes(x: int64)
    ensures I64At(EncodeI64(x), 0) == x
  {
    EncodeU64Decodes(Int64ToBits(x));
  }

  /** Go's uint64 addition, which wraps around at 2^64. */
  function AddU64(x: uint64, d: nat): (r: uint64)
    ensures x + d < 0x1_0000_0000_0000_0000 ==> r == x + d
  {
    (x + d) % 0x1_0000_0000_0000_0000
  }

  /** Go's int64 subtraction, which wraps around in two's complement. */
  function SubI64(x: int64, y: int64): (r: int64)
    ensures -0x8000_0000_0000_0000 <= x - y < 0x8000_0000_0000_0000 ==> r == x - y
    ensures (r - (x - y)) % 0x1_0000_0000_0000_0000 == 0
  {
    Int64FromBits((x - y) % 0x1_0000_0000_0000_0000)
  }

  /** The modulus of Go's uint64 arithmetic. */
  const U64Modulus: int := 0x1_0000_0000_0000_0000

  lemma AddU64Carries(base: nat, n: nat, d: nat)
    ensures AddU64((base + n) % U64Modulus, d) == (base + n + d) % U64Modulus
  {
    var q := (base + n) / U64Modulus;
    var r := (base + n) % U64Modulus;
    assert base + n == q * U64Modulus + r;
    assert (r + d) % U64Modulus == (q * U64Modulus + r + d) % U64Modulus by {
      ModuloShift(r + d, q);
    }
  }

  lemma ModuloShift(x: nat, q: int)
    requires q >= 0
    ensures (q * U64Modulus + x) % U64Modulus == x % U64Modulus
  {
    var m := U64Modulus;
    var a := x / m;
    var b := x % m;
    assert x == a * m + b;
    assert q * m + x == (q + a) * m + b;
  }
}
