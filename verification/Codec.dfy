/** Big-endian fields: the integers that payloads carry. */
module Codec {
  import opened Checksums

  /** The bytes of a 32-bit field. */
  const WORD: nat := 4

  function Power(n: nat): (p: nat)
    ensures p > 0
  {
    if n == 0 then 1 else 256 * Power(n - 1)
  }

  /** The last `n` base-256 digits of `value`, most significant first. */
  function BigEndian(n: nat, value: nat): (bytes: seq<Byte>)
    ensures |bytes| == n
  {
    if n == 0 then [] else BigEndian(n - 1, value / 256) + [value % 256]
  }

  function Value(bytes: seq<Byte>): nat {
    if bytes == [] then 0 else Value(bytes[..|bytes| - 1]) * 256 + bytes[|bytes| - 1] as int
  }

  lemma {:induction false} ValueOfField(n: nat, value: nat)
    requires value < Power(n)
    ensures Value(BigEndian(n, value)) == value
  {
    if n > 0 {
      ValueOfField(n - 1, value / 256);
      assert BigEndian(n, value)[..n - 1] == BigEndian(n - 1, value / 256);
    }
  }

  lemma {:induction false} FieldOfValue(bytes: seq<Byte>)
    ensures Value(bytes) < Power(|bytes|)
    ensures BigEndian(|bytes|, Value(bytes)) == bytes
  {
    if bytes != [] {
      FieldOfValue(bytes[..|bytes| - 1]);
    }
  }

  /** Where each byte of a field is: most significant first. */
  lemma FieldBytes(v: nat)
    ensures BigEndian(2, v) == [v / 0x100 % 0x100, v % 0x100]
    ensures BigEndian(4, v) == [v / 0x100_0000 % 0x100, v / 0x1_0000 % 0x100, v / 0x100 % 0x100, v % 0x100]
  {
    var u, w := v / 256, v / 256 / 256;
    OneByte(u);
    OneByte(w / 256);
    assert BigEndian(2, v) == BigEndian(1, u) + [v % 256] && BigEndian(2, w) == BigEndian(1, w / 256) + [w % 256];
    assert BigEndian(3, u) == BigEndian(2, w) + [u % 256] && BigEndian(4, v) == BigEndian(3, u) + [v % 256];
    assert w == v / 0x1_0000 && w / 256 == v / 0x100_0000;
  }

  lemma OneByte(v: nat)
    ensures BigEndian(1, v) == [v % 256]
  {
    assert BigEndian(0, v / 256) == [];
  }

  /** What the bytes of a field are worth. */
  lemma BytesOfValue(a: Byte, b: Byte, c: Byte, d: Byte)
    ensures Value([a, b]) == 0x100 * a + b
    ensures Value([a, b, c, d]) == 0x100_0000 * a + 0x1_0000 * b + 0x100 * c + d
  {
    assert [a, b, c, d][..3] == [a, b, c] && [a, b, c][..2] == [a, b] && [a, b][..1] == [a] && [a][..0] == [];
    assert Value([a]) == a;
    assert Value([a, b]) == 256 * Value([a]) + b;
  }

  lemma FourBytes()
    ensures Power(4) == 0x1_0000_0000 && Power(2) == 0x1_0000
  {
    assert Power(1) == 256 && Power(2) == 65536 && Power(3) == 16777216;
  }

  /** A logical shift right by `i` whole bytes. */
  function Shifted(v: nat, i: nat): nat {
    if i == 0 then v else Shifted(v, i - 1) / 256
  }

  /** Appends the low `n` bytes of an unsigned value, highest first. */
  method AppendIntegral(payload: seq<Byte>, n: nat, raw: nat) returns (out: seq<Byte>)
    ensures out == payload + BigEndian(n, raw)
  {
    out := payload;
    var i := n;
    while i > 0
      invariant 0 <= i <= n
      invariant out == payload + BigEndian(n - i, Shifted(raw, i))
    {
      i := i - 1;
      out := out + [Shifted(raw, i) % 256];
    }
  }

  // ---- Two's complement -------------------------------------------------------------------

  predicate IsInt32(v: int) {
    -0x8000_0000 <= v < 0x8000_0000
  }

  /** The unsigned value with the same 32 bits. */
  function Unsigned(v: int): (u: nat)
    requires IsInt32(v)
    ensures u < 0x1_0000_0000
  {
    if v < 0 then v + 0x1_0000_0000 else v
  }

  function Signed(u: nat): (v: int)
    requires u < 0x1_0000_0000
    ensures IsInt32(v) && Unsigned(v) == u
  {
    if u >= 0x8000_0000 then u - 0x1_0000_0000 else u
  }

  function Int32(v: int): (bytes: seq<Byte>)
    requires IsInt32(v)
    ensures |bytes| == 4
  {
    BigEndian(4, Unsigned(v))
  }

  function ReadInt32(bytes: seq<Byte>): (v: int)
    requires |bytes| == 4
    ensures IsInt32(v)
  {
    FieldOfValue(bytes);
    FourBytes();
    Signed(Value(bytes))
  }

  /** A signed field is the value of its bytes, less 2^32 if the first bit is set. */
  lemma SignedBytes(a: Byte, b: Byte, c: Byte, d: Byte)
    ensures ReadInt32([a, b, c, d]) ==
            0x100_0000 * (if a < 128 then a else a - 256) + 0x1_0000 * b + 0x100 * c + d
  {
    BytesOfValue(a, b, c, d);
  }

  lemma Int32RoundTrip(v: int)
    requires IsInt32(v)
    ensures ReadInt32(Int32(v)) == v
  {
    FourBytes();
    ValueOfField(4, Unsigned(v));
  }

  lemma ReadInt32Inverse(bytes: seq<Byte>)
    requires |bytes| == 4
    ensures Int32(ReadInt32(bytes)) == bytes
  {
    FourBytes();
    FieldOfValue(bytes);
  }
}
