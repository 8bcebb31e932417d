/**
 What the CRC is. A string of bytes is a polynomial over two elements: the bits, most significant
 first, are its coefficients from the highest down. The CRC of data is the pair of bytes that makes
 data and CRC together a multiple of x^16 + x^12 + x^5 + 1, which is the remainder of the data times
 x^16. Nothing here but the proof knows of a register.
 */
module Polynomials {
  import opened Checksums

  const BIT_VALUES: seq<nat> := [1, 2, 4, 8, 16, 32, 64, 128]

  /** The coefficient of x^e in a string of bytes. */
  predicate Coefficient(s: seq<Byte>, e: int) {
    0 <= e < 8 * |s| && (s[|s| - 1 - e / 8] / BIT_VALUES[e % 8]) % 2 == 1
  }

  /** The coefficient of x^e in a string of bits. */
  predicate Coef(v: Bits, e: int) {
    0 <= e < |v| && v[|v| - 1 - e]
  }

  /** The coefficient of x^e in the product of `q` with x^16 + x^12 + x^5 + 1. */
  predicate Product(q: Bits, e: int) {
    (Coef(q, e - 16) != Coef(q, e - 12)) != (Coef(q, e - 5) != Coef(q, e))
  }

  ghost predicate Times(s: seq<Byte>, q: Bits) {
    forall e :: Coefficient(s, e) == Product(q, e)
  }

  /** The bytes are a multiple of x^16 + x^12 + x^5 + 1. */
  ghost predicate IsMultiple(s: seq<Byte>) {
    exists q: Bits :: Times(s, q)
  }

  // ---- Division by the register -----------------------------------------------------------

  /** What the register subtracts, bit by bit. */
  function Quotient(c: Word, v: Bits): (q: Bits)
    ensures |q| == |v|
    decreases |v|
  {
    if v == [] then []
    else
      var before := v[..|v| - 1];
      Quotient(c, before) + [Feed(c, before)[0] != v[|v| - 1]]
  }

  lemma CoefAppend(v: Bits, b: bool, e: int)
    ensures Coef(v + [b], e) == if e == 0 then b else Coef(v, e - 1)
  {}

  lemma RegisterCoef(c: Word, bit: bool, e: int)
    ensures var flip := c[0] != bit;
            Coef(ShiftIn(c, bit), e) ==
            if e == 0 then flip
            else if e == 16 then false
            else if e == 5 || e == 12 then Coef(c, e - 1) != flip else Coef(c, e - 1)
  {
    assert e == 16 ==> Coef(c, 15) == c[0];
  }

  lemma ProductAppend(q: Bits, flip: bool, e: int)
    ensures Product(q + [flip], e) ==
            (Product(q, e - 1) != (flip && (e == 0 || e == 5 || e == 12 || e == 16)))
  {
    CoefAppend(q, flip, e);
    CoefAppend(q, flip, e - 5);
    CoefAppend(q, flip, e - 12);
    CoefAppend(q, flip, e - 16);
  }

  /** The bits times x^16 are the quotient times the generator and the register. */
  lemma {:induction false} Division(v: Bits, e: int)
    ensures Coef(v, e - 16) == (Product(Quotient(Zeros(16), v), e) != Coef(Feed(Zeros(16), v), e))
    decreases |v|
  {
    if v != [] {
      var before, bit := v[..|v| - 1], v[|v| - 1];
      var c := Feed(Zeros(16), before);
      assert v == before + [bit];
      Division(before, e - 1);
      CoefAppend(before, bit, e - 16);
      RegisterCoef(c, bit, e);
      ProductAppend(Quotient(Zeros(16), before), c[0] != bit, e);
      assert e == 16 ==> Coef(c, 15) == c[0];
    }
  }

  // ---- Bytes ------------------------------------------------------------------------------

  lemma {:induction false} DigitAt(v: nat, n: nat, i: nat)
    requires i < n
    ensures Digits(v, n)[n - 1 - i] == (Halved(v, i) % 2 == 1)
    decreases n
  {
    if i > 0 {
      DigitAt(v / 2, n - 1, i - 1);
      HalvedFirst(v, i);
    }
  }

  function Halved(v: nat, i: nat): nat {
    if i == 0 then v else Halved(v, i - 1) / 2
  }

  lemma {:induction false} HalvedFirst(v: nat, i: nat)
    requires i > 0
    ensures Halved(v, i) == Halved(v / 2, i - 1)
  {
    if i > 1 {
      HalvedFirst(v, i - 1);
    }
  }

  lemma HalvedDivides(v: nat, i: nat)
    requires i < 8
    ensures Halved(v, i) == v / BIT_VALUES[i]
  {
    assert Halved(v, 1) == v / 2;
    assert Halved(v, 2) == v / 4;
    assert Halved(v, 3) == v / 8;
    assert Halved(v, 4) == v / 16;
    assert Halved(v, 5) == v / 32;
    assert Halved(v, 6) == v / 64;
    assert Halved(v, 7) == v / 128;
  }

  lemma BitOfByte(b: Byte, i: nat)
    requires i < 8
    ensures BitsOf(b)[7 - i] == ((b / BIT_VALUES[i]) % 2 == 1)
  {
    DigitAt(b, 8, i);
    HalvedDivides(b, i);
  }

  lemma CoefConcat(x: Bits, y: Bits, e: int)
    ensures Coef(x + y, e) == if e >= |y| then Coef(x, e - |y|) else Coef(y, e)
  {}

  lemma CoefficientFirst(s: seq<Byte>, e: int)
    requires s != []
    ensures Coefficient(s, e) ==
            if e >= 8 * |s[1..]| then Coef(BitsOf(s[0]), e - 8 * |s[1..]|) else Coefficient(s[1..], e)
  {
    var k := |s| - 1;
    if 8 * k <= e < 8 * |s| {
      assert e / 8 == k && e - 8 * k == e % 8;
      BitOfByte(s[0], e % 8);
    } else if 0 <= e < 8 * k {
      assert s[k - e / 8] == s[1..][k - 1 - e / 8];
    }
  }

  lemma {:induction false} CoefficientIsBit(s: seq<Byte>, e: int)
    ensures Coefficient(s, e) == Coef(Message(s), e)
    decreases |s|
  {
    if s != [] {
      CoefficientFirst(s, e);
      CoefficientIsBit(s[1..], e);
      CoefConcat(BitsOf(s[0]), Message(s[1..]), e);
    }
  }

  lemma CheckedCoefficient(data: seq<Byte>, check: seq<Byte>, e: int)
    requires |check| == 2
    ensures Coefficient(data + check, e) == (Coefficient(data, e - 16) != Coefficient(check, e))
  {
    var s := data + check;
    if 16 <= e < 8 * |s| {
      assert (e - 16) / 8 == e / 8 - 2 && (e - 16) % 8 == e % 8;
      assert s[|s| - 1 - e / 8] == data[|data| - 1 - (e - 16) / 8];
    } else if 0 <= e < 16 {
      assert s[|s| - 1 - e / 8] == check[1 - e / 8];
    }
  }

  // ---- The CRC is the remainder -----------------------------------------------------------

  lemma CrcMakesMultiple(data: seq<Byte>)
    ensures Times(data + Bytes(Crc(data)), Quotient(Zeros(16), Message(data)))
  {
    var check := Bytes(Crc(data));
    forall e
      ensures Coefficient(data + check, e) == Product(Quotient(Zeros(16), Message(data)), e)
    {
      CheckedCoefficient(data, check, e);
      CoefficientIsBit(data, e - 16);
      CoefficientIsBit(check, e);
      MessageOfBytes(Crc(data));
      Division(Message(data), e);
    }
  }

  /** What the product has from x^16 up decides the other factor. */
  lemma {:induction false} QuotientDecided(p: Bits, q: Bits, e: nat)
    requires forall k :: k >= 16 ==> Product(p, k) == Product(q, k)
    ensures Coef(p, e) == Coef(q, e)
    decreases |p| + |q| - e
  {
    if e < |p| || e < |q| {
      assert Product(p, e + 16) == Product(q, e + 16);
      QuotientDecided(p, q, e + 4);
      QuotientDecided(p, q, e + 11);
      QuotientDecided(p, q, e + 16);
    }
  }

  lemma OneRemainder(data: seq<Byte>, a: seq<Byte>, b: seq<Byte>, p: Bits, q: Bits)
    requires |a| == 2 && |b| == 2 && Times(data + a, p) && Times(data + b, q)
    ensures a == b
  {
    forall k | k >= 16
      ensures Product(p, k) == Product(q, k)
    {
      CheckedCoefficient(data, a, k);
      CheckedCoefficient(data, b, k);
    }
    forall e
      ensures Coef(p, e) == Coef(q, e)
    {
      if e >= 0 {
        QuotientDecided(p, q, e);
      }
    }
    SameRemainder(data, a, b, p, q);
    MessageInjective(a, b);
  }

  lemma SameRemainder(data: seq<Byte>, a: seq<Byte>, b: seq<Byte>, p: Bits, q: Bits)
    requires |a| == 2 && |b| == 2 && Times(data + a, p) && Times(data + b, q)
    requires forall e :: Coef(p, e) == Coef(q, e)
    ensures Message(a) == Message(b)
  {
    forall i | 0 <= i < 16
      ensures Message(a)[i] == Message(b)[i]
    {
      var e := 15 - i;
      CheckedCoefficient(data, a, e);
      CheckedCoefficient(data, b, e);
      CoefficientIsBit(a, e);
      CoefficientIsBit(b, e);
      assert Coefficient(data + a, e) == Product(p, e) && Coefficient(data + b, e) == Product(q, e);
      assert Coef(Message(a), e) == Message(a)[i] && Coef(Message(b), e) == Message(b)[i];
    }
  }

  /** Two bytes are the CRC of data if and only if data and the two bytes are a multiple of the generator. */
  lemma CrcIsRemainder(data: seq<Byte>, check: seq<Byte>)
    requires |check| == 2
    ensures check == Bytes(Crc(data)) <==> IsMultiple(data + check)
  {
    CrcMakesMultiple(data);
    if q: Bits :| Times(data + check, q) {
      OneRemainder(data, check, Bytes(Crc(data)), q, Quotient(Zeros(16), Message(data)));
    }
  }
}
