/**
 The CRC of the serial framing: generator x^16 + x^12 + x^5 + 1, initial value 0, most
 significant bit first, no final xor.

 A machine word is the sequence of its bits, most significant first. The loops of the source
 (`Checksum`) xor a byte into the top of the register and shift eight times. The specification
 (`Feed`) takes one message bit at a time. The laws the framing needs are proved of `Feed`: the
 residue of a checked body is zero, and no change confined to 16 consecutive bits goes unnoticed.
 */
module Checksums {
  import opened Runs

  type Byte = b: int | 0 <= b < 256
  type Bits = seq<bool>
  type Word = w: Bits | |w| == 16 witness Zeros(16)

  function Zeros(n: nat): (z: Bits)
    ensures |z| == n
  {
    seq(n, _ => false)
  }

  // ---- Bytes and their bits ---------------------------------------------------------------

  function Pow2(n: nat): nat {
    if n == 0 then 1 else 2 * Pow2(n - 1)
  }

  function Digits(v: nat, n: nat): (d: Bits)
    ensures |d| == n
    decreases n
  {
    if n == 0 then [] else Digits(v / 2, n - 1) + [v % 2 == 1]
  }

  function Number(d: Bits): (v: nat)
    ensures v < Pow2(|d|)
    decreases |d|
  {
    if d == [] then 0 else 2 * Number(d[..|d| - 1]) + if d[|d| - 1] then 1 else 0
  }

  lemma {:induction false} NumberOfDigits(v: nat, n: nat)
    requires v < Pow2(n)
    ensures Number(Digits(v, n)) == v
    decreases n
  {
    if n != 0 {
      var d := Digits(v, n);
      assert d[..n - 1] == Digits(v / 2, n - 1) && d[n - 1] == (v % 2 == 1);
      NumberOfDigits(v / 2, n - 1);
    }
  }

  lemma {:induction false} DigitsOfNumber(d: Bits)
    ensures Digits(Number(d), |d|) == d
    decreases |d|
  {
    if d != [] {
      var k := |d| - 1;
      DigitsOfNumber(d[..k]);
      assert Number(d) / 2 == Number(d[..k]) && (Number(d) % 2 == 1) == d[k];
      assert d == d[..k] + [d[k]];
    }
  }

  lemma Pow2Eight()
    ensures Pow2(8) == 256
  {
    assert Pow2(4) == 16;
  }

  const BYTE_BITS: nat := 8

  function BitsOf(b: Byte): (v: Bits)
    ensures |v| == 8
  {
    Digits(b, BYTE_BITS)
  }

  function ByteOf(v: Bits): (b: Byte)
    requires |v| == 8
  {
    Pow2Eight();
    Number(v)
  }

  lemma BitsOfByteOf(v: Bits)
    requires |v| == 8
    ensures BitsOf(ByteOf(v)) == v
  {
    DigitsOfNumber(v);
  }

  lemma ByteOfBitsOf(b: Byte)
    ensures ByteOf(BitsOf(b)) == b
  {
    Pow2Eight();
    NumberOfDigits(b, 8);
  }

  function Message(data: seq<Byte>): (v: Bits)
    ensures |v| == 8 * |data|
  {
    if data == [] then [] else BitsOf(data[0]) + Message(data[1..])
  }

  lemma {:induction false} MessageConcat(a: seq<Byte>, b: seq<Byte>)
    ensures Message(a + b) == Message(a) + Message(b)
    decreases |a|
  {
    if a == [] {
      assert a + b == b;
    } else {
      assert (a + b)[0] == a[0] && (a + b)[1..] == a[1..] + b;
      MessageConcat(a[1..], b);
    }
  }

  lemma {:induction false} MessageInjective(a: seq<Byte>, b: seq<Byte>)
    requires |a| == |b| && Message(a) == Message(b)
    ensures a == b
    decreases |a|
  {
    if a != [] {
      assert Message(a)[..8] == BitsOf(a[0]) && Message(b)[..8] == BitsOf(b[0]);
      assert Message(a)[8..] == Message(a[1..]) && Message(b)[8..] == Message(b[1..]);
      ByteOfBitsOf(a[0]);
      ByteOfBitsOf(b[0]);
      MessageInjective(a[1..], b[1..]);
      assert a == [a[0]] + a[1..] && b == [b[0]] + b[1..];
    }
  }

  // ---- The register -----------------------------------------------------------------------

  /** Shift in one message bit. `flip` is the coefficient the generator is subtracted with; its
      terms x^12, x^5 and 1 sit at positions 3, 10 and 15. */
  function ShiftIn(c: Word, bit: bool): Word {
    var flip := c[0] != bit;
    seq(16, i requires 0 <= i < 16 =>
      if i == 15 then flip else if i == 3 || i == 10 then c[i + 1] != flip else c[i + 1])
  }

  function Feed(c: Word, v: Bits): Word {
    AfterAll(ShiftIn, c, v)
  }

  function Crc(data: seq<Byte>): Word {
    Feed(Zeros(16), Message(data))
  }

  /** The register as two bytes, high byte first. */
  function Bytes(c: Word): (s: seq<Byte>)
    ensures |s| == 2
  {
    [ByteOf(c[..8]), ByteOf(c[8..])]
  }

  lemma FeedConcat(c: Word, v: Bits, w: Bits)
    ensures Feed(c, v + w) == Feed(Feed(c, v), w)
  {
    AfterJoin(ShiftIn, c, v, w);
  }

  // ---- The loops of the source ------------------------------------------------------------

  function Xor(a: Word, b: Word): Word {
    seq(16, i requires 0 <= i < 16 => a[i] != b[i])
  }

  function ShiftLeft(c: Word): Word {
    c[1..] + [false]
  }

  const GENERATOR: Word := [
    false, false, false, true, false, false, false, false, false, false, true, false, false, false, false, true]

  /** One turn of the inner loop. */
  function Shift(c: Word): Word {
    if c[0] then Xor(ShiftLeft(c), GENERATOR) else ShiftLeft(c)
  }

  function Turned(turn: Word -> Word, c: Word, n: nat): Word {
    if n == 0 then c else turn(Turned(turn, c, n - 1))
  }

  /** The bits of `v` from `n` on, at the top of a word. */
  function Padded(v: Bits, n: nat): Word
    requires n <= |v| <= 16
  {
    v[n..] + Zeros(16 - |v| + n)
  }

  lemma PaddedNext(v: Bits, n: nat)
    requires n < |v| <= 16
    ensures ShiftLeft(Padded(v, n)) == Padded(v, n + 1) && Padded(v, n)[0] == v[n]
  {}

  /** If turning a register mixed with bits is mixing the shifted register with the shifted bits, then
      turning a register that has message bits mixed into its top feeds it those bits. */
  lemma {:induction false} MixedRun(
    turn: Word -> Word, mix: (Word, Word) -> Word, shift: (Word, bool) -> Word, c: Word, v: Bits, n: nat)
    requires forall d, r :: turn(mix(d, r)) == mix(shift(d, r[0]), ShiftLeft(r))
    requires n <= |v| <= 16
    ensures Turned(turn, mix(c, Padded(v, 0)), n) == mix(AfterAll(shift, c, v[..n]), Padded(v, n))
  {
    if n > 0 {
      MixedRun(turn, mix, shift, c, v, n - 1);
      PaddedNext(v, n - 1);
      AfterNext(shift, c, v, n - 1);
    }
  }

  lemma ShiftMixed(c: Word, r: Word)
    ensures Shift(Xor(c, r)) == Xor(ShiftIn(c, r[0]), ShiftLeft(r))
  {}

  lemma MixedFeeds(c: Word, v: Bits)
    requires |v| <= 16
    ensures Turned(Shift, Xor(c, Padded(v, 0)), |v|) == Xor(Feed(c, v), Zeros(16))
  {
    forall d, r
      ensures Shift(Xor(d, r)) == Xor(ShiftIn(d, r[0]), ShiftLeft(r))
    {
      ShiftMixed(d, r);
    }
    MixedRun(Shift, Xor, ShiftIn, c, v, |v|);
    AllAndNothing(v);
  }

  lemma AllAndNothing(v: Bits)
    requires |v| <= 16
    ensures v[..|v|] == v && Padded(v, |v|) == Zeros(16)
  {}

  lemma XorZeros(c: Word)
    ensures Xor(c, Zeros(16)) == c
  {}

  lemma ByteMixed(c: Word, b: Byte)
    ensures Turned(Shift, Xor(c, Padded(BitsOf(b), 0)), 8) == Feed(c, BitsOf(b))
  {
    MixedFeeds(c, BitsOf(b));
    XorZeros(Feed(c, BitsOf(b)));
  }

  /** The inner loop of the source, on a register with a byte already mixed in. */
  method ShiftByte(mixed: Word) returns (crc: Word)
    ensures crc == Turned(Shift, mixed, 8)
  {
    crc := mixed;
    for i := 0 to 8
      invariant crc == Turned(Shift, mixed, i)
    {
      crc := Shift(crc);
    }
  }

  /** One turn of the outer loop: mix in a byte and shift it through. */
  method AddByte(crc: Word, b: Byte) returns (next: Word)
    ensures next == Feed(crc, BitsOf(b))
  {
    ByteMixed(crc, b);
    next := ShiftByte(Xor(crc, Padded(BitsOf(b), 0)));
  }

  lemma {:induction false} MessageNext(data: seq<Byte>, k: nat)
    requires k < |data|
    ensures Message(data[..k + 1]) == Message(data[..k]) + BitsOf(data[k])
  {
    assert data[..k + 1] == data[..k] + [data[k]];
    MessageConcat(data[..k], [data[k]]);
    assert [data[k]][1..] == [];
  }

  lemma CrcNext(data: seq<Byte>, k: nat)
    requires k < |data|
    ensures Crc(data[..k + 1]) == Feed(Crc(data[..k]), BitsOf(data[k]))
  {
    MessageNext(data, k);
    FeedConcat(Zeros(16), Message(data[..k]), BitsOf(data[k]));
  }

  /** The outer loop of the source. */
  method Checksum(data: seq<Byte>) returns (crc: Word)
    ensures crc == Crc(data)
  {
    crc := Zeros(16);
    for k := 0 to |data|
      invariant crc == Crc(data[..k])
    {
      CrcNext(data, k);
      crc := AddByte(crc, data[k]);
    }
    assert data[..|data|] == data;
  }

  // ---- Injectivity ------------------------------------------------------------------------

  lemma ShiftInInjective(c: Word, d: Word, bit: bool)
    requires ShiftIn(c, bit) == ShiftIn(d, bit)
    ensures c == d
  {
    assert ShiftIn(c, bit)[15] == ShiftIn(d, bit)[15];
    forall i | 0 <= i < 16
      ensures c[i] == d[i]
    {
      if i > 0 {
        assert ShiftIn(c, bit)[i - 1] == ShiftIn(d, bit)[i - 1];
      }
    }
  }

  lemma {:induction false} InjectiveRun(shift: (Word, bool) -> Word, c: Word, d: Word, v: Bits)
    requires forall x, y, bit | shift(x, bit) == shift(y, bit) :: x == y
    requires AfterAll(shift, c, v) == AfterAll(shift, d, v)
    ensures c == d
    decreases |v|
  {
    if v != [] {
      InjectiveRun(shift, c, d, v[..|v| - 1]);
    }
  }

  lemma FeedInjective(c: Word, d: Word, v: Bits)
    requires Feed(c, v) == Feed(d, v)
    ensures c == d
  {
    forall x, y, bit | ShiftIn(x, bit) == ShiftIn(y, bit)
      ensures x == y
    {
      ShiftInInjective(x, y, bit);
    }
    InjectiveRun(ShiftIn, c, d, v);
  }

  /** The last n bits of the register. */
  function Low(c: Word, n: nat): Bits
    requires n <= 16
  {
    c[16 - n..]
  }

  lemma LowAt(c: Word, d: Word, n: nat, i: nat)
    requires n <= 16 && Low(c, n) == Low(d, n) && 16 - n <= i < 16
    ensures c[i] == d[i]
  {
    assert Low(c, n)[i - (16 - n)] == c[i] && Low(d, n)[i - (16 - n)] == d[i];
  }

  /** One bit more of the register shows one bit more of what was shifted in. */
  predicate Shows(shift: (Word, bool) -> Word, p: Word, q: Word, x: bool, y: bool, k: nat) {
    k < 16 && Low(shift(p, x), k + 1) == Low(shift(q, y), k + 1) ==> Low(p, k) == Low(q, k) && (p == q ==> x == y)
  }

  /** The last bit is what was subtracted; with it, every other bit shows the one it came from. */
  lemma BitShows(p: Word, q: Word, x: bool, y: bool, i: nat)
    requires 0 < i < 16 && ShiftIn(p, x)[15] == ShiftIn(q, y)[15] && ShiftIn(p, x)[i - 1] == ShiftIn(q, y)[i - 1]
    ensures p[i] == q[i]
  {}

  lemma LastShows(p: Word, x: bool, y: bool)
    requires ShiftIn(p, x)[15] == ShiftIn(p, y)[15]
    ensures x == y
  {}

  lemma LowFrom(p: Word, q: Word, k: nat)
    requires k <= 16 && forall i :: 16 - k <= i < 16 ==> p[i] == q[i]
    ensures Low(p, k) == Low(q, k)
  {}

  lemma ShiftShows(p: Word, q: Word, x: bool, y: bool, k: nat)
    ensures Shows(ShiftIn, p, q, x, y, k)
  {
    var c, d := ShiftIn(p, x), ShiftIn(q, y);
    if k < 16 && Low(c, k + 1) == Low(d, k + 1) {
      LowAt(c, d, k + 1, 15);
      forall i | 16 - k <= i < 16
        ensures p[i] == q[i]
      {
        LowAt(c, d, k + 1, i - 1);
        BitShows(p, q, x, y, i);
      }
      LowFrom(p, q, k);
      if p == q {
        LastShows(p, x, y);
      }
    }
  }

  lemma {:induction false} LowBitsRun(shift: (Word, bool) -> Word, c: Word, v: Bits, w: Bits)
    requires forall p, q, x, y, k: nat :: Shows(shift, p, q, x, y, k)
    requires |v| == |w| <= 16 && Low(AfterAll(shift, c, v), |v|) == Low(AfterAll(shift, c, w), |v|)
    ensures v == w
    decreases |v|
  {
    if v != [] {
      var k := |v| - 1;
      var p, q := AfterAll(shift, c, v[..k]), AfterAll(shift, c, w[..k]);
      assert Shows(shift, p, q, v[k], w[k], k);
      LowBitsRun(shift, c, v[..k], w[..k]);
      LastBit(v, w);
    }
  }

  lemma LastBit(v: Bits, w: Bits)
    requires v != [] && |v| == |w| && v[..|v| - 1] == w[..|v| - 1] && v[|v| - 1] == w[|v| - 1]
    ensures v == w
  {
    var k := |v| - 1;
    assert v == v[..k] + [v[k]] && w == w[..k] + [w[k]];
  }

  /** The last n bits of the register show what was subtracted in the last n steps: they decide
      the n <= 16 bits fed since a known register. */
  lemma LowBitsDecide(c: Word, v: Bits, w: Bits)
    requires |v| == |w| <= 16 && Low(Feed(c, v), |v|) == Low(Feed(c, w), |v|)
    ensures v == w
  {
    forall p, q, x, y, k: nat
      ensures Shows(ShiftIn, p, q, x, y, k)
    {
      ShiftShows(p, q, x, y, k);
    }
    LowBitsRun(ShiftIn, c, v, w);
  }

  // ---- The zero residue -------------------------------------------------------------------

  /** What is left of a register after `n` shifts that subtract nothing. */
  function Shrunk(c: Word, n: nat): Word
    requires n <= 16
  {
    c[n..] + Zeros(n)
  }

  lemma ShrunkNext(c: Word, n: nat)
    requires n < 16
    ensures ShiftLeft(Shrunk(c, n)) == Shrunk(c, n + 1) && Shrunk(c, n)[0] == c[n]
  {}

  lemma {:induction false} OwnBitsRun(shift: (Word, bool) -> Word, c: Word, n: nat)
    requires forall d :: shift(d, d[0]) == ShiftLeft(d)
    requires n <= 16
    ensures AfterAll(shift, c, c[..n]) == Shrunk(c, n)
  {
    if n > 0 {
      OwnBitsRun(shift, c, n - 1);
      ShrunkNext(c, n - 1);
      AfterNext(shift, c, c, n - 1);
    } else {
      assert Shrunk(c, 0) == c;
    }
  }

  lemma ShiftInOwn(c: Word)
    ensures ShiftIn(c, c[0]) == ShiftLeft(c)
  {}

  /** A register fed its own bits ends at zero. */
  lemma FeedOwnBits(c: Word)
    ensures Feed(c, c) == Zeros(16)
  {
    forall d
      ensures ShiftIn(d, d[0]) == ShiftLeft(d)
    {
      ShiftInOwn(d);
    }
    OwnBitsRun(ShiftIn, c, 16);
    assert c[..16] == c && Shrunk(c, 16) == Zeros(16);
  }

  lemma MessageOfBytes(c: Word)
    ensures Message(Bytes(c)) == c
  {
    BitsOfByteOf(c[..8]);
    BitsOfByteOf(c[8..]);
    assert Bytes(c)[1..] == [ByteOf(c[8..])] && [ByteOf(c[8..])][1..] == [];
    assert Message([ByteOf(c[8..])]) == BitsOf(ByteOf(c[8..])) + [];
    assert c == c[..8] + c[8..];
  }

  /** Data followed by two bytes leaves the register at zero exactly when they are its CRC. */
  lemma ZeroResidue(data: seq<Byte>, check: seq<Byte>)
    requires |check| == 2
    ensures Crc(data + check) == Zeros(16) <==> check == Bytes(Crc(data))
  {
    MessageConcat(data, check);
    FeedConcat(Zeros(16), Message(data), Message(check));
    ResidueOf(Crc(data), check);
  }

  lemma ResidueOf(c: Word, check: seq<Byte>)
    requires |check| == 2
    ensures Feed(c, Message(check)) == Zeros(16) <==> check == Bytes(c)
  {
    MessageOfBytes(c);
    FeedOwnBits(c);
    if Feed(c, Message(check)) == Zeros(16) {
      LowBitsDecide(c, Message(check), c);
      MessageInjective(check, Bytes(c));
    }
  }

  // ---- Bursts -----------------------------------------------------------------------------

  /** `v` and `w` differ at most within the `size` bits from position `at`. */
  predicate DifferWithin(v: Bits, w: Bits, at: nat, size: nat) {
    |v| == |w| && at + size <= |v| && v[..at] == w[..at] && v[at + size..] == w[at + size..]
  }

  lemma ThreeParts(v: Bits, i: nat, j: nat)
    requires i <= j <= |v|
    ensures v == v[..i] + (v[i..j] + v[j..])
  {}

  lemma FeedSplits(c: Word, v: Bits, at: nat, size: nat)
    requires at + size <= |v|
    ensures Feed(c, v) == Feed(Feed(Feed(c, v[..at]), v[at..at + size]), v[at + size..])
  {
    AfterThree(ShiftIn, c, v[..at], v[at..at + size], v[at + size..]);
    ThreeParts(v, at, at + size);
  }

  /** A difference within 16 bits is not forgotten, whatever follows. */
  lemma DifferenceStays(c: Word, x: Bits, y: Bits, after: Bits)
    requires |x| == |y| <= 16 && Feed(Feed(c, x), after) == Feed(Feed(c, y), after)
    ensures x == y
  {
    FeedInjective(Feed(c, x), Feed(c, y), after);
    LowBitsDecide(c, x, y);
  }

  lemma SamePieces(v: Bits, w: Bits, at: nat, size: nat)
    requires DifferWithin(v, w, at, size) && v[at..at + size] == w[at..at + size]
    ensures v == w
  {
    ThreeParts(v, at, at + size);
    ThreeParts(w, at, at + size);
  }

  lemma FeedNotices(c: Word, v: Bits, w: Bits, at: nat, size: nat)
    requires size <= 16 && DifferWithin(v, w, at, size) && Feed(c, v) == Feed(c, w)
    ensures v == w
  {
    FeedSplits(c, v, at, size);
    FeedSplits(c, w, at, size);
    DifferenceStays(Feed(c, v[..at]), v[at..at + size], w[at..at + size], v[at + size..]);
    SamePieces(v, w, at, size);
  }

  /** A change within 16 consecutive bits always changes the CRC, whatever surrounds it. */
  lemma BurstDetected(a: seq<Byte>, b: seq<Byte>, at: nat, size: nat)
    requires size <= 16 && DifferWithin(Message(a), Message(b), at, size)
    requires Crc(a) == Crc(b)
    ensures a == b
  {
    FeedNotices(Zeros(16), Message(a), Message(b), at, size);
    MessageInjective(a, b);
  }
}
