/**
 IMU samples with a presence mask: a payload carries a 16-bit mask and one big-endian 32-bit float
 for each set bit, lowest bit first. Floats are kept as their bit patterns.
 */
module Imu {
  import opened Checksums
  import opened Framing
  import opened Wrappers
  import opened Codec
  import Scheduling

  const FIELDS: nat := 16

  type Pattern = w: int | 0 <= w < 0x1_0000_0000

  /** Fields that are absent keep the identity orientation: the quaternion's W is 1.0, others 0.0. */
  function Default(i: nat): Pattern {
    if i == 12 then 0x3F80_0000 else 0
  }

  predicate Bit(mask: nat, i: nat) {
    if i == 0 then mask % 2 == 1 else Bit(mask / 2, i - 1)
  }

  /** The number of fields present before field `i`. */
  function Before(mask: nat, i: nat): nat {
    if i == 0 then 0 else Before(mask, i - 1) + if Bit(mask, i - 1) then 1 else 0
  }

  function MaskOf(payload: Payload): nat
    requires |payload| >= 3
  {
    Value(payload[1..3])
  }

  predicate IsSample(payload: Payload) {
    |payload| >= 3 && payload[0] == Scheduling.GET_IMU && |payload| >= 3 + 4 * Before(MaskOf(payload), FIELDS)
  }

  function ReadPattern(bytes: seq<Byte>): Pattern
    requires |bytes| == 4
  {
    FieldOfValue(bytes);
    FourBytes();
    Value(bytes)
  }

  lemma {:induction false} BeforeGrows(mask: nat, i: nat, j: nat)
    requires i <= j
    ensures Before(mask, i) <= Before(mask, j)
    ensures i < j && Bit(mask, i) ==> Before(mask, i) < Before(mask, j)
    decreases j
  {
    if i < j {
      BeforeGrows(mask, i, j - 1);
    }
  }

  /** A word at `at` if it is present, a default otherwise. */
  predicate Reads(payload: Payload, present: bool, at: nat, otherwise: Pattern, w: Pattern) {
    if present then at + 4 <= |payload| && w == ReadPattern(payload[at..at + 4]) else w == otherwise
  }

  /** Field `i` of a sample: its word if it is present, its default otherwise. */
  predicate HasField(payload: Payload, i: nat, w: Pattern)
    requires |payload| >= 3
  {
    FieldOf(payload, MaskOf(payload), i, w)
  }

  predicate FieldOf(payload: Payload, mask: nat, i: nat, w: Pattern) {
    Reads(payload, Bit(mask, i), 3 + 4 * Before(mask, i), Default(i), w)
  }

  // ---- What the mask says -----------------------------------------------------------------

  const FIELD_BITS: seq<nat> :=
    [1, 2, 4, 8, 0x10, 0x20, 0x40, 0x80, 0x100, 0x200, 0x400, 0x800, 0x1000, 0x2000, 0x4000, 0x8000]

  /** The bit of field `i` is set in the two bytes after the ID. */
  predicate Flagged(payload: Payload, i: nat)
    requires |payload| >= 3 && i < 16
  {
    (((payload[1] as int) * 0x100 + payload[2]) / FIELD_BITS[i]) % 2 == 1
  }

  function Below(p: nat -> bool, n: nat): set<nat> {
    set i: nat | i < n && p(i)
  }

  /** The fields below `n` that are present. */
  function Present(payload: Payload, n: nat): set<nat>
    requires |payload| >= 3
  {
    Below((i: nat) => i < 16 && Flagged(payload, i), n)
  }

  function WordAtByte(payload: Payload, at: nat): int
    requires at + 4 <= |payload|
  {
    (payload[at] as int) * 0x100_0000 + (payload[at + 1] as int) * 0x1_0000 + (payload[at + 2] as int) * 0x100
    + payload[at + 3]
  }

  function Halved(v: nat, i: nat): nat {
    if i == 0 then v else Halved(v, i - 1) / 2
  }

  lemma {:induction false} HalvedFirst(v: nat, i: nat)
    requires i > 0
    ensures Halved(v, i) == Halved(v / 2, i - 1)
  {
    if i > 1 {
      HalvedFirst(v, i - 1);
    }
  }

  lemma {:induction false} BitHalved(mask: nat, i: nat)
    ensures Bit(mask, i) <==> Halved(mask, i) % 2 == 1
  {
    if i > 0 {
      HalvedFirst(mask, i);
      BitHalved(mask / 2, i - 1);
    }
  }

  lemma HalvedLow(v: nat, i: nat)
    requires i <= 8
    ensures Halved(v, i) == v / FIELD_BITS[i]
  {
    assert Halved(v, 1) == v / 2;
    assert Halved(v, 2) == v / 4;
    assert Halved(v, 3) == v / 8;
    assert Halved(v, 4) == v / 0x10;
    assert Halved(v, 5) == v / 0x20;
    assert Halved(v, 6) == v / 0x40;
    assert Halved(v, 7) == v / 0x80;
    assert Halved(v, 8) == v / 0x100;
  }

  lemma {:induction false} HalvedTwice(v: nat, i: nat, j: nat)
    ensures Halved(v, i + j) == Halved(Halved(v, i), j)
  {
    if j > 0 {
      HalvedTwice(v, i, j - 1);
    }
  }

  lemma HalvedDivides(v: nat, i: nat)
    requires i < 16
    ensures Halved(v, i) == v / FIELD_BITS[i]
  {
    if i <= 8 {
      HalvedLow(v, i);
    } else {
      HalvedTwice(v, 8, i - 8);
      HalvedLow(v, 8);
      HalvedLow(v / 0x100, i - 8);
      DivisionsJoin(v, i);
    }
  }

  lemma DivisionsJoin(v: nat, i: nat)
    requires 8 < i < 16
    ensures v / 0x100 / FIELD_BITS[i - 8] == v / FIELD_BITS[i]
  {
    assert v / 0x100 / 2 == v / 0x200 && v / 0x100 / 4 == v / 0x400 && v / 0x100 / 8 == v / 0x800;
    assert v / 0x100 / 0x10 == v / 0x1000 && v / 0x100 / 0x20 == v / 0x2000;
    assert v / 0x100 / 0x40 == v / 0x4000 && v / 0x100 / 0x80 == v / 0x8000;
  }

  lemma MaskBytes(payload: Payload)
    requires |payload| >= 3
    ensures MaskOf(payload) == (payload[1] as int) * 0x100 + payload[2]
  {
    BytesOfValue(payload[1], payload[2], 0, 0);
    assert payload[1..3] == [payload[1], payload[2]];
  }

  lemma BitIsPresence(payload: Payload, i: nat)
    requires |payload| >= 3 && i < 16
    ensures Bit(MaskOf(payload), i) <==> Flagged(payload, i)
  {
    MaskBytes(payload);
    BitHalved(MaskOf(payload), i);
    HalvedDivides(MaskOf(payload), i);
  }

  function Counted(p: nat -> bool, n: nat): nat {
    if n == 0 then 0 else Counted(p, n - 1) + if p(n - 1) then 1 else 0
  }

  lemma {:induction false} BelowCounts(p: nat -> bool, n: nat)
    ensures |Below(p, n)| == Counted(p, n)
  {
    if n == 0 {
      assert Below(p, 0) == {};
    } else {
      BelowCounts(p, n - 1);
      assert Below(p, n) == Below(p, n - 1) + if p(n - 1) then {n - 1} else {};
    }
  }

  lemma {:induction false} BeforeCounted(mask: nat, p: nat -> bool, n: nat)
    requires forall i: nat :: i < n ==> (p(i) <==> Bit(mask, i))
    ensures Before(mask, n) == Counted(p, n)
  {
    if n > 0 {
      BeforeCounted(mask, p, n - 1);
    }
  }

  lemma BeforeCounts(payload: Payload, n: nat)
    requires |payload| >= 3 && n <= 16
    ensures Before(MaskOf(payload), n) == |Present(payload, n)|
  {
    var p := (i: nat) => i < 16 && Flagged(payload, i);
    forall i: nat | i < n
      ensures p(i) <==> Bit(MaskOf(payload), i)
    {
      BitIsPresence(payload, i);
    }
    BeforeCounted(MaskOf(payload), p, n);
    BelowCounts(p, n);
    assert Present(payload, n) == Below(p, n);
  }

  lemma PatternBytes(payload: Payload, at: nat)
    requires at + 4 <= |payload|
    ensures ReadPattern(payload[at..at + 4]) == WordAtByte(payload, at)
  {
    BytesOfValue(payload[at], payload[at + 1], payload[at + 2], payload[at + 3]);
    assert payload[at..at + 4] == [payload[at], payload[at + 1], payload[at + 2], payload[at + 3]];
  }

  /** What field `i` is, by the bits of the mask. */
  predicate IsField(payload: Payload, i: nat, w: Pattern)
    requires |payload| >= 3 && i < 16
  {
    if i in Present(payload, 16)
    then
      var at := 3 + 4 * |Present(payload, i)|;
      at + 4 <= |payload| && w == WordAtByte(payload, at)
    else w == if i == 12 then 0x3F80_0000 else 0
  }

  /** What a sample is, and what its fields are: the mask is big-endian, field i is present if its bit is
      set, and its word follows those of the present fields below it. */
  lemma FieldsByMask(payload: Payload, i: nat, w: Pattern)
    requires |payload| >= 3 && i < 16
    ensures IsSample(payload) <==> payload[0] == 65 && |payload| >= 3 + 4 * |Present(payload, 16)|
    ensures IsSample(payload) ==> (HasField(payload, i, w) <==> IsField(payload, i, w))
  {
    var mask := MaskOf(payload);
    BeforeCounts(payload, 16);
    BeforeCounts(payload, i);
    BitIsPresence(payload, i);
    BeforeGrows(mask, i, 16);
    if IsSample(payload) && Bit(mask, i) {
      PatternBytes(payload, 3 + 4 * Before(mask, i));
    }
  }

  /** With the full mask that the client asks for, field i is the word at byte 3 + 4 i. */
  lemma FullSample(payload: Payload, i: nat, w: Pattern)
    requires |payload| >= 3 && payload[1] == 255 && payload[2] == 255 && i < 16
    ensures IsSample(payload) <==> payload[0] == 65 && |payload| >= 67
    ensures IsSample(payload) ==> (HasField(payload, i, w) <==> w == WordAtByte(payload, 3 + 4 * i))
  {
    FieldsByMask(payload, i, w);
    AllPresent(payload, 16);
    AllPresent(payload, i);
  }

  lemma AllFlagged(payload: Payload, i: nat)
    requires |payload| >= 3 && payload[1] == 255 && payload[2] == 255 && i < 16
    ensures Flagged(payload, i)
  {
    assert (0xFFFF / FIELD_BITS[i]) % 2 == 1;
  }

  lemma AllPresent(payload: Payload, n: nat)
    requires |payload| >= 3 && payload[1] == 255 && payload[2] == 255 && n <= 16
    ensures |Present(payload, n)| == n && forall i :: 0 <= i < n ==> i in Present(payload, n)
  {
    forall i | 0 <= i < 16
      ensures Flagged(payload, i)
    {
      AllFlagged(payload, i);
    }
    CountAll((i: nat) => i < 16 && Flagged(payload, i), n);
    BelowCounts((i: nat) => i < 16 && Flagged(payload, i), n);
  }

  lemma {:induction false} CountAll(p: nat -> bool, n: nat)
    requires forall i: nat :: i < n ==> p(i)
    ensures Counted(p, n) == n
  {
    if n > 0 {
      CountAll(p, n - 1);
    }
  }

  /** Decodes with a cursor that moves past each field that is present. */
  method ParseGetImuData(payload: Payload) returns (data: Option<seq<Pattern>>)
    ensures data.Some? <==>
            |payload| >= 3 && payload[0] == 65 && |payload| >= 3 + 4 * |Present(payload, 16)|
    ensures data.Some? ==> |data.value| == 16 && forall i :: 0 <= i < 16 ==> HasField(payload, i, data.value[i])
    ensures data.Some? ==> forall i :: 0 <= i < 16 ==> IsField(payload, i, data.value[i])
  {
    if |payload| < 3 {
      return None;
    }
    FieldsByMask(payload, 0, 0);
    if payload[0] != Scheduling.GET_IMU {
      return None;
    }
    var mask := MaskOf(payload);
    var fieldCount := Before(mask, FIELDS);
    if |payload| < 3 + fieldCount * 4 {
      return None;
    }
    var p := 3;
    var fields: seq<Pattern> := [];
    for i := 0 to FIELDS
      invariant |fields| == i
      invariant p == 3 + 4 * Before(mask, i)
      invariant forall j :: 0 <= j < i ==> HasField(payload, j, fields[j])
    {
      BeforeGrows(mask, i, FIELDS);
      if Bit(mask, i) {
        fields := fields + [ReadPattern(payload[p..p + 4])];
        p := p + 4;
      } else {
        fields := fields + [Default(i)];
      }
    }
    data := Some(fields);
    forall i | 0 <= i < 16
      ensures IsField(payload, i, fields[i])
    {
      assert HasField(payload, i, fields[i]);
      FieldsByMask(payload, i, fields[i]);
    }
  }

  // ---- Encoding ---------------------------------------------------------------------------

  /** The words of the fields below `n` that are present. */
  function Words(mask: nat, fields: seq<Pattern>, n: nat): (bytes: seq<Byte>)
    requires n <= |fields|
    ensures |bytes| == 4 * Before(mask, n)
  {
    if n == 0 then []
    else Words(mask, fields, n - 1) + if Bit(mask, n - 1) then BigEndian(4, fields[n - 1]) else []
  }

  function Encode(mask: nat, fields: seq<Pattern>): Payload
    requires mask < 0x1_0000 && |fields| == FIELDS
  {
    [Scheduling.GET_IMU] + BigEndian(2, mask) + Words(mask, fields, FIELDS)
  }

  lemma {:induction false} WordAt(mask: nat, fields: seq<Pattern>, i: nat, n: nat)
    requires i < n <= |fields| && Bit(mask, i)
    ensures Before(mask, i) < Before(mask, n)
    ensures Words(mask, fields, n)[4 * Before(mask, i)..4 * Before(mask, i) + 4] == BigEndian(4, fields[i])
    decreases n
  {
    BeforeGrows(mask, i, n);
    if i < n - 1 {
      WordAt(mask, fields, i, n - 1);
      var last := if Bit(mask, n - 1) then BigEndian(4, fields[n - 1]) else [];
      SliceOfFront(Words(mask, fields, n - 1), last, 4 * Before(mask, i), 4);
    } else {
      BackOf(Words(mask, fields, i), BigEndian(4, fields[i]));
    }
  }

  lemma SliceOfFront(front: seq<Byte>, back: seq<Byte>, at: nat, n: nat)
    requires at + n <= |front|
    ensures (front + back)[at..at + n] == front[at..at + n]
  {}

  lemma BackOf(front: seq<Byte>, back: seq<Byte>)
    ensures (front + back)[|front|..|front| + |back|] == back
  {}

  lemma EncodedMask(mask: nat, fields: seq<Pattern>, more: seq<Byte>)
    requires mask < 0x1_0000 && |fields| == FIELDS
    ensures IsSample(Encode(mask, fields) + more) && MaskOf(Encode(mask, fields) + more) == mask
  {
    FourBytes();
    ValueOfField(2, mask);
    assert (Encode(mask, fields) + more)[1..3] == BigEndian(2, mask);
  }

  lemma EncodedWord(mask: nat, fields: seq<Pattern>, more: seq<Byte>, i: nat)
    requires mask < 0x1_0000 && |fields| == FIELDS && i < FIELDS && Bit(mask, i)
    ensures var payload, at := Encode(mask, fields) + more, 3 + 4 * Before(mask, i);
            at + 4 <= |payload| && payload[at..at + 4] == BigEndian(4, fields[i])
  {
    WordAt(mask, fields, i, FIELDS);
    SliceInside([Scheduling.GET_IMU] + BigEndian(2, mask), Words(mask, fields, FIELDS), more, 4 * Before(mask, i), 4);
  }

  lemma SliceInside(head: seq<Byte>, middle: seq<Byte>, more: seq<Byte>, at: nat, n: nat)
    requires at + n <= |middle|
    ensures var whole, from := head + middle + more, |head| + at;
            from + n <= |whole| && whole[from..from + n] == middle[at..at + n]
  {}

  predicate Holds(payload: Payload, present: bool, at: nat, bytes: seq<Byte>) {
    present ==> at + 4 <= |payload| && payload[at..at + 4] == bytes
  }

  /** The word of field `i` is there if it is present. */
  predicate HoldsField(payload: Payload, mask: nat, i: nat, bytes: seq<Byte>) {
    Holds(payload, Bit(mask, i), 3 + 4 * Before(mask, i), bytes)
  }

  lemma EncodedField(mask: nat, fields: seq<Pattern>, more: seq<Byte>, i: nat)
    requires mask < 0x1_0000 && |fields| == FIELDS && i < FIELDS
    ensures HoldsField(Encode(mask, fields) + more, mask, i, BigEndian(4, fields[i]))
  {
    if Bit(mask, i) {
      EncodedWord(mask, fields, more, i);
    }
  }

  /** Decoding inverts encoding: present fields come back, absent ones take their defaults, and
      bytes beyond the last field do not matter. */
  lemma DecodesWhatWasEncoded(mask: nat, fields: seq<Pattern>, more: seq<Byte>, i: nat, w: Pattern)
    requires mask < 0x1_0000 && |fields| == FIELDS && i < FIELDS
    ensures IsSample(Encode(mask, fields) + more)
    ensures HasField(Encode(mask, fields) + more, i, w) <==> w == if Bit(mask, i) then fields[i] else Default(i)
  {
    EncodedMask(mask, fields, more);
    EncodedField(mask, fields, more, i);
    PatternOfField(fields[i]);
    FieldReads(Encode(mask, fields) + more, mask, i, BigEndian(4, fields[i]), w);
  }

  lemma WordReads(payload: Payload, present: bool, at: nat, otherwise: Pattern, bytes: seq<Byte>, w: Pattern)
    requires |bytes| == 4 && Holds(payload, present, at, bytes)
    ensures Reads(payload, present, at, otherwise, w) <==> w == if present then ReadPattern(bytes) else otherwise
  {}

  lemma FieldReads(payload: Payload, mask: nat, i: nat, bytes: seq<Byte>, w: Pattern)
    requires |bytes| == 4 && HoldsField(payload, mask, i, bytes)
    ensures FieldOf(payload, mask, i, w) <==> w == if Bit(mask, i) then ReadPattern(bytes) else Default(i)
  {
    WordReads(payload, Bit(mask, i), 3 + 4 * Before(mask, i), Default(i), bytes, w);
  }

  lemma PatternOfField(w: Pattern)
    ensures ReadPattern(BigEndian(4, w)) == w
  {
    FourBytes();
    ValueOfField(4, w);
  }

  /** Every present field below `n` is read from its place in `bytes`. */
  ghost predicate ReadsAll(mask: nat, bytes: seq<Byte>, fields: seq<Pattern>, n: nat)
    requires n <= |fields|
  {
    forall i :: 0 <= i < n && Bit(mask, i) ==> ReadsWord(bytes, 4 * Before(mask, i), fields[i])
  }

  predicate ReadsWord(bytes: seq<Byte>, at: nat, w: Pattern) {
    at + 4 <= |bytes| && w == ReadPattern(bytes[at..at + 4])
  }

  lemma {:induction false} WordsReadBack(mask: nat, bytes: seq<Byte>, fields: seq<Pattern>, n: nat)
    requires n <= |fields| && ReadsAll(mask, bytes, fields, n)
    ensures 4 * Before(mask, n) <= |bytes| && bytes[..4 * Before(mask, n)] == Words(mask, fields, n)
  {
    if n > 0 {
      WordsReadBack(mask, bytes, fields, n - 1);
      var at := 4 * Before(mask, n - 1);
      if Bit(mask, n - 1) {
        assert ReadsWord(bytes, at, fields[n - 1]);
        FieldOfPattern(bytes[at..at + 4], fields[n - 1]);
        SplitSlice(bytes, 0, at, at + 4);
      }
    }
  }

  lemma SplitSlice(s: seq<Byte>, i: nat, j: nat, k: nat)
    requires i <= j <= k <= |s|
    ensures s[i..k] == s[i..j] + s[j..k]
  {}

  lemma FieldOfPattern(bytes: seq<Byte>, w: Pattern)
    requires |bytes| == 4 && w == ReadPattern(bytes)
    ensures BigEndian(4, w) == bytes
  {
    FieldOfValue(bytes);
  }

  /** A sample is the encoding of what is decoded from it, and bytes that are ignored. */
  lemma SampleIsEncoding(payload: Payload, fields: seq<Pattern>)
    requires IsSample(payload) && |fields| == FIELDS
    requires forall i :: 0 <= i < FIELDS ==> HasField(payload, i, fields[i])
    ensures MaskOf(payload) < 0x1_0000 && Encode(MaskOf(payload), fields) <= payload
  {
    var mask, bytes := MaskOf(payload), payload[3..];
    forall i | 0 <= i < FIELDS && Bit(mask, i)
      ensures ReadsWord(bytes, 4 * Before(mask, i), fields[i])
    {
      var at := 4 * Before(mask, i);
      assert HasField(payload, i, fields[i]);
      assert bytes[at..at + 4] == payload[3 + at..3 + at + 4];
    }
    WordsReadBack(mask, bytes, fields, FIELDS);
    FieldOfValue(payload[1..3]);
    FourBytes();
    HeadAndBody(payload, 4 * Before(mask, FIELDS));
  }

  lemma HeadAndBody(payload: Payload, n: nat)
    requires 3 + n <= |payload|
    ensures payload[..3 + n] == [payload[0]] + payload[1..3] + payload[3..][..n]
  {}
}
