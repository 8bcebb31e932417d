/**
 Packet framing. A payload of 1 to 512 bytes travels as a start byte (2 with a one-byte length,
 3 with a two-byte length), the length, the payload, its CRC and the stop byte 3.

 `TryDecode` is the decision the receiver takes about the head of its buffer. The two sides are
 tied together by `DecodesExactlyFrames`: a decision is a success for exactly those buffers that
 begin with a frame.
 */
module Framing {
  import opened Checksums

  type Payload = seq<Byte>

  const MAX_PAYLOAD: nat := 512
  const SHORT: Byte := 2
  const LONG: Byte := 3
  const STOP: Byte := 3

  predicate ValidPayload(p: Payload) {
    1 <= |p| <= MAX_PAYLOAD
  }

  function Header(length: nat): (h: seq<Byte>)
    requires 1 <= length <= MAX_PAYLOAD
  {
    if length <= 255 then [SHORT, length] else [LONG, length / 256, length % 256]
  }

  /** Payload followed by its CRC. */
  function Checked(p: Payload): (body: seq<Byte>)
    ensures |body| == |p| + 2
  {
    p + Bytes(Crc(p))
  }

  function Wrap(length: nat, body: seq<Byte>, stop: Byte): seq<Byte>
    requires 1 <= length <= MAX_PAYLOAD
  {
    Header(length) + body + [stop]
  }

  /** Payloads outside 1..512 bytes have no frame. */
  function Frame(p: Payload): seq<Byte> {
    if ValidPayload(p) then Wrap(|p|, Checked(p), STOP) else []
  }

  // ---- Decoding the head of a buffer ------------------------------------------------------

  /** What the first bytes of a buffer announce. */
  datatype Announcement = Incomplete | Unsupported | Declares(start: nat, length: nat)

  function ReadHeader(buf: seq<Byte>): (a: Announcement)
    ensures a.Declares? ==> 2 <= a.start <= 3 && 1 <= a.length <= MAX_PAYLOAD && a.start <= |buf|
  {
    if |buf| == 0 then Incomplete
    else if buf[0] == SHORT then
      if |buf| < 2 then Incomplete
      else if buf[1] < 1 then Unsupported
      else Declares(2, buf[1])
    else if buf[0] == LONG then
      if |buf| < 3 then Incomplete
      else
        var length := (buf[1] as int) * 256 + buf[2] as int;
        if length <= 255 || length > MAX_PAYLOAD then Unsupported else Declares(3, length)
    else Unsupported
  }

  datatype Decision =
    | Success(payload: Payload, size: nat)
    | NeedMoreData
    | InvalidHeader
    | InvalidPacket(size: nat)

  /** The verdict on a whole packet: first the stop byte, then the CRC. */
  function Verdict(payload: Payload, check: seq<Byte>, stop: Byte, total: nat): Decision {
    if stop != STOP then InvalidPacket(total)
    else if check != Bytes(Crc(payload)) then InvalidPacket(total)
    else Success(payload, total)
  }

  function TryDecode(buf: seq<Byte>): (d: Decision)
    ensures d.Success? ==> 6 <= d.size <= |buf| && ValidPayload(d.payload)
    ensures d.InvalidPacket? ==> 6 <= d.size <= |buf|
  {
    match ReadHeader(buf)
    case Incomplete => NeedMoreData
    case Unsupported => InvalidHeader
    case Declares(start, length) =>
      var total := start + length + 3;
      if |buf| < total then NeedMoreData
      else
        var k := start + length;
        Verdict(buf[start..k], buf[k..k + 2], buf[k + 2], total)
  }

  lemma HeaderAnnounces(length: nat, rest: seq<Byte>)
    requires 1 <= length <= MAX_PAYLOAD
    ensures ReadHeader(Header(length) + rest) == Declares(|Header(length)|, length)
  {}

  lemma AnnouncementIsHeader(buf: seq<Byte>)
    requires ReadHeader(buf).Declares?
    ensures |Header(ReadHeader(buf).length)| == ReadHeader(buf).start
    ensures buf[..ReadHeader(buf).start] == Header(ReadHeader(buf).length)
  {}

  lemma WrappedParts(header: seq<Byte>, body: seq<Byte>, stop: Byte, length: nat)
    requires |body| == length + 2
    ensures var buf, start := header + body + [stop], |header|;
            && |buf| == start + length + 3
            && buf[start + length + 2] == stop
            && buf[start..start + length] == body[..length]
            && buf[start + length..start + length + 2] == body[length..]
  {}

  lemma CheckIsResidue(body: seq<Byte>, length: nat)
    requires |body| == length + 2
    ensures body[length..] == Bytes(Crc(body[..length])) <==> Crc(body) == Zeros(16)
  {
    assert body == body[..length] + body[length..];
    ZeroResidue(body[..length], body[length..]);
  }

  lemma WrapAnnounces(length: nat, body: seq<Byte>, stop: Byte)
    requires 1 <= length <= MAX_PAYLOAD
    ensures ReadHeader(Wrap(length, body, stop)) == Declares(|Header(length)|, length)
  {
    assert Wrap(length, body, stop) == Header(length) + (body + [stop]);
    HeaderAnnounces(length, body + [stop]);
  }

  /** A wrapped body is accepted exactly when the stop byte is in place and its residue is zero. */
  lemma DecodeWrapped(length: nat, body: seq<Byte>, stop: Byte)
    requires 1 <= length <= MAX_PAYLOAD && |body| == length + 2
    ensures var buf := Wrap(length, body, stop);
            TryDecode(buf) == if stop == STOP && Crc(body) == Zeros(16) then Success(body[..length], |buf|)
                              else InvalidPacket(|buf|)
  {
    WrapAnnounces(length, body, stop);
    WrappedParts(Header(length), body, stop, length);
    CheckIsResidue(body, length);
  }

  lemma CheckedResidue(p: Payload)
    ensures Crc(Checked(p)) == Zeros(16) && Checked(p)[..|p|] == p
  {
    ZeroResidue(p, Bytes(Crc(p)));
  }

  lemma FrameDecodes(p: Payload)
    requires ValidPayload(p)
    ensures TryDecode(Frame(p)) == Success(p, |Frame(p)|)
  {
    CheckedResidue(p);
    DecodeWrapped(|p|, Checked(p), STOP);
  }

  lemma FrameIsSuccess(p: Payload, rest: seq<Byte>)
    requires ValidPayload(p)
    ensures TryDecode(Frame(p) + rest) == Success(p, |Frame(p)|)
  {
    FrameDecodes(p);
    DecisionStable(Frame(p), rest);
  }

  lemma Reassemble(buf: seq<Byte>, start: nat, length: nat)
    requires start + length + 3 <= |buf|
    ensures var k := start + length;
            buf[..k + 3] == buf[..start] + (buf[start..k] + buf[k..k + 2]) + [buf[k + 2]]
  {}

  /** A buffer that holds header, payload, CRC and stop byte in their places begins with a frame. */
  lemma FrameOfCut(buf: seq<Byte>, start: nat, length: nat)
    requires start + length + 3 <= |buf| && 1 <= length <= MAX_PAYLOAD && buf[..start] == Header(length)
    requires buf[start + length..start + length + 2] == Bytes(Crc(buf[start..start + length]))
    requires buf[start + length + 2] == STOP
    ensures Frame(buf[start..start + length]) == buf[..start + length + 3]
  {
    var k := start + length;
    FrameUnfolds(buf[start..k]);
    CutJoins(buf, start, length, buf[k..k + 2]);
  }

  lemma FrameUnfolds(p: Payload)
    requires ValidPayload(p)
    ensures Frame(p) == Wrap(|p|, p + Bytes(Crc(p)), STOP)
  {}

  lemma CutJoins(buf: seq<Byte>, start: nat, length: nat, check: seq<Byte>)
    requires start + length + 3 <= |buf| && 1 <= length <= MAX_PAYLOAD && buf[..start] == Header(length)
    requires check == buf[start + length..start + length + 2] && buf[start + length + 2] == STOP
    ensures |buf[start..start + length]| == length
    ensures Wrap(length, buf[start..start + length] + check, STOP) == buf[..start + length + 3]
  {
    Reassemble(buf, start, length);
  }

  lemma SuccessIsFrame(buf: seq<Byte>)
    requires TryDecode(buf).Success?
    ensures ValidPayload(TryDecode(buf).payload)
    ensures Frame(TryDecode(buf).payload) == buf[..TryDecode(buf).size]
  {
    var a := ReadHeader(buf);
    AnnouncementIsHeader(buf);
    FrameOfCut(buf, a.start, a.length);
  }

  /** The buffer begins with the `n` bytes of `f`. */
  predicate BeginsWith(buf: seq<Byte>, f: seq<Byte>, n: nat) {
    n == |f| && n <= |buf| && buf[..n] == f
  }

  /** The decoder accepts a prefix exactly when it is a frame, and reads back what was framed. */
  lemma DecodesExactlyFrames(buf: seq<Byte>, p: Payload, n: nat)
    ensures TryDecode(buf) == Success(p, n) <==>
            ValidPayload(p) && BeginsWith(buf, Frame(p), n)
  {
    if TryDecode(buf) == Success(p, n) {
      SuccessIsFrame(buf);
      SizeOfPrefix(buf, n, Frame(p));
    }
    if BeginsWith(buf, Frame(p), n) && ValidPayload(p) {
      PrefixDecodes(buf, p);
    }
  }

  lemma SizeOfPrefix(buf: seq<Byte>, n: nat, f: seq<Byte>)
    requires n <= |buf| && f == buf[..n]
    ensures BeginsWith(buf, f, n)
  {}

  lemma PrefixDecodes(buf: seq<Byte>, p: Payload)
    requires ValidPayload(p) && Frame(p) <= buf
    ensures TryDecode(buf) == Success(p, |Frame(p)|)
  {
    var rest := buf[|Frame(p)|..];
    assert buf == Frame(p) + rest;
    FrameIsSuccess(p, rest);
  }

  /** Framing is injective, and no frame is a proper prefix of another. */
  lemma FramesPrefixFree(p: Payload, q: Payload, rest: seq<Byte>)
    requires ValidPayload(p) && ValidPayload(q) && Frame(p) + rest == Frame(q)
    ensures p == q && rest == []
  {
    FrameIsSuccess(p, rest);
    FrameDecodes(q);
  }

  lemma SliceStable(buf: seq<Byte>, more: seq<Byte>, i: nat, j: nat)
    requires i <= j <= |buf|
    ensures (buf + more)[i..j] == buf[i..j]
  {}

  lemma HeaderStable(buf: seq<Byte>, more: seq<Byte>)
    requires !ReadHeader(buf).Incomplete?
    ensures ReadHeader(buf + more) == ReadHeader(buf)
  {}

  /** A decision, once taken, is not changed by bytes that arrive later. */
  lemma DecisionStable(buf: seq<Byte>, more: seq<Byte>)
    requires !TryDecode(buf).NeedMoreData?
    ensures TryDecode(buf + more) == TryDecode(buf)
  {
    HeaderStable(buf, more);
    var a := ReadHeader(buf);
    if a.Declares? {
      var k := a.start + a.length;
      SliceStable(buf, more, a.start, k);
      SliceStable(buf, more, k, k + 2);
      assert (buf + more)[k + 2] == buf[k + 2];
    }
  }
}
