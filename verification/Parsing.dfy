/**
 The resynchronising receiver. `PacketParser` is the byte-at-a-time machine of the source;
 `Scan` is a greedy scan of a whole stream. The methods are proved to compute the scan of
 everything fed so far.
 */
module Parsing {
  import opened Checksums
  import opened Framing
  import opened Scanning
  import opened Wrappers

  type Received = Scanned<Byte, Payload>

  predicate IsStart(b: Byte) {
    b == SHORT || b == LONG
  }

  /** The receiver's reaction to the head of a stream. */
  function NextMove(s: seq<Byte>): Move<Payload> {
    if s == [] then Stop
    else if !IsStart(s[0]) then Go(1, [])
    else
      match TryDecode(s)
      case Success(p, n) => Go(n, [p])
      case NeedMoreData => Stop
      case InvalidHeader => Go(1, [])
      case InvalidPacket(n) => Go(n, [])
  }

  function Scan(s: seq<Byte>): Received {
    ScanBy(NextMove, s)
  }

  /** Discarding what the receiver would discard does not change what is delivered. */
  lemma DiscardedFirst(s: seq<Byte>, n: nat)
    requires 1 <= n <= |s| && NextMove(s) == Go(n, [])
    ensures Scan(s) == Scan(s[n..])
  {
    assert [] + Scan(s[n..]).items == Scan(s[n..]).items;
  }

  lemma DeliveredWhole(s: seq<Byte>, p: Payload)
    requires s != [] && NextMove(s) == Go(|s|, [p])
    ensures Scan(s) == Scanned([p], [])
  {
    assert s[|s|..] == [];
    assert Scan([]) == Scanned([], []);
  }

  lemma MoveStable(s: seq<Byte>, t: seq<Byte>)
    requires Goes(NextMove(s), s)
    ensures NextMove(s + t) == NextMove(s)
  {
    if IsStart(s[0]) {
      DecisionStable(s, t);
    }
  }

  lemma NextMoveStable()
    ensures Stable(NextMove)
  {
    forall s: seq<Byte>, t: seq<Byte> | Goes(NextMove(s), s)
      ensures NextMove(s + t) == NextMove(s)
    {
      MoveStable(s, t);
    }
  }

  /** A buffer at rest: empty, or a start byte whose packet cannot be judged yet. */
  predicate AtRest(buf: seq<Byte>) {
    buf == [] || (IsStart(buf[0]) && TryDecode(buf) == NeedMoreData)
  }

  lemma AtRestIffUndecided(buf: seq<Byte>)
    ensures AtRest(buf) <==> !Goes(NextMove(buf), buf)
  {}

  /** The receiver never holds more than one byte less than the longest frame. */
  lemma AtRestIsShort(buf: seq<Byte>)
    requires AtRest(buf)
    ensures |buf| <= 517
  {
    var a := ReadHeader(buf);
  }

  /** Nothing is left over when a packet is judged: the byte that completes it is its last. */
  lemma DecidedWhole(buf: seq<Byte>, b: Byte)
    requires AtRest(buf)
    ensures var d := TryDecode(buf + [b]);
            && (d.Success? || d.InvalidPacket? ==> d.size == |buf| + 1)
            && (d.InvalidHeader? ==> |buf| <= 2)
  {
    SizeIsAnnounced(buf + [b]);
    if buf != [] {
      UndecidedIsShort(buf);
    }
    WholeByHeader(buf, b);
  }

  /** How long the packet at the head of the buffer is, once it is announced. */
  function Announced(buf: seq<Byte>): nat {
    var a := ReadHeader(buf);
    if a.Declares? then a.start + a.length + 3 else 0
  }

  lemma SizeIsAnnounced(buf: seq<Byte>)
    ensures var d := TryDecode(buf);
            && (d.Success? || d.InvalidPacket? ==>
                  ReadHeader(buf).Declares? && d.size == Announced(buf) && Announced(buf) <= |buf|)
            && (d.InvalidHeader? <==> ReadHeader(buf).Unsupported?)
  {}

  lemma UndecidedIsShort(buf: seq<Byte>)
    requires TryDecode(buf) == NeedMoreData
    ensures ReadHeader(buf).Incomplete? || (ReadHeader(buf).Declares? && |buf| < Announced(buf))
  {}

  lemma WholeByHeader(buf: seq<Byte>, b: Byte)
    requires buf == [] || ReadHeader(buf).Incomplete? || (ReadHeader(buf).Declares? && |buf| < Announced(buf))
    ensures ReadHeader(buf + [b]).Declares? && Announced(buf + [b]) <= |buf| + 1 ==> Announced(buf + [b]) == |buf| + 1
    ensures ReadHeader(buf + [b]).Unsupported? ==> |buf| <= 2
  {
    if !ReadHeader(buf).Incomplete? {
      HeaderStable(buf, [b]);
    }
  }

  /** Scanning may stop anywhere and resume from the undecided bytes. */
  lemma ScanResumes(s: seq<Byte>, t: seq<Byte>)
    ensures Scan(s + t) == Scan(Scan(s).rest + t).After(Scan(s).items)
    ensures AtRest(Scan(s).rest)
  {
    NextMoveStable();
    Resumes(NextMove, s, t);
    EndsUndecided(NextMove, s);
    AtRestIffUndecided(Scan(s).rest);
  }

  lemma ScanExtends(start: seq<Byte>, bytes: seq<Byte>, k: nat)
    requires k < |bytes|
    ensures var so := Scan(start + bytes[..k]);
            Scan(start + bytes[..k + 1]) == Scan(so.rest + [bytes[k]]).After(so.items)
  {
    assert start + bytes[..k + 1] == (start + bytes[..k]) + [bytes[k]];
    ScanResumes(start + bytes[..k], [bytes[k]]);
  }

  /** Byte by byte, a receiver at rest delivers and keeps what a scan of the whole stream does. */
  lemma ByteByByteIsScan(buf: seq<Byte>, bytes: seq<Byte>)
    requires AtRest(buf)
    ensures FeedEach(NextMove, buf, bytes) == Scan(buf + bytes)
  {
    NextMoveStable();
    AtRestIffUndecided(buf);
    FeedEachIsScan(NextMove, buf, bytes);
  }

  /** A packet that can be judged fills the buffer, and an unsupported header is all there is of it. */
  predicate JudgedWhole(buf: seq<Byte>) {
    var d := TryDecode(buf);
    |buf| <= 2 || ((buf != [] ==> IsStart(buf[0])) &&
                   (d.Success? || d.InvalidPacket? ==> d.size == |buf|) && (d.InvalidHeader? ==> |buf| <= 3))
  }

  lemma WholeAtFirst(buf: seq<Byte>, b: Byte)
    requires AtRest(buf)
    ensures JudgedWhole(buf + [b])
  {
    DecidedWhole(buf, b);
  }

  lemma SkipKeeps(buf: seq<Byte>)
    requires buf != [] && !IsStart(buf[0]) && JudgedWhole(buf)
    ensures Scan(buf) == Scan(buf[1..]) && JudgedWhole(buf[1..])
  {
    DiscardedFirst(buf, 1);
  }

  /** What each decision means for the scan of the buffer. */
  lemma Judged(buf: seq<Byte>)
    requires buf != [] && IsStart(buf[0]) && JudgedWhole(buf)
    ensures match TryDecode(buf)
            case Success(p, n) => n == |buf| && Scan(buf) == Scanned([p], [])
            case NeedMoreData => AtRest(buf) && Scan(buf) == Scanned([], buf)
            case InvalidHeader => Scan(buf) == Scan(buf[1..]) && JudgedWhole(buf[1..])
            case InvalidPacket(n) => n == |buf| && Scan(buf) == Scan([])
  {
    match TryDecode(buf)
    case Success(p, _) => DeliveredWhole(buf, p);
    case NeedMoreData =>
    case InvalidHeader => DiscardedFirst(buf, 1);
    case InvalidPacket(n) =>
      assert buf[n..] == [];
      DiscardedFirst(buf, n);
  }

  // ---- The receiver of the source ---------------------------------------------------------

  class PacketParser {
    var buffer: seq<Byte>

    ghost predicate Valid()
      reads this
    {
      AtRest(buffer)
    }

    constructor ()
      ensures Valid() && buffer == []
    {
      buffer := [];
    }

    method Reset()
      modifies this
      ensures Valid() && buffer == []
    {
      buffer := [];
    }

    /** At most one payload per byte; afterwards the buffer is at rest again. */
    method FeedByte(b: Byte) returns (r: Option<Payload>)
      requires Valid()
      modifies this
      ensures Valid()
      ensures Scan(old(buffer) + [b]) == Scanned(if r.None? then [] else [r.value], buffer)
      ensures r.Some? ==> buffer == []
    {
      buffer := buffer + [b];
      ghost var fed := buffer;
      WholeAtFirst(old(buffer), b);
      while true
        invariant Scan(buffer) == Scan(fed) && JudgedWhole(buffer)
        decreases |buffer|
      {
        ghost var size := |buffer|;
        while buffer != [] && buffer[0] != 2 && buffer[0] != 3
          invariant Scan(buffer) == Scan(fed) && JudgedWhole(buffer)
          invariant |buffer| <= size
        {
          SkipKeeps(buffer);
          buffer := buffer[1..];
        }
        if buffer == [] {
          return None;
        }
        Judged(buffer);
        var d := TryDecode(buffer);
        if d.Success? {
          buffer := buffer[d.size..];
          return Some(d.payload);
        }
        if d.NeedMoreData? {
          return None;
        }
        if d.InvalidHeader? {
          buffer := buffer[1..];
        } else {
          buffer := buffer[d.size..];
        }
        if buffer == [] {
          return None;
        }
      }
    }

    /** Feeding a batch delivers exactly what a scan of buffer and batch delivers. */
    method FeedBytes(bytes: seq<Byte>) returns (out: seq<Payload>)
      requires Valid()
      modifies this
      ensures Valid()
      ensures Scan(old(buffer) + bytes) == Scanned(out, buffer)
    {
      out := [];
      assert old(buffer) + bytes[..0] == old(buffer);
      for k := 0 to |bytes|
        invariant Valid()
        invariant Scan(old(buffer) + bytes[..k]) == Scanned(out, buffer)
      {
        ScanExtends(old(buffer), bytes, k);
        var payload := FeedByte(bytes[k]);
        out := if payload.Some? then out + [payload.value] else out;
      }
      assert bytes[..|bytes|] == bytes;
    }
  }
}
