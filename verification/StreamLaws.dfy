/**
 What the receiver delivers from streams: intact frames, damaged frames, truncated tails and
 quiet gaps. All are laws of `Scan`, which the receiver computes (`Parsing.PacketParser`).
 */
module StreamLaws {
  import opened Checksums
  import opened Framing
  import opened Scanning
  import opened Parsing

  // ---- No byte is lost or used twice ------------------------------------------------------

  /** A piece of the stream is a whole frame and delivers its payload, or delivers nothing. */
  predicate FrameOrDiscarded(g: Segment<Byte, Payload>) {
    g.delivered == [] || (|g.delivered| == 1 && ValidPayload(g.delivered[0]) && g.source == Frame(g.delivered[0]))
  }

  lemma MoveDeliversFrames(s: seq<Byte>)
    requires Goes(NextMove(s), s)
    ensures FrameOrDiscarded(Segment(s[..NextMove(s).size], NextMove(s).delivered))
  {
    if IsStart(s[0]) && TryDecode(s).Success? {
      SuccessIsFrame(s);
    }
  }

  /** Every stream is, in order, discarded bytes and whole frames, then the undecided rest; the
      payloads of those frames are what is delivered. */
  lemma ScanPartitions(s: seq<Byte>)
    ensures s == Sources(Segments(NextMove, s)) + Scan(s).rest
    ensures Scan(s).items == Items(Segments(NextMove, s))
    ensures forall i :: 0 <= i < |Segments(NextMove, s)| ==> FrameOrDiscarded(Segments(NextMove, s)[i])
  {
    SegmentsPartition(NextMove, s);
    var segments := Segments(NextMove, s);
    forall i | 0 <= i < |segments|
      ensures FrameOrDiscarded(segments[i])
    {
      var at := SegmentIsMove(NextMove, s, i);
      MoveDeliversFrames(at);
    }
  }

  // ---- Intact and damaged frames ----------------------------------------------------------

  /** What the line makes of one framed payload: the header as sent, then `body` and `stop`. */
  datatype Arrival = Arrival(payload: Payload, body: seq<Byte>, stop: Byte)

  predicate IsIntact(a: Arrival) {
    a.body == Checked(a.payload) && a.stop == STOP
  }

  /** An arrival is intact, or its stop byte is altered (payload and CRC may be altered too), or
      payload and CRC are altered within 16 consecutive bits. */
  ghost predicate WellFormed(a: Arrival) {
    && ValidPayload(a.payload)
    && |a.body| == |a.payload| + 2
    && (a.stop == STOP ==> InBurst(Checked(a.payload), a.body))
  }

  ghost predicate InBurst(sent: seq<Byte>, received: seq<Byte>) {
    exists at: nat, size: nat :: size <= 16 && DifferWithin(Message(sent), Message(received), at, size)
  }

  lemma MessageSplit(a: seq<Byte>, at: nat)
    requires at + 2 <= |a|
    ensures Message(a)[..8 * at] == Message(a[..at])
    ensures Message(a)[8 * at + 16..] == Message(a[at + 2..])
  {
    SplitMessage(a, at);
    SplitMessage(a, at + 2);
  }

  lemma SplitMessage(a: seq<Byte>, at: nat)
    requires at <= |a|
    ensures Message(a)[..8 * at] == Message(a[..at]) && Message(a)[8 * at..] == Message(a[at..])
  {
    assert a == a[..at] + a[at..];
    MessageConcat(a[..at], a[at..]);
    FrontBack(Message(a[..at]), Message(a[at..]));
  }

  lemma FrontBack(v: Bits, w: Bits)
    ensures (v + w)[..|v|] == v && (v + w)[|v|..] == w
  {}

  /** In particular, any change to one byte or to two adjacent bytes is a burst. */
  lemma AdjacentBytesInBurst(sent: seq<Byte>, received: seq<Byte>, at: nat)
    requires |sent| == |received| && at + 2 <= |sent|
    requires sent[..at] == received[..at] && sent[at + 2..] == received[at + 2..]
    ensures InBurst(sent, received)
  {
    MessageSplit(sent, at);
    MessageSplit(received, at);
    assert DifferWithin(Message(sent), Message(received), 8 * at, 16);
  }

  function BytesOn(a: Arrival): seq<Byte> {
    if ValidPayload(a.payload) then Wrap(|a.payload|, a.body, a.stop) else []
  }

  function DeliveredBy(a: Arrival): seq<Payload> {
    if IsIntact(a) then [a.payload] else []
  }

  lemma ArrivalDecided(a: Arrival)
    requires WellFormed(a)
    ensures TryDecode(BytesOn(a)) ==
            if IsIntact(a) then Success(a.payload, |BytesOn(a)|) else InvalidPacket(|BytesOn(a)|)
  {
    var p := a.payload;
    CheckedResidue(p);
    DecodeWrapped(|p|, a.body, a.stop);
    if a.stop == STOP && Crc(a.body) == Zeros(16) {
      var at: nat, size: nat :| size <= 16 && DifferWithin(Message(Checked(p)), Message(a.body), at, size);
      BurstDetected(Checked(p), a.body, at, size);
    }
  }

  lemma DecidedThenScan(bytes: seq<Byte>, rest: seq<Byte>)
    requires bytes != [] && IsStart(bytes[0])
    requires var d := TryDecode(bytes); (d.Success? || d.InvalidPacket?) && d.size == |bytes|
    ensures var d := TryDecode(bytes);
            Scan(bytes + rest) == Scan(rest).After(if d.Success? then [d.payload] else [])
  {
    DecisionStable(bytes, rest);
    assert (bytes + rest)[|bytes|..] == rest;
  }

  lemma ArrivalThenScan(a: Arrival, rest: seq<Byte>)
    requires WellFormed(a)
    ensures Scan(BytesOn(a) + rest) == Scan(rest).After(DeliveredBy(a))
  {
    ArrivalDecided(a);
    assert BytesOn(a)[0] == Header(|a.payload|)[0];
    DecidedThenScan(BytesOn(a), rest);
  }

  function Line(arrivals: seq<Arrival>): seq<Byte> {
    Join(seq(|arrivals|, i requires 0 <= i < |arrivals| => BytesOn(arrivals[i])))
  }

  function IntactPayloads(arrivals: seq<Arrival>): seq<Payload> {
    Join(seq(|arrivals|, i requires 0 <= i < |arrivals| => DeliveredBy(arrivals[i])))
  }

  /** Damage costs the damaged frames and nothing else: whatever precedes the damage and whatever
      follows it is delivered. */
  lemma DamageIsContained(arrivals: seq<Arrival>, rest: seq<Byte>)
    requires forall i :: 0 <= i < |arrivals| ==> WellFormed(arrivals[i])
    ensures Scan(Line(arrivals) + rest) == Scan(rest).After(IntactPayloads(arrivals))
  {
    var pieces := seq(|arrivals|, i requires 0 <= i < |arrivals| => BytesOn(arrivals[i]));
    var parts := seq(|arrivals|, i requires 0 <= i < |arrivals| => DeliveredBy(arrivals[i]));
    forall i, t | 0 <= i < |pieces|
      ensures Scan(pieces[i] + t) == Scan(t).After(parts[i])
    {
      ArrivalThenScan(arrivals[i], t);
    }
    PiecesCompose(Scan, pieces, parts, rest);
  }

  // ---- Whole frames and a truncated tail --------------------------------------------------

  lemma FrameThenScan(p: Payload, rest: seq<Byte>)
    requires ValidPayload(p)
    ensures Scan(Frame(p) + rest) == Scan(rest).After([p])
  {
    FrameDecodes(p);
    assert Frame(p)[0] == Header(|p|)[0];
    DecidedThenScan(Frame(p), rest);
  }

  function Framed(payloads: seq<Payload>): seq<seq<Byte>> {
    seq(|payloads|, i requires 0 <= i < |payloads| => Frame(payloads[i]))
  }

  function Frames(payloads: seq<Payload>): seq<Byte> {
    Join(Framed(payloads))
  }

  lemma FramesAppend(payloads: seq<Payload>, p: Payload)
    ensures Frames(payloads + [p]) == Frames(payloads) + Frame(p)
  {
    assert Framed(payloads + [p]) == Framed(payloads) + [Frame(p)];
    JoinAppend(Framed(payloads), Frame(p));
  }

  /** Every concatenation of frames is read back, whatever follows it. */
  lemma FramesThenScan(payloads: seq<Payload>, rest: seq<Byte>)
    requires forall i :: 0 <= i < |payloads| ==> ValidPayload(payloads[i])
    ensures Scan(Frames(payloads) + rest) == Scan(rest).After(payloads)
  {
    var parts := seq(|payloads|, i requires 0 <= i < |payloads| => [payloads[i]]);
    forall i, t | 0 <= i < |payloads|
      ensures Scan(Framed(payloads)[i] + t) == Scan(t).After(parts[i])
    {
      FrameThenScan(payloads[i], t);
    }
    PiecesCompose(Scan, Framed(payloads), parts, rest);
    JoinSingles(payloads, parts);
  }

  lemma UnfinishedUndecided(p: Payload, n: nat)
    requires ValidPayload(p) && 0 < n < |Frame(p)|
    ensures IsStart(Frame(p)[..n][0]) && TryDecode(Frame(p)[..n]) == NeedMoreData
  {
    FrameDecodes(p);
    FrameStarts(p);
    CutUndecided(Frame(p), n);
  }

  lemma FrameStarts(p: Payload)
    requires ValidPayload(p)
    ensures Frame(p) != [] && IsStart(Frame(p)[0])
  {
    assert Frame(p)[0] == Header(|p|)[0];
  }

  /** What is decoded only as a whole is undecided when cut short. */
  lemma CutUndecided(f: seq<Byte>, n: nat)
    requires 0 < n < |f| && TryDecode(f).Success? && TryDecode(f).size == |f|
    ensures TryDecode(f[..n]) == NeedMoreData
  {
    var part, later := f[..n], f[n..];
    assert part + later == f;
    if TryDecode(part) != NeedMoreData {
      DecisionStable(part, later);
    }
  }

  /** An unfinished frame is held back: nothing is delivered from it and nothing of it is dropped. */
  lemma UnfinishedIsHeld(p: Payload, n: nat)
    requires ValidPayload(p) && n < |Frame(p)|
    ensures Scan(Frame(p)[..n]) == Scanned([], Frame(p)[..n])
  {
    if n > 0 {
      UnfinishedUndecided(p, n);
    }
  }

  /** A peer reading whole frames followed by a truncated one delivers exactly the whole ones. */
  lemma WholeFramesDelivered(payloads: seq<Payload>, p: Payload, n: nat)
    requires forall i :: 0 <= i < |payloads| ==> ValidPayload(payloads[i])
    requires ValidPayload(p) && n < |Frame(p)|
    ensures Scan(Frames(payloads) + Frame(p)[..n]) == Scanned(payloads, Frame(p)[..n])
  {
    FramesThenScan(payloads, Frame(p)[..n]);
    UnfinishedIsHeld(p, n);
    assert payloads + [] == payloads;
  }

  // ---- Stray bytes ------------------------------------------------------------------------

  /** Of what cannot begin a frame one byte is dropped at a time: a byte that is no start byte, and a start
      byte with a length that its form cannot have. */
  lemma StrayByteIsDropped(s: seq<Byte>)
    requires s != []
    requires
      || (s[0] != 2 && s[0] != 3)
      || (s[0] == 2 && |s| >= 2 && s[1] == 0)
      || (s[0] == 3 && |s| >= 3 && !(255 < (s[1] as int) * 256 + s[2] <= 512))
    ensures Scan(s) == Scan(s[1..])
  {
    DiscardedFirst(s, 1);
  }

  /** A stop byte too many, which reads as the start of a long frame, never costs the frame that follows. */
  lemma StrayStopByteIsDropped(p: Payload, rest: seq<Byte>)
    requires 1 <= |p| <= 512
    ensures Scan([3] + (Frame(p) + rest)) == Scan(rest).After([p])
  {
    var s := [3] + (Frame(p) + rest);
    FrameHeader(p);
    assert s[1..] == Frame(p) + rest && s[1] == Frame(p)[0] && s[2] == Frame(p)[1];
    StrayByteIsDropped(s);
    FrameThenScan(p, rest);
  }

  lemma FrameHeader(p: Payload)
    requires ValidPayload(p)
    ensures |Frame(p)| >= 2 && (Frame(p)[0] == 2 || Frame(p)[0] == 3) && Frame(p)[1] > 0
  {
    assert Frame(p)[0] == Header(|p|)[0] && Frame(p)[1] == Header(|p|)[1];
  }

  // ---- Quiet gaps -------------------------------------------------------------------------

  predicate Quiet(t: seq<Byte>) {
    forall i :: 0 <= i < |t| ==> !IsStart(t[i])
  }

  lemma {:induction false} QuietIsDropped(t: seq<Byte>)
    requires Quiet(t)
    ensures Scan(t) == Scanned([], [])
    decreases |t|
  {
    if t != [] {
      QuietIsDropped(t[1..]);
      DiscardedFirst(t, 1);
    }
  }

  lemma QuietBreaksCandidate(buf: seq<Byte>, t: seq<Byte>)
    requires AtRest(buf) && buf != [] && Quiet(t) && |t| >= 518
    requires ReadHeader(buf + t).Declares?
    ensures Scan(buf + t) == Scanned([], [])
  {
    var s := buf + t;
    var a := ReadHeader(s);
    var total := a.start + a.length + 3;
    if !ReadHeader(buf).Incomplete? {
      HeaderStable(buf, t);
    }
    assert |buf| < total;
    assert s[total - 1] == t[total - 1 - |buf|];
    assert TryDecode(s) == InvalidPacket(total);
    assert s[total..] == t[total - |buf|..];
    QuietIsDropped(s[total..]);
    DiscardedFirst(s, total);
  }

  lemma {:induction false} QuietDrains(buf: seq<Byte>, t: seq<Byte>)
    requires AtRest(buf) && Quiet(t) && |t| >= 518
    ensures Scan(buf + t) == Scanned([], [])
    decreases |buf|
  {
    var s := buf + t;
    if buf == [] {
      assert s == t;
      QuietIsDropped(t);
    } else if ReadHeader(s).Declares? {
      QuietBreaksCandidate(buf, t);
    } else {
      if !ReadHeader(buf).Incomplete? {
        HeaderStable(buf, t);
      }
      assert |buf| <= 2;
      assert s[1..] == buf[1..] + t;
      DiscardedFirst(s, 1);
      if |buf| == 2 && !IsStart(buf[1]) {
        assert s[1..][1..] == t;
        DiscardedFirst(s[1..], 1);
        QuietIsDropped(t);
      } else {
        QuietDrains(buf[1..], t);
      }
    }
  }

  /** Whatever the receiver holds, 518 bytes free of start bytes bring it back in step: they
      deliver nothing, and the next intact frame is delivered. */
  lemma QuietGapResynchronises(buf: seq<Byte>, gap: seq<Byte>, p: Payload)
    requires AtRest(buf) && Quiet(gap) && |gap| >= 518 && ValidPayload(p)
    ensures Scan(buf + gap) == Scanned([], [])
    ensures Scan(buf + gap + Frame(p)) == Scanned([p], [])
  {
    QuietDrains(buf, gap);
    ScanResumes(buf + gap, Frame(p));
    OneFrame(p);
  }

  lemma OneFrame(p: Payload)
    requires ValidPayload(p)
    ensures Scan([] + Frame(p)) == Scanned([p], [])
  {
    FrameThenScan(p, []);
    FrontAndBack(Frame(p));
    assert Scan([]) == Scanned([], []);
  }

  lemma FrontAndBack(f: seq<Byte>)
    ensures [] + f == f + []
  {}
}
