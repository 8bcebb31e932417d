/**
 Bytes on the line and packets on the channel. The client's reads return any piece of what is on the
 line; each byte goes to the parser, and each payload the parser delivers is dispatched at once. As long
 as what the parser holds and what is still on the line scan to the packets on the channel, reading
 bytes is reading packets off the channel, one step of the machine after the other.
 */
module Reception {
  import opened Checksums
  import opened Framing
  import opened Wrappers
  import opened Scanning
  import opened Parsing
  import opened StreamLaws
  import opened Scheduling
  import opened Client
  import opened Runs

  function Payloads(channel: seq<Packet>): seq<Payload> {
    seq(|channel|, i requires 0 <= i < |channel| => channel[i].payload)
  }

  /** What the parser holds and the line carries scans to exactly the packets on the channel. */
  predicate Coupled(held: seq<Byte>, line: seq<Byte>, channel: seq<Packet>) {
    AtRest(held) && Scan(held + line) == Scanned(Payloads(channel), [])
  }

  // ---- The line ---------------------------------------------------------------------------

  lemma ReadOn(held: seq<Byte>, bytes: seq<Byte>, later: seq<Byte>)
    ensures Scan(held + (bytes + later)) == Scan(Scan(held + bytes).rest + later).After(Scan(held + bytes).items)
    ensures AtRest(Scan(held + bytes).rest)
  {
    ScanResumes(held + bytes, later);
    Associative(held, bytes, later);
  }

  lemma Associative(a: seq<Byte>, b: seq<Byte>, c: seq<Byte>)
    ensures a + b + c == a + (b + c) && [] + b == b && b + [] == b
  {}

  lemma PayloadsJoin(a: seq<Packet>, b: seq<Packet>)
    ensures Payloads(a + b) == Payloads(a) + Payloads(b)
  {}

  lemma PayloadsSplit(channel: seq<Packet>, first: seq<Payload>, rest: seq<Payload>)
    requires Payloads(channel) == first + rest
    ensures |first| <= |channel| && first == Payloads(channel[..|first|]) && rest == Payloads(channel[|first|..])
  {
    var n := |first|;
    assert |Payloads(channel)| == |channel|;
    assert first == Payloads(channel)[..n] && rest == Payloads(channel)[n..];
  }

  /** More bytes that scan on their own to `more` are that many packets on the channel. */
  lemma CoupledGrows(held: seq<Byte>, line: seq<Byte>, channel: seq<Packet>, bytes: seq<Byte>, more: seq<Packet>)
    requires Coupled(held, line, channel) && Scan(bytes) == Scanned(Payloads(more), [])
    ensures Coupled(held, line + bytes, channel + more)
  {
    ReadOn(held, line, bytes);
    Associative([], bytes, []);
    PayloadsJoin(channel, more);
  }

  /** The device sends a frame: one more packet on the channel. */
  lemma FrameIsPacket(held: seq<Byte>, line: seq<Byte>, channel: seq<Packet>, p: Packet)
    requires Coupled(held, line, channel) && ValidPayload(p.payload)
    ensures Coupled(held, line + Frame(p.payload), channel + [p])
  {
    OneFrame(p.payload);
    Associative([], Frame(p.payload), []);
    assert Payloads([p]) == [p.payload];
    CoupledGrows(held, line, channel, Frame(p.payload), [p]);
  }

  lemma NothingScans()
    ensures Scan([]) == Scanned([], [])
  {}

  lemma DamagedScans(a: Arrival)
    requires WellFormed(a) && !IsIntact(a)
    ensures Scan(BytesOn(a)) == Scanned([], [])
  {
    ArrivalThenScan(a, []);
    NothingScans();
    Associative([], BytesOn(a), []);
  }

  /** A frame that arrives damaged beyond its header is a packet dropped from the channel. */
  lemma DamageIsDrop(held: seq<Byte>, line: seq<Byte>, channel: seq<Packet>, a: Arrival)
    requires Coupled(held, line, channel) && WellFormed(a) && !IsIntact(a)
    ensures Coupled(held, line + BytesOn(a), channel)
  {
    DamagedScans(a);
    assert Payloads([]) == [] && channel + [] == channel;
    CoupledGrows(held, line, channel, BytesOn(a), []);
  }

  /** Bytes read are packets taken off the channel, in order; the rest stays coupled. */
  lemma ReadIsPrefix(held: seq<Byte>, bytes: seq<Byte>, later: seq<Byte>, channel: seq<Packet>)
    requires Coupled(held, bytes + later, channel)
    ensures var got := Scan(held + bytes);
            && |got.items| <= |channel| && got.items == Payloads(channel[..|got.items|])
            && Coupled(got.rest, later, channel[|got.items|..])
  {
    var got := Scan(held + bytes);
    ReadOn(held, bytes, later);
    PayloadsSplit(channel, got.items, Scan(got.rest + later).items);
  }

  // ---- Dispatching ------------------------------------------------------------------------

  /** A payload is dispatched: it completes what is in flight if the ID is the expected one. */
  function Dispatched(s: State, p: Packet): State {
    if !Matches(s.sched, p.payload) then s
    else
      var r := s.sched.inFlight.value;
      var c := Completion(r, Reply(p), s.past.safe);
      s.(sched := s.sched.(inFlight := None), hand := [], verdict := Reply(p),
         past := if !r.purpose.Query? then s.past
                 else s.past.(completions := s.past.completions + [c], log := s.past.log + [Done(c)]))
  }

  function DispatchedAll(s: State, packets: seq<Packet>): State {
    AfterAll(Dispatched, s, packets)
  }

  function OffChannel(s: State, n: nat): State
    requires n <= |s.device.channel|
  {
    s.(device := s.device.(channel := s.device.channel[n..]))
  }

  // ---- The machine reads what the parser delivers -----------------------------------------

  predicate AllIo(events: seq<Event>) {
    forall i :: 0 <= i < |events| ==> events[i].Io?
  }

  /** Steps of the I/O thread lead from `s` to `t`. */
  ghost predicate IoLeads(s: State, t: State) {
    exists events :: AllIo(events) && Run(s, events) == t
  }

  lemma IoHere(s: State)
    ensures IoLeads(s, s)
  {
    assert AllIo([]) && Run(s, []) == s;
  }

  lemma IoOn(s: State, t: State, e: Event)
    requires IoLeads(s, t) && e.Io?
    ensures IoLeads(s, Step(t, e))
  {
    var events :| AllIo(events) && Run(s, events) == t;
    assert (events + [e])[..|events|] == events;
    assert AllIo(events + [e]) && Run(s, events + [e]) == Step(t, e);
  }

  lemma MatchSteps(s: State)
    requires s.pc == Reading && s.device.channel != [] && Matches(s.sched, s.device.channel[0].payload)
    ensures Step(Step(Step(s, Io(Moved(1))), Io(Fine)), Io(Fine)) == Dispatched(OffChannel(s, 1), s.device.channel[0])
  {}

  lemma OtherSteps(s: State)
    requires s.pc == Reading && s.device.channel != [] && !Matches(s.sched, s.device.channel[0].payload)
    ensures Step(s, Io(Moved(1))) == Dispatched(OffChannel(s, 1), s.device.channel[0])
  {}

  /** The machine reads one packet and runs its callback. */
  lemma PacketRead(s: State, t: State)
    requires IoLeads(s, t) && t.pc == Reading && t.device.channel != []
    ensures IoLeads(s, Dispatched(OffChannel(t, 1), t.device.channel[0]))
  {
    var u := Step(t, Io(Moved(1)));
    IoOn(s, t, Io(Moved(1)));
    if Matches(t.sched, t.device.channel[0].payload) {
      MatchSteps(t);
      IoOn(s, u, Io(Fine));
      IoOn(s, Step(u, Io(Fine)), Io(Fine));
    } else {
      OtherSteps(t);
    }
  }

  /** What one byte does to the line and the channel: nothing, or the first packet is complete. */
  lemma ByteRead(held: seq<Byte>, b: Byte, later: seq<Byte>, channel: seq<Packet>, r: Option<Payload>, rest: seq<Byte>)
    requires Coupled(held, [b] + later, channel)
    requires Scan(held + [b]) == Scanned(if r.None? then [] else [r.value], rest)
    ensures r.None? ==> Coupled(rest, later, channel)
    ensures r.Some? ==> channel != [] && r.value == channel[0].payload && Coupled(rest, later, channel[1..])
  {
    ReadIsPrefix(held, [b], later, channel);
    if r.None? {
      assert channel[0..] == channel;
    } else {
      assert [r.value][0] == Payloads(channel[..1])[0];
    }
  }

  lemma {:induction false} DispatchedElsewhere(s: State, packets: seq<Packet>, d: Device)
    ensures DispatchedAll(s.(device := d), packets) == DispatchedAll(s, packets).(device := d)
    ensures DispatchedAll(s, packets).pc == s.pc && DispatchedAll(s, packets).device == s.device
    decreases |packets|
  {
    if packets != [] {
      DispatchedElsewhere(s, packets[..|packets| - 1], d);
    }
  }

  /** The state after the first m packets have been read and dispatched. */
  function AfterPackets(s: State, m: nat): State
    requires m <= |s.device.channel|
  {
    DispatchedAll(OffChannel(s, m), s.device.channel[..m])
  }

  lemma NextPacket(s: State, m: nat)
    requires m < |s.device.channel|
    ensures var t := AfterPackets(s, m);
            && t.pc == s.pc && t.device.channel == s.device.channel[m..]
            && AfterPackets(s, m + 1) == Dispatched(OffChannel(t, 1), s.device.channel[m])
  {
    var c := s.device.channel;
    var d, e := s.device.(channel := c[m..]), s.device.(channel := c[m + 1..]);
    DispatchedElsewhere(s, c[..m], d);
    DispatchedElsewhere(s, c[..m], e);
    assert c[..m + 1][..m] == c[..m] && c[m..][1..] == c[m + 1..];
  }

  lemma FirstPackets(s: State)
    ensures AfterPackets(s, 0) == s
  {
    assert s.device.channel[0..] == s.device.channel;
  }

  lemma AfterPacketsPc(s: State, m: nat)
    requires m <= |s.device.channel|
    ensures AfterPackets(s, m).pc == s.pc && AfterPackets(s, m).device.channel == s.device.channel[m..]
  {
    DispatchedElsewhere(OffChannel(s, m), s.device.channel[..m], s.device);
  }

  lemma PayloadsMore(c: seq<Packet>, m: nat)
    requires m < |c|
    ensures Payloads(c[..m + 1]) == Payloads(c[..m]) + [c[m].payload] && c[m..][0] == c[m] && c[m..][1..] == c[m + 1..]
  {}

  lemma Beginning(held: seq<Byte>, bytes: seq<Byte>, c: seq<Packet>)
    requires AtRest(held)
    ensures Scan(held + bytes[..0]) == Scanned(Payloads(c[..0]), held) && bytes[0..] == bytes && c[0..] == c
  {
    assert held + bytes[..0] == held;
    AtRestIffUndecided(held);
  }

  /** A read in progress: `k` bytes have gone to the parser, which held `start` and now holds `held`, and
      `m` packets have been dispatched. */
  ghost predicate SoFar(
    s: State, start: seq<Byte>, bytes: seq<Byte>, later: seq<Byte>, k: nat, held: seq<Byte>, t: State, m: nat)
  {
    && k <= |bytes| && m <= |s.device.channel| && s.pc == Reading && t == AfterPackets(s, m) && IoLeads(s, t)
    && Coupled(held, bytes[k..] + later, s.device.channel[m..])
    && Scan(start + bytes[..k]) == Scanned(Payloads(s.device.channel[..m]), held)
  }

  lemma SoFarFirst(s: State, start: seq<Byte>, bytes: seq<Byte>, later: seq<Byte>)
    requires s.pc == Reading && Coupled(start, bytes + later, s.device.channel)
    ensures SoFar(s, start, bytes, later, 0, start, s, 0)
  {
    FirstPackets(s);
    IoHere(s);
    Beginning(start, bytes, s.device.channel);
  }

  lemma OneByteOf(bytes: seq<Byte>, later: seq<Byte>, k: nat)
    requires k < |bytes|
    ensures bytes[k..] + later == [bytes[k]] + (bytes[k + 1..] + later)
  {}

  lemma ScannedMore(start: seq<Byte>, bytes: seq<Byte>, k: nat, out: seq<Payload>, held: seq<Byte>)
    requires k < |bytes| && Scan(start + bytes[..k]) == Scanned(out, held)
    ensures Scan(start + bytes[..k + 1]) == Scan(held + [bytes[k]]).After(out)
  {
    ScanExtends(start, bytes, k);
  }

  lemma SoFarByte(
    s: State, start: seq<Byte>, bytes: seq<Byte>, later: seq<Byte>, k: nat, held: seq<Byte>, t: State, m: nat,
    r: Option<Payload>, rest: seq<Byte>)
    requires SoFar(s, start, bytes, later, k, held, t, m) && k < |bytes|
    requires Scan(held + [bytes[k]]) == Scanned(if r.None? then [] else [r.value], rest)
    ensures r.None? ==> SoFar(s, start, bytes, later, k + 1, rest, t, m)
    ensures r.Some? ==>
              && t.device.channel != []
              && SoFar(s, start, bytes, later, k + 1, rest,
                       Dispatched(OffChannel(t, 1), Packet(r.value, t.device.channel[0].origin)), m + 1)
  {
    var c := s.device.channel;
    OneByteOf(bytes, later, k);
    ByteRead(held, bytes[k], bytes[k + 1..] + later, c[m..], r, rest);
    ScannedMore(start, bytes, k, Payloads(c[..m]), held);
    if r.Some? {
      NextPacket(s, m);
      PayloadsMore(c, m);
      PacketRead(s, t);
    }
  }

  lemma SoFarLast(s: State, start: seq<Byte>, bytes: seq<Byte>, later: seq<Byte>, held: seq<Byte>, t: State, m: nat)
    requires SoFar(s, start, bytes, later, |bytes|, held, t, m)
    ensures m <= |s.device.channel| && t == AfterPackets(s, m) && IoLeads(s, t)
    ensures Scan(start + bytes) == Scanned(Payloads(s.device.channel[..m]), held)
    ensures Coupled(held, later, t.device.channel)
  {
    AfterPacketsPc(s, m);
    assert bytes[..|bytes|] == bytes && bytes[|bytes|..] + later == later;
  }

  /** One read: each byte goes to the parser, and each payload is dispatched at once. The machine gets
      from `s` to `t` by reading `m` packets off its channel, and what is still on the line stays
      coupled to what is still on the channel. */
  method ReadPiece(parser: PacketParser, bytes: seq<Byte>, ghost later: seq<Byte>, s: State)
    returns (t: State, m: nat)
    requires parser.Valid() && s.pc == Reading && Coupled(parser.buffer, bytes + later, s.device.channel)
    modifies parser
    ensures parser.Valid() && m <= |s.device.channel|
    ensures t == AfterPackets(s, m) && IoLeads(s, t)
    ensures Scan(old(parser.buffer) + bytes) == Scanned(Payloads(s.device.channel[..m]), parser.buffer)
    ensures Coupled(parser.buffer, later, t.device.channel)
  {
    t, m := s, 0;
    ghost var start := parser.buffer;
    SoFarFirst(s, start, bytes, later);
    for k := 0 to |bytes|
      invariant parser.Valid() && SoFar(s, start, bytes, later, k, parser.buffer, t, m)
    {
      ghost var held := parser.buffer;
      var r := parser.FeedByte(bytes[k]);
      SoFarByte(s, start, bytes, later, k, held, t, m, r, parser.buffer);
      if r.Some? {
        t := Dispatched(OffChannel(t, 1), Packet(r.value, t.device.channel[0].origin));
        m := m + 1;
      }
    }
    SoFarLast(s, start, bytes, later, parser.buffer, t, m);
  }
}
