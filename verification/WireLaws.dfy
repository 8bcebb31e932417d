/**
 What reaches the peer. However writes are cut up and wherever the transport stops, the bytes of a
 connection are whole frames and at most one truncated last frame, so a peer that runs the
 receiver of `Parsing` decodes exactly the payloads written in full, in write order.
 */
module WireLaws {
  import opened Checksums
  import opened Framing
  import opened Scanning
  import opened Parsing
  import opened StreamLaws
  import opened Scheduling
  import opened Client

  /** The bytes one write() call put on the wire. */
  function ChunkBytes(c: Chunk): seq<Byte> {
    var f := Frame(c.body);
    if c.from <= c.to <= |f| then f[c.from..c.to] else []
  }

  /** The bytes of all calls so far, in order. */
  function OnWire(chunks: seq<Chunk>): seq<Byte> {
    if chunks == [] then [] else OnWire(chunks[..|chunks| - 1]) + ChunkBytes(chunks[|chunks| - 1])
  }

  lemma OnWireAppend(chunks: seq<Chunk>, c: Chunk)
    ensures OnWire(chunks + [c]) == OnWire(chunks) + ChunkBytes(c)
  {
    assert (chunks + [c])[..|chunks|] == chunks;
  }

  lemma FrameHasSize(body: Payload)
    ensures |Frame(body)| == FrameSize(body)
  {}

  // ---- The part of the state the wire is about --------------------------------------------

  datatype Part = Between | Within(body: Payload, done: nat) | Gone

  datatype View = View(chunks: seq<Chunk>, sent: seq<Payload>, part: Part)

  function PartOf(pc: Pc): Part {
    if pc.Writing? then Within(pc.body, pc.done) else if Leaving(pc) then Gone else Between
  }

  function ViewOf(s: State): View {
    View(s.past.chunks, s.past.sent, PartOf(s.pc))
  }

  /** The bytes are the frames of `sent` and then `n` bytes of the frame of `p`. */
  predicate Carries(bytes: seq<Byte>, sent: seq<Payload>, p: Payload, n: nat) {
    n <= |Frame(p)| && bytes == Frames(sent) + Frame(p)[..n]
  }

  ghost predicate ViewInv(v: View) {
    && (forall i :: 0 <= i < |v.sent| ==> ValidPayload(v.sent[i]))
    && match v.part
       case Between => OnWire(v.chunks) == Frames(v.sent)
       case Within(body, done) =>
         Carries(OnWire(v.chunks), v.sent, body, done) && (ValidPayload(body) ==> done < |Frame(body)|)
       case Gone => exists p, n: nat :: ValidPayload(p) && n < |Frame(p)| && Carries(OnWire(v.chunks), v.sent, p, n)
  }

  datatype Change = Same | Start(body: Payload) | Move(to: nat) | Leave | Fail | Restart

  predicate Possible(v: View, c: Change) {
    match c
    case Same => true
    case Start(_) => v.part.Between?
    case Move(to) => v.part.Within? && ValidPayload(v.part.body) && v.part.done < to <= FrameSize(v.part.body)
    case Leave => v.part.Between?
    case Fail => v.part.Within?
    case Restart => v.part.Gone?
  }

  function Changed(v: View, c: Change): View
    requires Possible(v, c)
  {
    match c
    case Same => v
    case Start(body) => v.(part := Within(body, 0))
    case Move(to) =>
      var chunk := Chunk(v.part.body, v.part.done, to);
      if to == FrameSize(v.part.body)
      then View(v.chunks + [chunk], v.sent + [v.part.body], Between)
      else View(v.chunks + [chunk], v.sent, Within(v.part.body, to))
    case Leave | Fail => v.(part := Gone)
    case Restart => View([], [], Between)
  }

  lemma NothingCut(v: View)
    requires OnWire(v.chunks) == Frames(v.sent)
    ensures ValidPayload([0]) && 0 < |Frame([0])| && Carries(OnWire(v.chunks), v.sent, [0], 0)
  {
    FrameHasSize([0]);
    assert Frame([0])[..0] == [];
    assert Frames(v.sent) + [] == Frames(v.sent);
  }

  lemma MoveKeeps(v: View, to: nat)
    requires ViewInv(v) && Possible(v, Move(to))
    ensures ViewInv(Changed(v, Move(to)))
  {
    var body, done := v.part.body, v.part.done;
    var f := Frame(body);
    FrameHasSize(body);
    OnWireAppend(v.chunks, Chunk(body, done, to));
    PrefixGrows(Frames(v.sent), f, done, to);
    if to == |f| {
      FramesAppend(v.sent, body);
      assert f[..to] == f;
    }
  }

  lemma PrefixGrows(a: seq<Byte>, f: seq<Byte>, done: nat, to: nat)
    requires done <= to <= |f|
    ensures (a + f[..done]) + f[done..to] == a + f[..to]
  {}

  lemma StartKeeps(v: View, body: Payload)
    requires ViewInv(v) && v.part.Between?
    ensures ViewInv(v.(part := Within(body, 0)))
  {
    assert Frame(body)[..0] == [] && Frames(v.sent) + [] == Frames(v.sent);
    FrameHasSize(body);
  }

  lemma FailKeeps(v: View)
    requires ViewInv(v) && v.part.Within?
    ensures ViewInv(v.(part := Gone))
  {
    if !ValidPayload(v.part.body) {
      assert Frames(v.sent) + [] == Frames(v.sent);
      NothingCut(v);
    }
  }

  lemma ChangeKeeps(v: View, c: Change)
    requires ViewInv(v) && Possible(v, c)
    ensures ViewInv(Changed(v, c))
  {
    match c
    case Same =>
    case Start(body) =>
      StartKeeps(v, body);
    case Move(to) => MoveKeeps(v, to);
    case Leave => NothingCut(v);
    case Fail => FailKeeps(v);
    case Restart =>
      assert OnWire([]) == [] && Frames([]) == [];
  }

  // ---- Each step is a change --------------------------------------------------------------

  lemma CallerChanges(s: State, e: Event) returns (c: Change)
    requires ControlInv(s) && !e.Io?
    ensures Possible(ViewOf(s), c) && ViewOf(Step(s, e)) == Changed(ViewOf(s), c)
  {
    c := Same;
  }

  lemma QuietChanges(s: State, e: Event) returns (c: Change)
    requires ControlInv(s) && e.Io? && Plain(s.pc)
    ensures Possible(ViewOf(s), c) && ViewOf(Step(s, e)) == Changed(ViewOf(s), c)
  {
    c := if !Leaving(s.pc) && Leaving(Step(s, e).pc) then Leave else Same;
  }

  lemma SweepChanges(s: State, e: Event) returns (c: Change)
    requires e.Io? && s.pc.Sweep?
    ensures Possible(ViewOf(s), c) && ViewOf(Step(s, e)) == Changed(ViewOf(s), c)
  {
    c := if SweepStops(s.sched, s.now) then Leave else Same;
  }

  lemma QueueChanges(s: State, e: Event)
    requires e.Io? && Queues(s.pc) && !s.pc.Sweep?
    ensures ViewOf(Step(s, e)) == ViewOf(s)
  {}

  lemma ScheduleChanges(s: State, e: Event) returns (c: Change)
    requires ControlInv(s) && e.Io? && Schedules(s.pc)
    ensures Possible(ViewOf(s), c) && ViewOf(Step(s, e)) == Changed(ViewOf(s), c)
  {
    var pc := Step(s, e).pc;
    c := if pc.Writing? then Start(pc.body) else if Leaving(pc) then Leave else Same;
  }

  lemma StartChanges(s: State, e: Event) returns (c: Change)
    requires e.Io? && s.pc.Finishing? && s.hand == [] && (s.pc.after.ToStart? || s.pc.after.ToSend?)
    ensures Possible(ViewOf(s), c) && ViewOf(Step(s, e)) == Changed(ViewOf(s), c)
  {
    c := if s.pc.after.ToSend? then Start(s.pc.after.request.body) else Restart;
  }

  lemma FinishChanges(s: State, e: Event)
    requires e.Io? && s.pc.Finishing? && (s.pc.after.ToStart? || s.pc.after.ToSend? ==> s.hand != [])
    ensures ViewOf(Step(s, e)) == ViewOf(s)
  {}

  /** Where a write call leaves the cursor, if it moves it. */
  predicate Moves(s: State, result: Result) {
    s.pc.Writing? && s.sched.running && result.Moved? && result.bytes > 0 && s.pc.done < FrameSize(s.pc.body)
  }

  function CursorAfter(s: State, result: Result): nat
    requires Moves(s, result)
  {
    if s.pc.done + result.bytes < FrameSize(s.pc.body) then s.pc.done + result.bytes else FrameSize(s.pc.body)
  }

  lemma WriteMoves(s: State, e: Event)
    requires e.Io? && Moves(s, e.result)
    ensures Possible(ViewOf(s), Move(CursorAfter(s, e.result)))
    ensures ViewOf(Step(s, e)) == Changed(ViewOf(s), Move(CursorAfter(s, e.result)))
  {}

  lemma WriteStays(s: State, e: Event) returns (c: Change)
    requires e.Io? && s.pc.Writing? && !Moves(s, e.result)
    ensures Possible(ViewOf(s), c) && ViewOf(Step(s, e)) == Changed(ViewOf(s), c)
  {
    c := if Leaving(Step(s, e).pc) then Fail else Same;
  }

  lemma WriteChanges(s: State, e: Event) returns (c: Change)
    requires e.Io? && s.pc.Writing?
    ensures Possible(ViewOf(s), c) && ViewOf(Step(s, e)) == Changed(ViewOf(s), c)
  {
    if Moves(s, e.result) {
      c := Move(CursorAfter(s, e.result));
      WriteMoves(s, e);
    } else {
      c := WriteStays(s, e);
    }
  }

  ghost predicate WireInv(s: State) {
    ControlInv(s) && ViewInv(ViewOf(s))
  }

  lemma WireStep(s: State, e: Event)
    requires WireInv(s)
    ensures WireInv(Step(s, e))
  {
    ControlStep(s, e);
    var c: Change;
    if !e.Io? {
      c := CallerChanges(s, e);
    } else if Plain(s.pc) {
      c := QuietChanges(s, e);
    } else if s.pc.Finishing? && s.hand == [] && (s.pc.after.ToStart? || s.pc.after.ToSend?) {
      c := StartChanges(s, e);
    } else if s.pc.Finishing? {
      c := Same;
      FinishChanges(s, e);
    } else if s.pc.Writing? {
      c := WriteChanges(s, e);
    } else if s.pc.Sweep? {
      c := SweepChanges(s, e);
    } else if Queues(s.pc) {
      c := Same;
      QueueChanges(s, e);
    } else {
      c := ScheduleChanges(s, e);
    }
    ChangeKeeps(ViewOf(s), c);
  }

  lemma InitWire(cfg: Config, imu: nat, motor: nat, now: int)
    ensures WireInv(Init(cfg, imu, motor, now))
  {
    var v := ViewOf(Init(cfg, imu, motor, now));
    assert OnWire([]) == [] && Frames([]) == [];
    NothingCut(v);
  }

  lemma WireReachable(s: State)
    requires Reachable(s)
    ensures ViewInv(ViewOf(s))
  {
    forall cfg, imu: nat, motor: nat, now
      ensures WireInv(Init(cfg, imu, motor, now))
    {
      InitWire(cfg, imu, motor, now);
    }
    forall t, e | WireInv(t)
      ensures WireInv(Step(t, e))
    {
      WireStep(t, e);
    }
    ReachableKeeps(WireInv, s);
  }

  // ---- Theorem ----------------------------------------------------------------------------

  lemma CutOf(v: View) returns (p: Payload, n: nat)
    requires ViewInv(v)
    ensures ValidPayload(p) && n < |Frame(p)| && Carries(OnWire(v.chunks), v.sent, p, n)
  {
    match v.part
    case Between =>
      NothingCut(v);
      p, n := [0], 0;
    case Within(body, done) =>
      if ValidPayload(body) {
        p, n := body, done;
      } else {
        assert Frames(v.sent) + [] == Frames(v.sent);
        NothingCut(v);
        p, n := [0], 0;
      }
    case Gone =>
      p, n :| ValidPayload(p) && n < |Frame(p)| && Carries(OnWire(v.chunks), v.sent, p, n);
  }

  /** Over every run: the bytes of the connection are the frames of the payloads written in full and
      then an unfinished frame, and the receiver delivers exactly those payloads, in order. */
  lemma PeerDecodesWhatWasWritten(s: State) returns (p: Payload, n: nat)
    requires Reachable(s)
    ensures ValidPayload(p) && n < |Frame(p)|
    ensures OnWire(s.past.chunks) == Frames(s.past.sent) + Frame(p)[..n]
    ensures Scan(OnWire(s.past.chunks)) == Scanned(s.past.sent, Frame(p)[..n])
  {
    WireReachable(s);
    p, n := CutOf(ViewOf(s));
    WholeFramesDelivered(s.past.sent, p, n);
  }
}
