/**
 What may be left on the line from earlier connections without doing harm: acknowledgements of
 configuration writes, as long as no such write is outstanding or can be made without a read. The
 read that comes before every write then takes them off the line, because the line keeps order.
 */
module Leftovers {
  import opened Checksums
  import opened Wrappers
  import opened Scheduling
  import opened Client
  import opened ExactlyOnce
  import opened DeviceLaws

  /** The request the device may still be answering. */
  function Awaited(s: State): Option<Request> {
    if s.pc.Installing? then Some(s.pc.request) else s.sched.inFlight
  }

  function AwaitedId(s: State): Option<nat> {
    if Awaited(s).Some? && Awaited(s).value.op != 0 then Some(Awaited(s).value.id) else None
  }

  /** A packet about a request other than the one awaited. */
  predicate Spent(p: Packet, id: Option<nat>) {
    !p.origin.Noise? && id != Some(p.origin.id)
  }

  /** Every request but the awaited one is answered; what is on the line besides noise and packets about
      the awaited request are acknowledgements of writes, and they come first. */
  predicate Tidy(d: Device, id: Option<nat>) {
    && (forall i :: 0 <= i < |d.channel| && Spent(d.channel[i], id) ==>
          d.channel[i].payload != [] && IsConfigWrite(d.channel[i].payload[0]))
    && (forall i, j :: 0 <= i < j < |d.channel| && Spent(d.channel[j], id) ==>
          d.channel[i].origin.Noise? || Spent(d.channel[i], id))
    && (forall y :: y in d.arrived ==> y in d.served || id == Some(y))
  }

  lemma TidyDelivers(d: Device, id: Option<nat>, p: Packet)
    requires Tidy(d, id) && !Spent(p, id)
    ensures Tidy(d.(channel := d.channel + [p]), id)
  {}

  lemma TidyDrops(d: Device, id: Option<nat>, k: nat)
    requires Tidy(d, id) && k < |d.channel|
    ensures Tidy(d.(channel := d.channel[..k] + d.channel[k + 1..]), id)
  {
    var c := d.channel[..k] + d.channel[k + 1..];
    assert forall i :: 0 <= i < |c| ==> c[i] == d.channel[if i < k then i else i + 1];
  }

  lemma TidyPops(d: Device, id: Option<nat>)
    requires Tidy(d, id) && d.channel != []
    ensures Tidy(d.(channel := d.channel[1..]), id)
  {
    assert forall i :: 0 <= i < |d.channel[1..]| ==> d.channel[1..][i] == d.channel[i + 1];
  }

  lemma TidyArrives(d: Device, id: nat, command: Byte)
    requires Tidy(d, None) && forall i :: 0 <= i < |d.channel| ==> !Concerns(d.channel[i], id)
    ensures Tidy(d.(arrived := d.arrived[id := command]), Some(id))
  {
    assert forall i :: 0 <= i < |d.channel| ==> (Spent(d.channel[i], Some(id)) <==> Spent(d.channel[i], None));
  }

  lemma SafeIsTidy(s: State)
    requires Safe(s)
    ensures Tidy(s.device, None)
  {
    assert forall i :: 0 <= i < |s.device.channel| ==> Harmless(s, s.device.channel[i]);
    assert forall y :: y in s.device.arrived ==> y in s.device.arrived.Keys;
  }

  // ---- Bars -------------------------------------------------------------------------------

  predicate NoneExpects(p: Places, c: Byte) {
    && (forall i :: 0 <= i < |p.queued| ==> p.queued[i].expected != c)
    && (forall i :: 0 <= i < |p.flying| ==> p.flying[i].expected != c)
    && (forall i :: 0 <= i < |p.hand| ==> p.hand[i].expected != c)
    && (forall i :: 0 <= i < |p.held| ==> p.held[i].expected != c)
  }

  /** No request `c` is outstanding, and none can be made without a read. */
  predicate Barred(s: State, c: Byte) {
    NoneExpects(PlacesOf(s), c) && !MayWrite(s, c)
  }

  lemma FlyingIsNotBarred(s: State, r: Request)
    requires s.sched.inFlight == Some(r)
    ensures !Barred(s, r.expected)
  {
    assert PlacesOf(s).flying[0] == r;
  }

  lemma HeldIsNotBarred(s: State, r: Request)
    requires s.pc.Writing? && s.pc.job == Ask(r)
    ensures !Barred(s, r.expected)
  {
    assert PlacesOf(s).held[0] == r;
  }

  lemma {:induction false} SweepKeepsNone(q: seq<Request>, now: int, c: Byte)
    requires forall i :: 0 <= i < |q| ==> q[i].expected != c
    ensures forall i :: 0 <= i < |Expired(q, now)| ==> Expired(q, now)[i].expected != c
    ensures forall i :: 0 <= i < |Unexpired(q, now)| ==> Unexpired(q, now)[i].expected != c
  {
    if q != [] {
      SweepKeepsNone(q[1..], now, c);
    }
  }

  lemma TransferKeepsNone(p: Places, t: Transfer, c: Byte)
    requires Applicable(p, t) && NoneExpects(p, c) && IsConfigWrite(c)
    requires t.Issue? ==> t.r.expected != c
    ensures NoneExpects(Apply(p, t), c)
  {
    match t
    case SweepOut(now, _) => SweepKeepsNone(p.queued, now, c);
    case TakeNext(now, _) => SweepKeepsNone(p.queued, now, c);
    case _ =>
  }

  /** A configuration write is issued only where it may be. */
  lemma IssuesAllowed(s: State, e: Event, c: Byte)
    requires (e.AskVersion? || e.Request?) && IsConfigWrite(c) && Step(s, e).past.issued != s.past.issued
    ensures |Step(s, e).past.issued| == |s.past.issued| + 1
    ensures Step(s, e).past.issued[|s.past.issued|].expected == c ==> MayWrite(s, c)
  {}

  lemma NothingIssued(s: State, e: Event)
    requires !e.AskVersion? && !e.Request?
    ensures Step(s, e).past.issued == s.past.issued
  {
    if e.Io? {
      IssuedKept(s, e);
    }
  }

  lemma NoneKept(s: State, e: Event, c: Byte)
    requires RequestInv(s) && Barred(s, c) && IsConfigWrite(c)
    ensures NoneExpects(PlacesOf(Step(s, e)), c)
  {
    var t := StepTransfers(s, e);
    if t.Issue? {
      assert Step(s, e).past.issued == s.past.issued + [t.r];
      if e.AskVersion? || e.Request? {
        IssuesAllowed(s, e, c);
      } else {
        NothingIssued(s, e);
      }
    }
    TransferKeepsNone(PlacesOf(s), t, c);
  }

  /** The request the lock's holder waits for was issued by its operation. */
  predicate AwaitsOwn(s: State) {
    && s.nextOp > 0
    && (s.management.Busy? ==> s.management.op != 0)
    && (s.management.Busy? && s.management.phase.Waiting? ==>
          s.management.phase.id < |s.past.issued| && s.past.issued[s.management.phase.id].op == s.management.op)
  }

  predicate Manages(e: Event) {
    e.Lock? || e.Request? || e.Wake? || e.Unlock?
  }

  lemma ManagementUntouched(s: State, e: Event)
    requires !Manages(e)
    ensures Step(s, e).management == s.management && Step(s, e).nextOp == s.nextOp
  {}

  lemma AwaitsOwnManages(s: State, e: Event)
    requires AwaitsOwn(s) && Manages(e)
    ensures AwaitsOwn(Step(s, e))
  {}

  lemma AwaitsOwnStep(s: State, e: Event)
    requires AwaitsOwn(s)
    ensures AwaitsOwn(Step(s, e))
  {
    if Manages(e) {
      AwaitsOwnManages(s, e);
    } else {
      ManagementUntouched(s, e);
      IssuedGrows(s, e);
    }
  }

  /** A reply is handed to one caller. */
  predicate OneAnswer(s: State) {
    s.verdict.Reply? ==> |s.hand| <= 1
  }

  lemma OneAnswerCaller(s: State, e: Event)
    requires OneAnswer(s) && !e.Io?
    ensures OneAnswer(Step(s, e))
  {}

  lemma OneAnswerFinish(s: State, e: Event)
    requires OneAnswer(s) && e.Io? && s.pc.Finishing?
    ensures OneAnswer(Step(s, e))
  {}

  lemma OneAnswerIo(s: State, e: Event)
    requires OneAnswer(s) && e.Io? && !s.pc.Finishing?
    ensures OneAnswer(Step(s, e))
  {}

  lemma OneAnswerStep(s: State, e: Event)
    requires OneAnswer(s)
    ensures OneAnswer(Step(s, e))
  {
    if !e.Io? {
      OneAnswerCaller(s, e);
    } else if s.pc.Finishing? {
      OneAnswerFinish(s, e);
    } else {
      OneAnswerIo(s, e);
    }
  }

  // ---- What may be written ----------------------------------------------------------------

  lemma LockKeepsBar(s: State, e: Event, c: Byte)
    requires (e.Lock? || e.Unlock?) && !MayWrite(s, c)
    ensures !MayWrite(Step(s, e), c)
  {
    var t := Step(s, e);
    assert t.past.completions == s.past.completions;
  }

  lemma WakeKeepsBar(s: State, e: Event, c: Byte)
    requires e.Wake? && !MayWrite(s, c)
    ensures !MayWrite(Step(s, e), c)
  {
    var t := Step(s, e);
    assert t.past.completions == s.past.completions;
    if t != s {
      assert WakesTo(s.management, s.past.completions[e.k]) || !AtWrite(t.management);
      assert !t.management.phase.Waiting?;
    }
  }

  lemma RequestKeepsBar(s: State, e: Event, c: Byte)
    requires e.Request? && !MayWrite(s, c)
    requires forall k :: 0 <= k < |s.past.completions| ==> s.past.completions[k].request.id < |s.past.issued|
    ensures !MayWrite(Step(s, e), c)
  {
    var t := Step(s, e);
    assert t.past.completions == s.past.completions;
    if t.management != s.management {
      assert !AtWrite(t.management);
    }
  }

  /** Off the management events, only a completion that wakes the holder to its write matters. */
  lemma OthersKeepBar(s: State, e: Event, c: Byte)
    requires !Manages(e) && !MayWrite(s, c)
    requires s.hand != [] && s.hand[0].purpose.Query? ==>
               !WakesTo(s.management, Completion(s.hand[0], s.verdict, s.past.safe))
    ensures !MayWrite(Step(s, e), c)
  {
    var t := Step(s, e);
    ManagementUntouched(s, e);
    CompletesFromHand(s, e);
    assert forall k :: 0 <= k < |s.past.completions| ==> t.past.completions[k] == s.past.completions[k];
  }

  /** Only a reply handed to a management caller can wake the holder to its write. */
  lemma WakingAnswers(s: State)
    requires RequestInv(s) && AwaitsOwn(s) && s.hand != [] && s.hand[0].purpose.Query?
    requires WakesTo(s.management, Completion(s.hand[0], s.verdict, s.past.safe))
    ensures s.verdict.Reply? && s.hand[0].op != 0
  {
    assert s.hand[0] in PlacesOf(s).hand;
    FoundIsIssued(PlacesOf(s), s.hand[0]);
  }

  lemma CompletedIds(s: State)
    requires RequestInv(s) && OnlyQueriesComplete(s)
    ensures forall k :: 0 <= k < |s.past.completions| ==> s.past.completions[k].request.id < |s.past.issued|
  {
    forall k | 0 <= k < |s.past.completions|
      ensures s.past.completions[k].request.id < |s.past.issued|
    {
      var p := PlacesOf(s);
      assert p.completed[k] == s.past.completions[k].request;
      FoundIsIssued(p, s.past.completions[k].request);
    }
  }

  lemma BarredKept(s: State, e: Event, c: Byte)
    requires RequestInv(s) && OnlyQueriesComplete(s) && AwaitsOwn(s) && Barred(s, c) && IsConfigWrite(c)
    requires s.hand != [] && s.verdict.Reply? ==> s.hand[0].op == 0
    ensures Barred(Step(s, e), c)
  {
    NoneKept(s, e, c);
    if e.Lock? || e.Unlock? {
      LockKeepsBar(s, e, c);
    } else if e.Wake? {
      WakeKeepsBar(s, e, c);
    } else if e.Request? {
      CompletedIds(s);
      RequestKeepsBar(s, e, c);
    } else {
      if s.hand != [] && s.hand[0].purpose.Query?
         && WakesTo(s.management, Completion(s.hand[0], s.verdict, s.past.safe)) {
        WakingAnswers(s);
      }
      OthersKeepBar(s, e, c);
    }
  }
}
