/**
 Every accepted query is completed exactly once. The proof follows a request through the places
 where it can be: queued, in flight, in the I/O thread's hands, or completed.
 */
module ExactlyOnce {
  import opened Framing
  import opened Scheduling
  import opened Client

  type Request = Scheduling.Request

  /** The request the I/O thread holds at a control point, besides those in `hand`. */
  function Held(pc: Pc): seq<Request> {
    match pc
    case Writing(_, _, job) => if job.Ask? then [job.request] else []
    case Installing(r) => [r]
    case Finishing(after) => if after.ToSend? then [after.request] else []
    case _ => []
  }

  function Flying(s: Sched): seq<Request> {
    if s.inFlight.Some? then [s.inFlight.value] else []
  }

  function Requests(cs: seq<Completion>): seq<Request> {
    seq(|cs|, i requires 0 <= i < |cs| => cs[i].request)
  }

  datatype Places = Places(
    queued: seq<Request>, flying: seq<Request>, hand: seq<Request>, held: seq<Request>,
    completed: seq<Request>, issued: seq<Request>)

  function PlacesOf(s: State): Places {
    Places(s.sched.requests, Flying(s.sched), s.hand, Held(s.pc), Requests(s.past.completions), s.past.issued)
  }

  /** `r` occurs in the places exactly as often as it was issued. */
  predicate Conserved(p: Places, r: Request) {
    multiset(p.queued)[r] + multiset(p.flying)[r] + multiset(p.hand)[r] + multiset(p.held)[r] + multiset(p.completed)[r]
    == multiset(p.issued)[r]
  }

  /** What every request is built like. Management requests, and only they, stop the transport when
      they time out. */
  predicate Fit(r: Request) {
    && (r.stopOnTimeout <==> r.op != 0)
    && (r.op != 0 <==> IsManagement(r.expected))
    && (r.op != 0 ==> r.purpose.Query?)
    && ValidPayload(r.body) && r.body[0] == r.expected
  }

  /** How a step moves requests from place to place. */
  datatype Transfer =
    | Nothing
    | Issue(r: Request)
    | SweepOut(now: int, flying: bool)
    | Land
    | TakeOut
    | Launch
    | Give
    | Complete
    | Discard
    | PollOut(r: Request)
    | TakeNext(now: int, ready: bool)

  ghost predicate Applicable(p: Places, t: Transfer) {
    match t
    case Issue(r) => r.purpose.Query? && Fit(r) && r.id == |p.issued|
    case SweepOut(_, _) => p.hand == [] && p.held == []
    case Land | TakeOut => p.hand == []
    case Launch => p.flying == []
    case Give => p.hand == []
    case Complete => p.hand != []
    case Discard => p.hand != [] && !p.hand[0].purpose.Query?
    case PollOut(r) => p.held == [] && !r.purpose.Query? && Fit(r)
    case TakeNext(now, ready) => p.hand == [] && p.held == [] && (ready ==> Unexpired(p.queued, now) != [])
    case Nothing => true
  }

  function Apply(p: Places, t: Transfer): Places
    requires Applicable(p, t)
  {
    match t
    case Nothing => p
    case Issue(r) => p.(queued := p.queued + [r], issued := p.issued + [r])
    case SweepOut(now, flying) =>
      p.(queued := Unexpired(p.queued, now), flying := if flying then [] else p.flying,
         hand := (if flying then p.flying else []) + Expired(p.queued, now))
    case Land => p.(flying := [], hand := p.flying)
    case TakeOut => p.(queued := [], flying := [], hand := p.queued + p.flying)
    case Launch => p.(flying := p.held, held := [])
    case Give => p.(hand := p.held, held := [])
    case Complete => p.(hand := p.hand[1..], completed := p.completed + [p.hand[0]])
    case Discard => p.(hand := p.hand[1..])
    case PollOut(r) => p.(held := [r])
    case TakeNext(now, ready) =>
      var live := Unexpired(p.queued, now);
      p.(queued := if ready then live[1..] else live, held := if ready then [live[0]] else [],
         hand := Expired(p.queued, now))
  }

  /** A sweep loses nothing: it splits the queue. */
  lemma {:induction false} SweepConserves(q: seq<Request>, now: int)
    ensures multiset(q) == multiset(Expired(q, now)) + multiset(Unexpired(q, now))
  {
    if q != [] {
      SweepConserves(q[1..], now);
      assert q == [q[0]] + q[1..];
    }
  }

  lemma HeadAndTail(q: seq<Request>)
    requires q != []
    ensures multiset(q) == multiset([q[0]]) + multiset(q[1..])
  {
    assert q == [q[0]] + q[1..];
  }

  /** Moving requests between places neither loses nor duplicates a query. */
  lemma TransferConserves(p: Places, t: Transfer, r: Request)
    requires Applicable(p, t) && Conserved(p, r) && r.purpose.Query?
    ensures Conserved(Apply(p, t), r)
  {
    match t
    case SweepOut(now, _) => SweepConserves(p.queued, now);
    case TakeNext(now, ready) =>
      SweepConserves(p.queued, now);
      if ready {
        HeadAndTail(Unexpired(p.queued, now));
      }
    case Complete => HeadAndTail(p.hand);
    case Discard => HeadAndTail(p.hand);
    case _ =>
  }

  // ---- Each step is a transfer ------------------------------------------------------------

  lemma SubmitTransfers(s: State, e: Event) returns (t: Transfer)
    requires ControlInv(s) && OpInv(s) && (e.AskVersion? || e.Request?)
    ensures Applicable(PlacesOf(s), t) && PlacesOf(Step(s, e)) == Apply(PlacesOf(s), t)
  {
    t := if Step(s, e).past.issued == s.past.issued then Nothing else Issue(Step(s, e).past.issued[|s.past.issued|]);
  }

  lemma CallerTransfers(s: State, e: Event) returns (t: Transfer)
    requires ControlInv(s) && OpInv(s) && !e.Io? && !e.AskVersion? && !e.Request?
    ensures Applicable(PlacesOf(s), t) && PlacesOf(Step(s, e)) == Apply(PlacesOf(s), t)
  {
    t := if e.Connect? && Step(s, e).pc != s.pc then TakeOut else Nothing;
  }

  lemma PlainTransfers(s: State, result: Result) returns (t: Transfer)
    requires ControlInv(s) && Plain(s.pc)
    ensures Applicable(PlacesOf(s), t) && PlacesOf(IoStep(s, result)) == Apply(PlacesOf(s), t)
  {
    t := if s.pc.Installing? then Launch else Nothing;
  }

  lemma SweepTransfers(s: State, result: Result) returns (t: Transfer)
    requires ControlInv(s) && s.pc.Sweep?
    ensures Applicable(PlacesOf(s), t) && PlacesOf(IoStep(s, result)) == Apply(PlacesOf(s), t)
  {
    t := SweepOut(s.now, InFlightExpired(s.sched, s.now));
  }

  lemma TakeTransfers(s: State, result: Result) returns (t: Transfer)
    requires ControlInv(s) && s.pc.QueryTake?
    ensures Applicable(PlacesOf(s), t) && PlacesOf(IoStep(s, result)) == Apply(PlacesOf(s), t)
  {
    t := TakeNext(s.pc.stamp, QueryReady(s.cfg, s.sched, s.pc.stamp));
  }

  lemma ClearTransfers(s: State, result: Result)
    requires ControlInv(s) && s.pc.Clearing?
    ensures Applicable(PlacesOf(s), TakeOut) && PlacesOf(IoStep(s, result)) == Apply(PlacesOf(s), TakeOut)
  {}

  lemma PollTransfers(s: State, result: Result) returns (t: Transfer)
    requires ControlInv(s) && s.pc.PollMake?
    ensures Applicable(PlacesOf(s), t) && PlacesOf(IoStep(s, result)) == Apply(PlacesOf(s), t)
  {
    t := if IoStep(s, result).pc.Writing? then PollOut(PollRequest(s.cfg, s.pc.source, s.pc.stamp)) else Nothing;
  }

  lemma ReadTransfers(s: State, result: Result) returns (t: Transfer)
    requires ControlInv(s) && s.pc.Reading?
    ensures Applicable(PlacesOf(s), t) && PlacesOf(IoStep(s, result)) == Apply(PlacesOf(s), t)
  {
    t := if IoStep(s, result).sched.inFlight != s.sched.inFlight then Land else Nothing;
  }

  /** Rescheduling, the watchdog and the command queue. */
  lemma OtherTransfers(s: State, result: Result)
    requires s.pc.Reschedule? || s.pc.WatchdogLock? || s.pc.Popping?
    ensures PlacesOf(IoStep(s, result)) == PlacesOf(s)
  {}

  lemma FinishTransfers(s: State, result: Result) returns (t: Transfer)
    requires ControlInv(s) && s.pc.Finishing?
    ensures Applicable(PlacesOf(s), t) && PlacesOf(IoStep(s, result)) == Apply(PlacesOf(s), t)
  {
    if s.hand == [] {
      t := Nothing;
    } else if s.hand[0].purpose.Query? {
      t := Complete;
      assert Requests(IoStep(s, result).past.completions) == Requests(s.past.completions) + [s.hand[0]];
    } else {
      t := Discard;
    }
  }

  lemma WriteTransfers(s: State, result: Result) returns (t: Transfer)
    requires ControlInv(s) && s.pc.Writing?
    ensures Applicable(PlacesOf(s), t) && PlacesOf(IoStep(s, result)) == Apply(PlacesOf(s), t)
  {
    t := if IoStep(s, result).pc.Finishing? then Give else Nothing;
  }

  lemma StepTransfers(s: State, e: Event) returns (t: Transfer)
    requires ControlInv(s) && OpInv(s)
    ensures Applicable(PlacesOf(s), t) && PlacesOf(Step(s, e)) == Apply(PlacesOf(s), t)
  {
    if e.AskVersion? || e.Request? {
      t := SubmitTransfers(s, e);
    } else if !e.Io? {
      t := CallerTransfers(s, e);
    } else if Plain(s.pc) {
      t := PlainTransfers(s, e.result);
    } else if s.pc.Finishing? {
      t := FinishTransfers(s, e.result);
    } else if s.pc.Writing? {
      t := WriteTransfers(s, e.result);
    } else if s.pc.Sweep? {
      t := SweepTransfers(s, e.result);
    } else if s.pc.QueryTake? {
      t := TakeTransfers(s, e.result);
    } else if s.pc.Clearing? {
      t := TakeOut;
      ClearTransfers(s, e.result);
    } else if s.pc.PollMake? {
      t := PollTransfers(s, e.result);
    } else if s.pc.Reading? {
      t := ReadTransfers(s, e.result);
    } else {
      t := Nothing;
      OtherTransfers(s, e.result);
    }
  }

  // ---- Whole runs -------------------------------------------------------------------------

  /** Queries are numbered in the order they are accepted. */
  predicate Numbered(issued: seq<Request>) {
    forall i :: 0 <= i < |issued| ==> issued[i].id == i && issued[i].purpose.Query?
  }

  predicate AllFit(p: Places) {
    && (forall i :: 0 <= i < |p.queued| ==> Fit(p.queued[i]))
    && (forall i :: 0 <= i < |p.flying| ==> Fit(p.flying[i]))
    && (forall i :: 0 <= i < |p.hand| ==> Fit(p.hand[i]))
    && (forall i :: 0 <= i < |p.held| ==> Fit(p.held[i]))
    && (forall i :: 0 <= i < |p.issued| ==> Fit(p.issued[i]))
  }

  ghost predicate PlacesInv(p: Places) {
    && (forall r: Request :: r.purpose.Query? ==> Conserved(p, r))
    && Numbered(p.issued)
    && AllFit(p)
  }

  lemma {:induction false} SweepKeepsFit(q: seq<Request>, now: int)
    requires forall i :: 0 <= i < |q| ==> Fit(q[i])
    ensures forall i :: 0 <= i < |Expired(q, now)| ==> Fit(Expired(q, now)[i])
    ensures forall i :: 0 <= i < |Unexpired(q, now)| ==> Fit(Unexpired(q, now)[i])
  {
    if q != [] {
      SweepKeepsFit(q[1..], now);
    }
  }

  lemma TransferKeepsFit(p: Places, t: Transfer)
    requires Applicable(p, t) && AllFit(p)
    ensures AllFit(Apply(p, t))
  {
    match t
    case SweepOut(now, _) => SweepKeepsFit(p.queued, now);
    case TakeNext(now, _) => SweepKeepsFit(p.queued, now);
    case _ =>
  }

  lemma TransferKeeps(p: Places, t: Transfer)
    requires Applicable(p, t) && PlacesInv(p)
    ensures PlacesInv(Apply(p, t))
  {
    forall r: Request | r.purpose.Query?
      ensures Conserved(Apply(p, t), r)
    {
      TransferConserves(p, t, r);
    }
    TransferKeepsFit(p, t);
  }

  /** The invariant of requests, kept by every step. */
  ghost predicate RequestInv(s: State) {
    ControlInv(s) && OpInv(s) && PlacesInv(PlacesOf(s))
  }

  lemma OpStep(s: State, e: Event)
    requires OpInv(s)
    ensures OpInv(Step(s, e))
  {}

  lemma RequestStep(s: State, e: Event)
    requires RequestInv(s)
    ensures RequestInv(Step(s, e))
  {
    ControlStep(s, e);
    OpStep(s, e);
    var t := StepTransfers(s, e);
    TransferKeeps(PlacesOf(s), t);
  }

  lemma InitRequests(cfg: Config, imu: nat, motor: nat, now: int)
    ensures RequestInv(Init(cfg, imu, motor, now))
  {}

  lemma RequestReachable(s: State)
    requires Reachable(s)
    ensures RequestInv(s)
  {
    forall cfg, imu: nat, motor: nat, now
      ensures RequestInv(Init(cfg, imu, motor, now))
    {
      InitRequests(cfg, imu, motor, now);
    }
    forall t, e | RequestInv(t)
      ensures RequestInv(Step(t, e))
    {
      RequestStep(t, e);
    }
    ReachableKeeps(RequestInv, s);
  }

  // ---- What follows -----------------------------------------------------------------------

  lemma {:induction false} NumberedOnce(issued: seq<Request>, i: nat)
    requires Numbered(issued) && i < |issued|
    ensures multiset(issued)[issued[i]] == 1
    decreases |issued|
  {
    var k := |issued| - 1;
    assert issued == issued[..k] + [issued[k]];
    if i < k {
      NumberedOnce(issued[..k], i);
    } else {
      assert forall j :: 0 <= j < k ==> issued[..k][j].id == j;
      assert issued[k] !in issued[..k];
    }
  }

  /** An issued query is in exactly one place. */
  lemma OnePlace(p: Places, i: nat)
    requires PlacesInv(p) && i < |p.issued|
    ensures var r := p.issued[i];
            multiset(p.queued)[r] + multiset(p.flying)[r] + multiset(p.hand)[r] + multiset(p.held)[r] +
                multiset(p.completed)[r] == 1
  {
    NumberedOnce(p.issued, i);
    assert Conserved(p, p.issued[i]);
  }

  /** A query found in any place was issued under its own number. */
  lemma FoundIsIssued(p: Places, r: Request)
    requires PlacesInv(p) && r.purpose.Query?
    requires r in p.queued || r in p.flying || r in p.hand || r in p.held || r in p.completed
    ensures r.id < |p.issued| && p.issued[r.id] == r
  {
    assert Conserved(p, r);
    assert r in p.issued;
  }

  lemma TwiceCounted(q: seq<Request>, i: nat, j: nat)
    requires i < j < |q| && q[i] == q[j]
    ensures multiset(q)[q[i]] >= 2
  {
    assert q == q[..j] + q[j..];
    assert q[i] in q[..j] && q[j] in q[j..];
  }

  // ---- Completions ------------------------------------------------------------------------

  ghost predicate OnlyQueriesComplete(s: State) {
    forall k :: 0 <= k < |s.past.completions| ==> s.past.completions[k].request.purpose.Query?
  }

  /** Only a callback completes anything, and it completes the first request in hand. */
  lemma CompletesFromHand(s: State, e: Event)
    ensures Step(s, e).past.completions == s.past.completions ||
            (s.hand != [] && s.hand[0].purpose.Query? &&
             Step(s, e).past.completions == s.past.completions + [Completion(s.hand[0], s.verdict, s.past.safe)])
  {
    if !e.Io? {
      CompletesCaller(s, e);
    } else if s.pc.Finishing? {
      CompletesFinish(s, e);
    } else {
      CompletesIo(s, e);
    }
  }

  lemma CompletesCaller(s: State, e: Event)
    requires !e.Io?
    ensures Step(s, e).past.completions == s.past.completions
  {}

  lemma CompletesIo(s: State, e: Event)
    requires e.Io? && !s.pc.Finishing?
    ensures Step(s, e).past.completions == s.past.completions
  {}

  lemma CompletesFinish(s: State, e: Event)
    requires e.Io? && s.pc.Finishing?
    ensures Step(s, e).past.completions == s.past.completions ||
            (s.hand != [] && s.hand[0].purpose.Query? &&
             Step(s, e).past.completions == s.past.completions + [Completion(s.hand[0], s.verdict, s.past.safe)])
  {}

  lemma OnlyQueriesStep(s: State, e: Event)
    requires OnlyQueriesComplete(s)
    ensures OnlyQueriesComplete(Step(s, e))
  {
    CompletesFromHand(s, e);
  }

  lemma CompletionsAreQueries(s: State)
    requires Reachable(s)
    ensures OnlyQueriesComplete(s)
  {
    forall t, e | OnlyQueriesComplete(t)
      ensures OnlyQueriesComplete(Step(t, e))
    {
      OnlyQueriesStep(t, e);
    }
    ReachableKeeps(OnlyQueriesComplete, s);
  }

  lemma CompletedWasIssued(s: State, k: nat)
    requires RequestInv(s) && k < |s.past.completions| && s.past.completions[k].request.purpose.Query?
    ensures s.past.completions[k].request in s.past.issued
  {
    var p := PlacesOf(s);
    var r := s.past.completions[k].request;
    assert p.completed[k] == r;
    assert Conserved(p, r);
  }
}
