/**
 How a query gets onto the wire: it was the one issued first of those not yet expired, every enabled
 poll was further away than the guard window, and nothing was in flight; and whenever that is so, it
 is taken. The in-flight slot is never overwritten.
 */
module AdmissionLaws {
  import opened Wrappers
  import opened Scheduling
  import opened Client
  import opened Runs
  import opened SchedulerClass

  type Request = Scheduling.Request

  /** `r` is in the queue and has not expired, and everything ahead of it has. */
  predicate FirstLive(q: seq<Request>, r: Request, now: int) {
    r.deadline > now && exists i :: 0 <= i < |q| && q[i] == r && forall j :: 0 <= j < i ==> q[j].deadline <= now
  }

  /** In `s` the I/O thread takes `r` from the queue, as the rules of admission allow: it is the first
      that has not expired and the one issued first of those, no enabled poll comes due within the guard
      window, and nothing is in flight. */
  ghost predicate Admits(s: State, r: Request) {
    && s.pc.QueryTake?
    && FirstLive(s.sched.requests, r, s.pc.stamp)
    && (forall i :: 0 <= i < |s.sched.requests| && s.sched.requests[i].deadline > s.pc.stamp ==>
          r.id <= s.sched.requests[i].id)
    && (s.sched.imu.interval > 0 ==> s.sched.imu.nextDue - s.pc.stamp > s.cfg.guardWindow)
    && (s.sched.motor.interval > 0 ==> s.sched.motor.nextDue - s.pc.stamp > s.cfg.guardWindow)
    && s.sched.inFlight.None?
  }

  // ---- The queue is in the order of issue -------------------------------------------------

  predicate Ordered(q: seq<Request>, n: nat) {
    && (forall i, j :: 0 <= i < j < |q| ==> q[i].id < q[j].id)
    && forall i :: 0 <= i < |q| ==> q[i].id < n
  }

  predicate OrderInv(s: State) {
    ControlInv(s) && Ordered(s.sched.requests, |s.past.issued|)
  }

  lemma {:induction false} UnexpiredOrdered(q: seq<Request>, now: int, n: nat)
    requires Ordered(q, n)
    ensures Ordered(Unexpired(q, now), n)
    ensures forall r :: r in Unexpired(q, now) ==> r in q
  {
    if q != [] {
      UnexpiredOrdered(q[1..], now, n);
      var rest := Unexpired(q[1..], now);
      forall j | 0 <= j < |rest|
        ensures q[0].id < rest[j].id
      {
        assert rest[j] in q[1..];
      }
    }
  }

  lemma OrderAsks(s: State, e: Event)
    requires OrderInv(s) && (e.AskVersion? || e.Request?)
    ensures Ordered(Step(s, e).sched.requests, |Step(s, e).past.issued|)
  {
    var q, more := s.sched.requests, Step(s, e).sched.requests;
    if more != q {
      assert more == q + [more[|q|]] && more[|q|].id == |s.past.issued|;
    }
  }

  lemma OrderCaller(s: State, e: Event)
    requires OrderInv(s) && !e.Io? && !e.AskVersion? && !e.Request?
    ensures Ordered(Step(s, e).sched.requests, |Step(s, e).past.issued|)
  {}

  lemma OrderSweep(s: State, e: Event)
    requires OrderInv(s) && e.Io? && s.pc.Sweep?
    ensures Ordered(Step(s, e).sched.requests, |Step(s, e).past.issued|)
  {
    UnexpiredOrdered(s.sched.requests, s.now, |s.past.issued|);
  }

  lemma OrderTake(s: State, e: Event)
    requires OrderInv(s) && e.Io? && s.pc.QueryTake?
    ensures Ordered(Step(s, e).sched.requests, |Step(s, e).past.issued|)
  {
    UnexpiredOrdered(s.sched.requests, s.pc.stamp, |s.past.issued|);
  }

  lemma OrderQueues(s: State, e: Event)
    requires e.Io? && (s.pc == Reading || s.pc == Clearing || Plain(s.pc) || s.pc.Finishing?)
    ensures Step(s, e).sched.requests == s.sched.requests || Step(s, e).sched.requests == []
    ensures Step(s, e).past.issued == s.past.issued
  {}

  lemma OrderOther(s: State, e: Event)
    requires e.Io? && (Schedules(s.pc) || s.pc.Writing?)
    ensures Step(s, e).sched.requests == s.sched.requests && Step(s, e).past.issued == s.past.issued
  {}

  lemma OrderStep(s: State, e: Event)
    requires OrderInv(s)
    ensures OrderInv(Step(s, e))
  {
    ControlStep(s, e);
    if e.AskVersion? || e.Request? {
      OrderAsks(s, e);
    } else if !e.Io? {
      OrderCaller(s, e);
    } else if s.pc.Sweep? {
      OrderSweep(s, e);
    } else if s.pc.QueryTake? {
      OrderTake(s, e);
    } else if Schedules(s.pc) || s.pc.Writing? {
      OrderOther(s, e);
    } else {
      OrderQueues(s, e);
    }
  }

  lemma OrderReachable(s: State)
    requires Reachable(s)
    ensures OrderInv(s)
  {
    forall cfg, imu: nat, motor: nat, now
      ensures OrderInv(Init(cfg, imu, motor, now))
    {
      InitControl(cfg, imu, motor, now);
    }
    forall t, e | OrderInv(t)
      ensures OrderInv(Step(t, e))
    {
      OrderStep(t, e);
    }
    ReachableKeeps(OrderInv, s);
  }

  lemma FirstIsOldest(q: seq<Request>, r: Request, now: int, n: nat)
    requires Ordered(q, n) && FirstLive(q, r, now)
    ensures forall i :: 0 <= i < |q| && q[i].deadline > now ==> r.id <= q[i].id
  {
    var i :| 0 <= i < |q| && q[i] == r && forall j :: 0 <= j < i ==> q[j].deadline <= now;
  }

  lemma UnexpiredIsFirst(q: seq<Request>, now: int)
    requires Unexpired(q, now) != []
    ensures FirstLive(q, Unexpired(q, now)[0], now)
  {
    FirstUnexpired(q, now);
    EarlierExpired(q, Unexpired(q, now)[0], now);
  }

  lemma OneFirst(q: seq<Request>, r: Request, x: Request, now: int)
    requires FirstLive(q, r, now) && FirstLive(q, x, now)
    ensures r == x
  {
    var i :| 0 <= i < |q| && q[i] == r && forall j :: 0 <= j < i ==> q[j].deadline <= now;
    var k :| 0 <= k < |q| && q[k] == x && forall j :: 0 <= j < k ==> q[j].deadline <= now;
    assert i == k;
  }

  lemma NoneIsLive(q: seq<Request>, r: Request, now: int)
    requires FirstLive(q, r, now)
    ensures Unexpired(q, now) != []
  {
    SweepSorts(q, now);
    assert r in Unexpired(q, now);
  }

  lemma FirstIsHead(q: seq<Request>, r: Request, now: int)
    ensures FirstLive(q, r, now) <==> Unexpired(q, now) != [] && r == Unexpired(q, now)[0]
  {
    if Unexpired(q, now) != [] {
      UnexpiredIsFirst(q, now);
    }
    if FirstLive(q, r, now) {
      NoneIsLive(q, r, now);
      OneFirst(q, r, Unexpired(q, now)[0], now);
    }
  }

  lemma TakeStep(s: State, result: Result)
    requires s.pc.QueryTake?
    ensures var live := Unexpired(s.sched.requests, s.pc.stamp);
            Step(s, Io(result)).pc ==
            Finishing(if live != []
                         && (s.sched.imu.interval > 0 ==> s.sched.imu.nextDue - s.pc.stamp > s.cfg.guardWindow)
                         && (s.sched.motor.interval > 0 ==> s.sched.motor.nextDue - s.pc.stamp > s.cfg.guardWindow)
                      then ToSend(live[0]) else ToTop)
  {}

  lemma AdmitsHead(s: State, r: Request)
    requires OrderInv(s) && s.pc.QueryTake?
    ensures var live := Unexpired(s.sched.requests, s.pc.stamp);
            Admits(s, r) <==>
            && live != [] && r == live[0]
            && (s.sched.imu.interval > 0 ==> s.sched.imu.nextDue - s.pc.stamp > s.cfg.guardWindow)
            && (s.sched.motor.interval > 0 ==> s.sched.motor.nextDue - s.pc.stamp > s.cfg.guardWindow)
  {
    FirstIsHead(s.sched.requests, r, s.pc.stamp);
    if FirstLive(s.sched.requests, r, s.pc.stamp) {
      FirstIsOldest(s.sched.requests, r, s.pc.stamp, |s.past.issued|);
    }
  }

  /** Over every run: the I/O thread takes a query if and only if it may be admitted, and otherwise goes on. */
  lemma TakesExactlyTheAdmitted(s: State, result: Result, r: Request)
    requires Reachable(s) && s.pc.QueryTake?
    ensures Step(s, Io(result)).pc == Finishing(ToSend(r)) <==> Admits(s, r)
    ensures (forall x :: !Admits(s, x)) ==> Step(s, Io(result)).pc == Finishing(ToTop)
  {
    OrderReachable(s);
    TakeStep(s, result);
    AdmitsHead(s, r);
    var live := Unexpired(s.sched.requests, s.pc.stamp);
    if live != [] {
      AdmitsHead(s, live[0]);
    }
  }

  /** The request the I/O thread is about to write, is writing or has just written. */
  function Carried(pc: Pc): Option<Request> {
    match pc
    case Finishing(after) => if after.ToSend? then Some(after.request) else None
    case Writing(_, _, job) => if job.Ask? then Some(job.request) else None
    case Installing(r) => Some(r)
    case _ => None
  }

  predicate Underway(s: State, r: Request) {
    Carried(s.pc) == Some(r) || s.sched.inFlight == Some(r)
  }

  lemma CallerStarts(s: State, e: Event, r: Request)
    requires ControlInv(s) && !e.Io? && Underway(Step(s, e), r)
    ensures Underway(s, r)
  {}

  lemma PlainStarts(s: State, e: Event, r: Request)
    requires e.Io? && Plain(s.pc) && Underway(Step(s, e), r)
    ensures Underway(s, r)
  {}

  lemma RegionStarts(s: State, e: Event, r: Request)
    requires ControlInv(s) && e.Io? && !Plain(s.pc) && !s.pc.Finishing? && !s.pc.Writing? && !s.pc.QueryTake?
    requires r.purpose.Query? && Underway(Step(s, e), r)
    ensures Underway(s, r)
  {}

  lemma TakeStarts(s: State, e: Event, r: Request)
    requires OrderInv(s) && e.Io? && s.pc.QueryTake? && Underway(Step(s, e), r)
    ensures Underway(s, r) || Admits(s, r)
  {
    TakeStep(s, e.result);
    AdmitsHead(s, r);
  }

  lemma FinishStarts(s: State, e: Event, r: Request)
    requires e.Io? && s.pc.Finishing? && Underway(Step(s, e), r)
    ensures Underway(s, r)
  {}

  lemma WriteStarts(s: State, e: Event, r: Request)
    requires e.Io? && s.pc.Writing? && Underway(Step(s, e), r)
    ensures Underway(s, r)
  {}

  lemma StepStarts(s: State, e: Event, r: Request)
    requires OrderInv(s) && r.purpose.Query? && Underway(Step(s, e), r)
    ensures Underway(s, r) || Admits(s, r)
  {
    if !e.Io? {
      CallerStarts(s, e, r);
    } else if Plain(s.pc) {
      PlainStarts(s, e, r);
    } else if s.pc.Finishing? {
      FinishStarts(s, e, r);
    } else if s.pc.Writing? {
      WriteStarts(s, e, r);
    } else if s.pc.QueryTake? {
      TakeStarts(s, e, r);
    } else {
      RegionStarts(s, e, r);
    }
  }

  lemma NothingUnderwayAtFirst(cfg: Config, imu: nat, motor: nat, now: int, r: Request)
    ensures !Underway(Init(cfg, imu, motor, now), r)
  {}

  /** Over every run: a query being written or in flight was taken from the queue at some earlier step,
      and was admitted then. */
  lemma QueriesAreAdmitted(cfg: Config, imu: nat, motor: nat, now: int, events: seq<Event>, r: Request) returns (m: nat)
    requires r.purpose.Query? && Underway(Run(Init(cfg, imu, motor, now), events), r)
    ensures m < |events| && Admits(Run(Init(cfg, imu, motor, now), events[..m]), r)
    ensures !Underway(Run(Init(cfg, imu, motor, now), events[..m]), r)
    ensures Underway(Run(Init(cfg, imu, motor, now), events[..m + 1]), r)
  {
    NothingUnderwayAtFirst(cfg, imu, motor, now, r);
    InitControl(cfg, imu, motor, now);
    forall t, e | OrderInv(t)
      ensures OrderInv(Step(t, e))
    {
      OrderStep(t, e);
    }
    var has, right := (t: State) => Underway(t, r), (t: State) => Admits(t, r);
    forall t, e | OrderInv(t) && !has(t) && has(Step(t, e))
      ensures right(t)
    {
      StepStarts(t, e, r);
    }
    m := BeganRightly(Step, OrderInv, has, right, Init(cfg, imu, motor, now), events);
  }

  /** Over every run: a request leaves the in-flight slot before another one enters it. */
  lemma SlotIsNeverOverwritten(s: State, e: Event)
    requires Reachable(s) && s.sched.inFlight.Some?
    ensures Step(s, e).sched.inFlight.None? || Step(s, e).sched.inFlight == s.sched.inFlight
  {
    ControlReachable(s);
    if !e.Io? {
      SlotCaller(s, e);
    } else if s.pc.Finishing? {
      SlotFinish(s, e);
    } else {
      SlotIo(s, e);
    }
  }

  lemma SlotCaller(s: State, e: Event)
    requires !e.Io?
    ensures Step(s, e).sched.inFlight.None? || Step(s, e).sched.inFlight == s.sched.inFlight
  {}

  lemma SlotFinish(s: State, e: Event)
    requires e.Io? && s.pc.Finishing?
    ensures Step(s, e).sched.inFlight == s.sched.inFlight
  {}

  lemma SlotIo(s: State, e: Event)
    requires ControlInv(s) && e.Io? && !s.pc.Finishing? && s.sched.inFlight.Some?
    ensures Step(s, e).sched.inFlight.None? || Step(s, e).sched.inFlight == s.sched.inFlight
  {}
}
