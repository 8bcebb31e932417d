/**
 The suppression of output around calibration. The caller holds the management lock, queues the
 suppression and then makes the request. The request can go out while the suppression waits exactly
 when the present pass of the I/O loop can still take it, or the suppression is behind another command
 and the loop goes on.
 */
module CalibrationLaws {
  import opened Framing
  import opened Scheduling
  import opened Client
  import opened Runs
  import opened ExactlyOnce
  import opened CommandLaws
  import opened PriorityLaws
  import opened ManagementLaws
  import opened PassLaws
  import SchedulerClass

  /** The step starts writing request `body` of operation `op`, issued as number `n` or later. */
  predicate Sends(s: State, e: Event, op: nat, n: nat, body: Payload) {
    && Logged(s, e).Some? && Logged(s, e).value.RequestOut?
    && var r := Logged(s, e).value.request; r.op == op && r.id >= n && r.body == body
  }

  /** The lock's holder is about to make a request of its choice, as calibration is once it has
      queued the suppression. */
  predicate AboutToAsk(s: State, op: nat, n: nat, body: Payload) {
    && s.management.Busy? && s.management.op == op && s.management.script.Other? && s.management.phase.Ready?
    && |s.past.issued| == n && ValidPayload(body) && NextBody(s.management, body) == body
  }

  /** The present pass can still take a request that is yet to be made. */
  predicate CanTake(s: State) {
    s.sched.running &&
    match s.pc
    case Writing(body, done, job) => job.Queued? && done < FrameSize(body) && Clearable(s)
    case Sweep(second) => second && Clearable(s)
    case Finishing(after) => after.ToCheck? && s.sched.inFlight.None?
    case CheckInFlight => s.sched.inFlight.None?
    case PollSelect(stamp) => Unexpired(s.sched.requests, stamp) == []
    case QueryTake(stamp) => Unexpired(s.sched.requests, stamp) == []
    case _ => false
  }

  // ---- When it cannot ---------------------------------------------------------------------

  predicate AllOld(q: seq<Request>, n: nat) {
    forall i :: 0 <= i < |q| ==> q[i].id < n
  }

  /** What is queued stays as old as it is. */
  predicate Closed(s: State, n: nat) {
    !s.sched.running && AllOld(s.sched.requests, n)
  }

  predicate FirstIsOld(q: seq<Request>, n: nat) {
    q != [] && q[0].id < n
  }

  /** The present pass cannot take a request issued as number `n` or later. */
  predicate Shut(s: State, n: nat) {
    match s.pc
    case Writing(body, done, job) => job.Queued? ==> !s.sched.running || done >= FrameSize(body) || !Clearable(s)
    case Sweep(second) => second ==> !Clearable(s) || Closed(s, n)
    case Finishing(after) =>
      && (after.ToCheck? ==> s.sched.inFlight.Some? || Closed(s, n))
      && (after.ToSend? ==> after.request.id < n)
    case CheckInFlight => s.sched.inFlight.Some? || Closed(s, n)
    case PollSelect(stamp) => FirstIsOld(Unexpired(s.sched.requests, stamp), n) || Closed(s, n)
    case QueryTake(stamp) => FirstIsOld(Unexpired(s.sched.requests, stamp), n) || Closed(s, n)
    case _ => true
  }

  lemma {:induction false} UnexpiredOld(q: seq<Request>, now: int, n: nat)
    requires AllOld(q, n)
    ensures AllOld(Unexpired(q, now), n)
  {
    if q != [] {
      UnexpiredOld(q[1..], now, n);
    }
  }

  lemma ShutAsk(s: State, e: Event, n: nat)
    requires Shut(s, n) && (e.AskVersion? || e.Request?)
    ensures Shut(Step(s, e), n)
  {
    if s.sched.running {
      AskAppends(s, e);
      AskOnlyQueues(s, e);
      if s.pc.PollSelect? || s.pc.QueryTake? {
        FirstStays(s.sched.requests, Step(s, e).sched.requests, s.pc.stamp);
      }
    } else {
      NothingToAsk(s, e);
    }
  }

  lemma AskAppends(s: State, e: Event)
    requires e.AskVersion? || e.Request?
    ensures Step(s, e).sched.requests == s.sched.requests ||
            exists r :: Step(s, e).sched.requests == s.sched.requests + [r]
  {
    var q, more := s.sched.requests, Step(s, e).sched.requests;
    if more != q {
      assert more == q + [more[|q|]];
    }
  }

  lemma FirstStays(q: seq<Request>, more: seq<Request>, now: int)
    requires more == q || exists r :: more == q + [r]
    ensures Unexpired(q, now) != [] ==> Unexpired(more, now) != [] && Unexpired(more, now)[0] == Unexpired(q, now)[0]
  {
    if more != q {
      var r :| more == q + [r];
      SchedulerClass.ExpiredAppend(q, r, now);
    }
  }

  /** Other callers leave what matters alone, or stop the transport. */
  lemma CallerLeaves(s: State, e: Event)
    requires !e.Io? && !e.AskVersion? && !e.Request?
    ensures var t := Step(s, e);
            || (t.pc == s.pc && t.sched.requests == s.sched.requests && t.sched.inFlight == s.sched.inFlight &&
                (t.sched.running ==> s.sched.running))
            || s.pc == Stopped
  {}

  lemma StoppedStaysShut(s: State, e: Event, n: nat)
    requires !e.Io? && s.pc == Stopped
    ensures Shut(Step(s, e), n)
  {}

  lemma ShutCaller(s: State, e: Event, n: nat)
    requires Shut(s, n) && !e.Io? && !e.AskVersion? && !e.Request?
    ensures Shut(Step(s, e), n)
  {
    CallerLeaves(s, e);
    if s.pc == Stopped {
      StoppedStaysShut(s, e, n);
    }
  }

  lemma ShutPlain(s: State, e: Event, n: nat)
    requires Shut(s, n) && e.Io? && Plain(s.pc)
    ensures Shut(Step(s, e), n)
  {}

  lemma ShutFinish(s: State, e: Event, n: nat)
    requires Shut(s, n) && e.Io? && s.pc.Finishing?
    ensures Shut(Step(s, e), n)
  {}

  lemma ShutWrite(s: State, e: Event, n: nat)
    requires Shut(s, n) && e.Io? && s.pc.Writing?
    ensures Shut(Step(s, e), n)
  {}

  lemma ShutSweep(s: State, e: Event, n: nat)
    requires Shut(s, n) && e.Io? && s.pc.Sweep?
    ensures Shut(Step(s, e), n)
  {
    if Closed(s, n) {
      UnexpiredOld(s.sched.requests, s.now, n);
    }
  }

  lemma ShutTake(s: State, e: Event, n: nat)
    requires Shut(s, n) && e.Io? && s.pc.QueryTake?
    ensures Shut(Step(s, e), n)
  {
    if Closed(s, n) {
      UnexpiredOld(s.sched.requests, s.pc.stamp, n);
    }
  }

  lemma ShutOther(s: State, e: Event, n: nat)
    requires e.Io? && (Schedules(s.pc) || s.pc.Reading? || s.pc.Clearing?) && s.pc != Popping
    ensures Shut(Step(s, e), n)
  {}

  lemma ShutStep(s: State, e: Event, n: nat)
    requires Shut(s, n) && !IsPop(MoveOf(s, e))
    ensures Shut(Step(s, e), n)
  {
    if e.AskVersion? || e.Request? {
      ShutAsk(s, e, n);
    } else if !e.Io? {
      ShutCaller(s, e, n);
    } else if Plain(s.pc) {
      ShutPlain(s, e, n);
    } else if s.pc.Finishing? {
      ShutFinish(s, e, n);
    } else if s.pc.Writing? {
      ShutWrite(s, e, n);
    } else if s.pc.Sweep? {
      ShutSweep(s, e, n);
    } else if s.pc.QueryTake? {
      ShutTake(s, e, n);
    } else {
      ShutOther(s, e, n);
    }
  }

  lemma ShutSendsNothing(s: State, e: Event, op: nat, n: nat, body: Payload)
    requires Shut(s, n)
    ensures !Sends(s, e, op, n, body)
  {}

  /** How often the events start writing the request. */
  function Sendings(s: State, events: seq<Event>, op: nat, n: nat, body: Payload): nat {
    CountOf(Yes, Trace(Step, (t: State, e: Event) => Sends(t, e, op, n, body), s, events))
  }

  /** Everything queued or about to be sent was issued before now. */
  lemma QueuedIsOld(s: State)
    requires Reachable(s)
    ensures AllOld(s.sched.requests, |s.past.issued|)
    ensures s.pc.Finishing? && s.pc.after.ToSend? && s.pc.after.request.purpose.Query? ==>
              s.pc.after.request.id < |s.past.issued|
  {
    RequestReachable(s);
    QueuedAreQueries(s);
    var p := PlacesOf(s);
    forall i | 0 <= i < |s.sched.requests|
      ensures s.sched.requests[i].id < |s.past.issued|
    {
      assert s.sched.requests[i] in p.queued;
      FoundIsIssued(p, s.sched.requests[i]);
    }
    if s.pc.Finishing? && s.pc.after.ToSend? && s.pc.after.request.purpose.Query? {
      assert s.pc.after.request in p.held;
      FoundIsIssued(p, s.pc.after.request);
    }
  }

  /** Only queries are queued, and only they go through a hand-over. */
  predicate OnlyQueries(s: State) {
    && (forall i :: 0 <= i < |s.sched.requests| ==> s.sched.requests[i].purpose.Query?)
    && (s.pc.Finishing? && s.pc.after.ToSend? ==> s.pc.after.request.purpose.Query?)
  }

  lemma {:induction false} UnexpiredQueries(q: seq<Request>, now: int)
    requires forall i :: 0 <= i < |q| ==> q[i].purpose.Query?
    ensures forall i :: 0 <= i < |Unexpired(q, now)| ==> Unexpired(q, now)[i].purpose.Query?
  {
    if q != [] {
      UnexpiredQueries(q[1..], now);
    }
  }

  lemma QueriesCaller(s: State, e: Event)
    requires OnlyQueries(s) && !e.Io?
    ensures OnlyQueries(Step(s, e))
  {}

  lemma QueriesSwept(s: State, e: Event)
    requires OnlyQueries(s) && e.Io? && s.pc.Sweep?
    ensures OnlyQueries(Step(s, e))
  {
    UnexpiredQueries(s.sched.requests, s.now);
  }

  lemma QueriesTaken(s: State, e: Event)
    requires OnlyQueries(s) && e.Io? && s.pc.QueryTake?
    ensures OnlyQueries(Step(s, e))
  {
    UnexpiredQueries(s.sched.requests, s.pc.stamp);
  }

  lemma QueriesPlain(s: State, e: Event)
    requires OnlyQueries(s) && e.Io? && (Plain(s.pc) || s.pc.Reading? || s.pc.Clearing?)
    ensures OnlyQueries(Step(s, e))
  {}

  lemma QueriesIo(s: State, e: Event)
    requires OnlyQueries(s) && e.Io? && (Schedules(s.pc) || s.pc.Finishing? || s.pc.Writing?)
    ensures OnlyQueries(Step(s, e))
  {}

  lemma QueuedAreQueries(s: State)
    requires Reachable(s)
    ensures OnlyQueries(s)
  {
    forall t, e | OnlyQueries(t)
      ensures OnlyQueries(Step(t, e))
    {
      if !e.Io? {
        QueriesCaller(t, e);
      } else if t.pc.Sweep? {
        QueriesSwept(t, e);
      } else if t.pc.QueryTake? {
        QueriesTaken(t, e);
      } else if Schedules(t.pc) || t.pc.Finishing? || t.pc.Writing? {
        QueriesIo(t, e);
      } else {
        QueriesPlain(t, e);
      }
    }
    ReachableKeeps(OnlyQueries, s);
  }

  lemma NotTakenIsShut(s: State)
    requires Reachable(s) && !CanTake(s)
    ensures Shut(s, |s.past.issued|)
  {
    QueuedIsOld(s);
    QueuedAreQueries(s);
    if s.pc.PollSelect? || s.pc.QueryTake? {
      UnexpiredOld(s.sched.requests, s.pc.stamp, |s.past.issued|);
    }
  }

  // ---- When it can ------------------------------------------------------------------------

  /** Whatever can be brought about can be brought about one step earlier, as long as the step leaves
      the command queue as it is; and sending the request brings it about. */
  ghost predicate BackwardTo(can: State -> bool, op: nat, n: nat, body: Payload) {
    forall s, e :: MoveOf(s, e).Keep? && (Sends(s, e, op, n, body) || can(Step(s, e))) ==> can(s)
  }

  lemma NowSent(can: State -> bool, s: State, e: Event, op: nat, n: nat, body: Payload)
    requires BackwardTo(can, op, n, body) && MoveOf(s, e).Keep? && Sends(s, e, op, n, body)
    ensures can(s)
  {}

  lemma SentLater(can: State -> bool, s: State, e: Event, op: nat, n: nat, body: Payload)
    requires BackwardTo(can, op, n, body) && MoveOf(s, e).Keep? && can(Step(s, e))
    ensures can(s)
  {}

  lemma {:induction false} SendingCan(can: State -> bool, s: State, op: nat, n: nat, body: Payload)
    requires BackwardTo(can, op, n, body) && s.pc.Finishing? && s.pc.after.ToSend?
    requires var r := s.pc.after.request; r.op == op && r.id >= n && r.body == body
    ensures can(s)
    decreases |s.hand|
  {
    if s.hand == [] {
      NowSent(can, s, Io(Fine), op, n, body);
    } else {
      SendingCan(can, Step(s, Io(Fine)), op, n, body);
      SentLater(can, s, Io(Fine), op, n, body);
    }
  }

  /** The request has been made, is the only live one, and polls are disabled. */
  lemma TakingCan(can: State -> bool, s: State, op: nat, n: nat, body: Payload)
    requires BackwardTo(can, op, n, body) && s.pc.QueryTake?
    requires s.sched.imu.interval == 0 && s.sched.motor.interval == 0
    requires var live := Unexpired(s.sched.requests, s.pc.stamp);
             live != [] && live[0].op == op && live[0].id >= n && live[0].body == body
    ensures can(s)
  {
    SendingCan(can, Step(s, Io(Fine)), op, n, body);
    SentLater(can, s, Io(Fine), op, n, body);
  }

  lemma AskedIsLive(s: State, stamp: int, op: nat, n: nat, body: Payload)
    requires AboutToAsk(s, op, n, body) && s.sched.running && Unexpired(s.sched.requests, stamp) == []
    ensures var t := Step(s, Event.Request(body, stamp + 1));
            var live := Unexpired(t.sched.requests, stamp);
            && t.pc == s.pc && t.sched == s.sched.(requests := t.sched.requests)
            && live != [] && live[0].op == op && live[0].id >= n && live[0].body == body
  {
    var r := Scheduling.Request(Query, n, op, body[0], body, stamp + 1, true);
    assert Step(s, Event.Request(body, stamp + 1)).sched.requests == s.sched.requests + [r];
    SchedulerClass.ExpiredAppend(s.sched.requests, r, stamp);
  }

  lemma AskingCan(can: State -> bool, s: State, op: nat, n: nat, body: Payload)
    requires BackwardTo(can, op, n, body) && s.pc.QueryTake? && AboutToAsk(s, op, n, body) && CanTake(s)
    requires s.sched.imu.interval == 0 && s.sched.motor.interval == 0
    ensures can(s)
  {
    var e := Event.Request(body, s.pc.stamp + 1);
    AskedIsLive(s, s.pc.stamp, op, n, body);
    TakingCan(can, Step(s, e), op, n, body);
    SentLater(can, s, e, op, n, body);
  }

  /** Disabling the polls changes nothing else that matters. */
  lemma Disabled(s: State, k: Source, op: nat, n: nat, body: Payload)
    requires AboutToAsk(s, op, n, body) && CanTake(s)
    ensures var t := Step(s, SetInterval(k, 0));
            && AboutToAsk(t, op, n, body) && CanTake(t) && t.pc == s.pc
            && ChannelOf(t.sched, k).interval == 0
            && ChannelOf(t.sched, Scheduling.Other(k)) == ChannelOf(s.sched, Scheduling.Other(k))
  {}

  lemma QuietAskingCan(can: State -> bool, s: State, op: nat, n: nat, body: Payload)
    requires BackwardTo(can, op, n, body) && s.pc.QueryTake? && AboutToAsk(s, op, n, body) && CanTake(s)
    ensures can(s)
  {
    var t := Step(s, SetInterval(Imu, 0));
    Disabled(s, Imu, op, n, body);
    Disabled(t, Motor, op, n, body);
    AskingCan(can, Step(t, SetInterval(Motor, 0)), op, n, body);
    SentLater(can, t, SetInterval(Motor, 0), op, n, body);
    SentLater(can, s, SetInterval(Imu, 0), op, n, body);
  }

  lemma SelectingCan(can: State -> bool, s: State, op: nat, n: nat, body: Payload)
    requires BackwardTo(can, op, n, body) && s.pc.PollSelect? && AboutToAsk(s, op, n, body) && CanTake(s)
    requires s.sched.imu.interval == 0 && s.sched.motor.interval == 0
    ensures can(s)
  {
    QuietAskingCan(can, Step(s, Io(Fine)), op, n, body);
    SentLater(can, s, Io(Fine), op, n, body);
  }

  lemma QuietSelectingCan(can: State -> bool, s: State, op: nat, n: nat, body: Payload)
    requires BackwardTo(can, op, n, body) && s.pc.PollSelect? && AboutToAsk(s, op, n, body) && CanTake(s)
    ensures can(s)
  {
    var t := Step(s, SetInterval(Imu, 0));
    Disabled(s, Imu, op, n, body);
    Disabled(t, Motor, op, n, body);
    SelectingCan(can, Step(t, SetInterval(Motor, 0)), op, n, body);
    SentLater(can, t, SetInterval(Motor, 0), op, n, body);
    SentLater(can, s, SetInterval(Imu, 0), op, n, body);
  }

  /** A time by which every queued request has expired. */
  function Latest(q: seq<Request>, now: int): (late: int)
    ensures late >= now
  {
    if q == [] then now
    else var rest := Latest(q[1..], now); if q[0].deadline > rest then q[0].deadline else rest
  }

  lemma {:induction false} LatestExpires(q: seq<Request>, now: int, late: int)
    requires late >= Latest(q, now)
    ensures Unexpired(q, late) == []
  {
    if q != [] {
      LatestExpires(q[1..], now, late);
    }
  }

  lemma IdlingCan(can: State -> bool, s: State, op: nat, n: nat, body: Payload)
    requires BackwardTo(can, op, n, body) && s.pc == CheckInFlight && AboutToAsk(s, op, n, body) && CanTake(s)
    requires Unexpired(s.sched.requests, s.now) == []
    ensures can(s)
  {
    QuietSelectingCan(can, Step(s, Io(Fine)), op, n, body);
    SentLater(can, s, Io(Fine), op, n, body);
  }

  lemma Ticked(s: State, dt: nat, op: nat, n: nat, body: Payload)
    requires AboutToAsk(s, op, n, body) && CanTake(s)
    ensures var t := Step(s, Tick(dt));
            AboutToAsk(t, op, n, body) && CanTake(t) && t.pc == s.pc && t.sched == s.sched && t.now == s.now + dt
  {}

  lemma CheckingCan(can: State -> bool, s: State, op: nat, n: nat, body: Payload)
    requires BackwardTo(can, op, n, body) && s.pc == CheckInFlight && AboutToAsk(s, op, n, body) && CanTake(s)
    ensures can(s)
  {
    var dt := Latest(s.sched.requests, s.now) - s.now;
    Ticked(s, dt, op, n, body);
    LatestExpires(s.sched.requests, s.now, s.now + dt);
    IdlingCan(can, Step(s, Tick(dt)), op, n, body);
    SentLater(can, s, Tick(dt), op, n, body);
  }

  lemma Finished(s: State, op: nat, n: nat, body: Payload)
    requires s.pc == Finishing(ToCheck) && AboutToAsk(s, op, n, body) && CanTake(s)
    ensures var t := Step(s, Io(Fine));
            && AboutToAsk(t, op, n, body) && CanTake(t)
            && (if s.hand == [] then t.pc == CheckInFlight else t.pc == s.pc && |t.hand| < |s.hand|)
  {}

  lemma {:induction false} FinishingCan(can: State -> bool, s: State, op: nat, n: nat, body: Payload)
    requires BackwardTo(can, op, n, body) && s.pc == Finishing(ToCheck) && AboutToAsk(s, op, n, body) && CanTake(s)
    ensures can(s)
    decreases |s.hand|
  {
    Finished(s, op, n, body);
    if s.hand == [] {
      CheckingCan(can, Step(s, Io(Fine)), op, n, body);
    } else {
      FinishingCan(can, Step(s, Io(Fine)), op, n, body);
    }
    SentLater(can, s, Io(Fine), op, n, body);
  }

  lemma SweptClean(s: State, op: nat, n: nat, body: Payload)
    requires s.pc == Sweep(true) && AboutToAsk(s, op, n, body) && CanTake(s)
    requires s.sched.inFlight.None? || InFlightExpired(s.sched, s.now)
    ensures var t := Step(s, Io(Fine)); t.pc == Finishing(ToCheck) && AboutToAsk(t, op, n, body) && CanTake(t)
  {}

  lemma SweepingCan(can: State -> bool, s: State, op: nat, n: nat, body: Payload)
    requires BackwardTo(can, op, n, body) && s.pc == Sweep(true) && AboutToAsk(s, op, n, body) && CanTake(s)
    ensures can(s)
  {
    var late := if s.sched.inFlight.Some? then s.sched.inFlight.value.deadline - s.now else 0;
    var dt := if late > 0 then late else 0;
    Ticked(s, dt, op, n, body);
    var t := Step(s, Tick(dt));
    SweptClean(t, op, n, body);
    FinishingCan(can, Step(t, Io(Fine)), op, n, body);
    SentLater(can, t, Io(Fine), op, n, body);
    SentLater(can, s, Tick(dt), op, n, body);
  }

  lemma WrittenOut(s: State, op: nat, n: nat, body: Payload)
    requires s.pc.Writing? && AboutToAsk(s, op, n, body) && CanTake(s)
    ensures var t := Step(s, Io(Moved(FrameSize(s.pc.body))));
            t.pc == Sweep(true) && AboutToAsk(t, op, n, body) && CanTake(t)
  {}

  lemma WritingCan(can: State -> bool, s: State, op: nat, n: nat, body: Payload)
    requires BackwardTo(can, op, n, body) && s.pc.Writing? && AboutToAsk(s, op, n, body) && CanTake(s)
    ensures can(s)
  {
    var e := Io(Moved(FrameSize(s.pc.body)));
    WrittenOut(s, op, n, body);
    SweepingCan(can, Step(s, e), op, n, body);
    SentLater(can, s, e, op, n, body);
  }

  lemma TakeableCan(can: State -> bool, s: State, op: nat, n: nat, body: Payload)
    requires BackwardTo(can, op, n, body) && AboutToAsk(s, op, n, body) && CanTake(s)
    ensures can(s)
  {
    match s.pc
    case Writing(_, _, _) => WritingCan(can, s, op, n, body);
    case Sweep(_) => SweepingCan(can, s, op, n, body);
    case Finishing(_) => FinishingCan(can, s, op, n, body);
    case CheckInFlight => CheckingCan(can, s, op, n, body);
    case PollSelect(_) => QuietSelectingCan(can, s, op, n, body);
    case QueryTake(_) => QuietAskingCan(can, s, op, n, body);
    case _ =>
  }

  // ---- Past the commands ahead ------------------------------------------------------------

  lemma UnmanagedIsSoft(p: Places, q: seq<Request>)
    requires AllFit(p) && NoManaged(q) && (q == p.queued || q == p.flying || q == p.held)
    ensures SoftAll(q)
  {
    forall i | 0 <= i < |q|
      ensures !q[i].stopOnTimeout
    {
      assert Fit(q[i]);
    }
  }

  /** Nothing of an operation is outstanding when nobody waits for it. */
  lemma AllSoft(s: State)
    requires Reachable(s) && (s.management.Busy? ==> !s.management.phase.Waiting?)
    ensures var p := PlacesOf(s); SoftAll(p.queued) && SoftAll(p.flying) && SoftAll(p.held)
  {
    ManagementReachable(s);
    var p := PlacesOf(s);
    NotWaitingMeansNone(p, s.management);
    UnmanagedIsSoft(p, p.queued);
    UnmanagedIsSoft(p, p.flying);
    UnmanagedIsSoft(p, p.held);
  }

  lemma NothingGrave(s: State)
    requires Reachable(s) && (s.management.Busy? ==> !s.management.phase.Waiting?)
    ensures SoftQueue(s) && !Grave(s)
  {
    AllSoft(s);
    var p := PlacesOf(s);
    assert s.pc.Finishing? && s.pc.after.ToSend? ==> p.held[0] == s.pc.after.request;
    if Flight(s).Some? {
      assert p.held == [Flight(s).value] || p.flying == [Flight(s).value];
      assert SoftAll([Flight(s).value]) && [Flight(s).value][0] == Flight(s).value;
    }
  }

  /** At the next pop another command is popped, and the pass can take the request. */
  lemma PoppingCan(can: State -> bool, s: State, op: nat, n: nat, body: Payload, c: Command)
    requires BackwardTo(can, op, n, body) && BackWaiting(can, c)
    requires Going(s, c) && s.pc == Popping && !Grave(s) && AboutToAsk(s, op, n, body)
    ensures can(s)
  {
    PopsAnother(s, c);
    TakeableCan(can, Step(s, Io(Fine)), op, n, body);
    OneEarlier(can, s, Io(Fine), c);
  }

  lemma PassingCan(can: State -> bool, s: State, op: nat, n: nat, body: Payload, c: Command)
    requires BackwardTo(can, op, n, body) && BackWaiting(can, c)
    requires Going(s, c) && !Grave(s) && AboutToAsk(s, op, n, body)
    ensures can(s)
  {
    forall t | NextPop(s, t, c)
      ensures can(t)
    {
      PoppingCan(can, t, op, n, body, c);
    }
    AtTheNextPop(can, s, c);
  }

  lemma WaitingCanPass(can: State -> bool, s: State, op: nat, n: nat, body: Payload, k: nat)
    requires Reachable(s) && Sane(s.cfg) && AboutToAsk(s, op, n, body) && CanPass(s) && 0 < k < |CommandsOf(s)|
    requires BackwardTo(can, op, n, body) && BackWaiting(can, CommandsOf(s)[k])
    ensures can(s)
  {
    var c := CommandsOf(s)[k];
    NothingGrave(s);
    PassIsReady(s, k);
    forall t | Going(t, c) && Refreshed(s, t, c)
      ensures can(t)
    {
      PassingCan(can, t, op, n, body, c);
    }
    FromHere(can, s, c);
  }

  // ---- Where it cannot pass ---------------------------------------------------------------

  /** The request cannot be taken, and will not be as long as `c` waits. */
  predicate Jam(s: State, c: Command, n: nat) {
    && ControlInv(s) && c in CommandsOf(s) && Shut(s, n)
    && (Leaving(s.pc) || !Unstuck(s.pc) || CommandsOf(s)[0] == c || (!s.sched.running && AllOld(s.sched.requests, n)))
  }

  lemma OldStays(s: State, e: Event, n: nat)
    requires AllOld(s.sched.requests, n) && !s.sched.running
    ensures AllOld(Step(s, e).sched.requests, n)
  {
    if e.AskVersion? || e.Request? {
      NothingToAsk(s, e);
    } else if e.Io? && s.pc.Sweep? {
      UnexpiredOld(s.sched.requests, s.now, n);
    } else if e.Io? && s.pc.QueryTake? {
      UnexpiredOld(s.sched.requests, s.pc.stamp, n);
      OldTaken(s, e, n);
    } else if e.Io? {
      RequestsStay(s, e);
    } else {
      CallerLeavesRequests(s, e);
    }
  }

  lemma OldTaken(s: State, e: Event, n: nat)
    requires e.Io? && s.pc.QueryTake? && AllOld(Unexpired(s.sched.requests, s.pc.stamp), n)
    ensures AllOld(Step(s, e).sched.requests, n)
  {}

  lemma CallerLeavesRequests(s: State, e: Event)
    requires !e.Io? && !e.AskVersion? && !e.Request?
    ensures Step(s, e).sched.requests == s.sched.requests || Step(s, e).sched.requests == []
  {}

  lemma RequestsStay(s: State, e: Event)
    requires e.Io? && !s.pc.Sweep? && !s.pc.QueryTake?
    ensures Step(s, e).sched.requests == s.sched.requests || Step(s, e).sched.requests == []
  {}

  lemma StoppedPopShuts(s: State, e: Event, n: nat)
    requires e.Io? && s.pc == Popping && s.sched.commands != [] && !s.sched.running
    ensures Shut(Step(s, e), n)
  {}

  lemma JamShuts(s: State, e: Event, c: Command, n: nat)
    requires Jam(s, c, n) && Spared(GlanceOf(s, e), c)
    ensures Shut(Step(s, e), n)
  {
    if MoveOf(s, e).Pop? {
      StoppedPopShuts(s, e, n);
    } else {
      ShutStep(s, e, n);
    }
  }

  lemma JamStep(s: State, e: Event, op: nat, n: nat, body: Payload, c: Command)
    requires Jam(s, c, n) && Spared(GlanceOf(s, e), c)
    ensures !Sends(s, e, op, n, body) && Jam(Step(s, e), c, n)
  {
    ControlStep(s, e);
    StaysQueued(s, e, c);
    JamShuts(s, e, c, n);
    ShutSendsNothing(s, e, op, n, body);
    if Leaving(s.pc) {
      LeavingStays(s, e, c);
    } else if !Unstuck(s.pc) {
      StuckLeaves(s, e);
    } else if CommandsOf(s)[0] == c {
      HeadStays(s, e, c);
    } else {
      StoppedStays(s, e, c);
      OldStays(s, e, n);
    }
  }

  // ---- Theorem ----------------------------------------------------------------------------

  /** The exact condition. The holder of the lock is about to make its request while command `c` waits at
      index k of the queue (the suppression it has queued, say). The request can go out with `c` still
      waiting if and only if the present pass can still take it, or `c` is behind another command and
      the I/O loop goes on. */
  lemma CalibrationGoesFirstExactlyWhen(s: State, op: nat, body: Payload, k: nat)
    requires Reachable(s) && Sane(s.cfg) && AboutToAsk(s, op, |s.past.issued|, body) && k < |CommandsOf(s)|
    ensures CanTake(s) || (k > 0 && CanPass(s)) <==>
            exists events ::
              Waits(s, events, CommandsOf(s)[k]) && Sendings(s, events, op, |s.past.issued|, body) > 0
  {
    var n, c := |s.past.issued|, CommandsOf(s)[k];
    var mark := (t: State, e: Event) => Sends(t, e, op, n, body);
    QueueReachable(s);
    WaitingCan(mark, c, s);
    if CanTake(s) || (k > 0 && CanPass(s)) {
      CalibrationCan(mark, s, op, n, body, k);
    } else {
      CalibrationCannot(mark, s, op, n, body, k);
    }
  }

  lemma CalibrationCan(mark: (State, Event) -> bool, s: State, op: nat, n: nat, body: Payload, k: nat)
    requires Reachable(s) && Sane(s.cfg) && AboutToAsk(s, op, n, body) && k < |CommandsOf(s)|
    requires CanTake(s) || (k > 0 && CanPass(s))
    requires forall t, e :: mark(t, e) <==> Sends(t, e, op, n, body)
    ensures Can(mark, CommandsOf(s)[k], s)
  {
    var c := CommandsOf(s)[k];
    var can := (t: State) => Can(mark, c, t);
    forall t, e | Spared(GlanceOf(t, e), c) && (Sends(t, e, op, n, body) || can(Step(t, e)))
      ensures can(t)
    {
      CanEarlier(mark, c, t, e);
    }
    if CanTake(s) {
      TakeableCan(can, s, op, n, body);
    } else {
      WaitingCanPass(can, s, op, n, body, k);
    }
  }

  lemma CalibrationCannot(mark: (State, Event) -> bool, s: State, op: nat, n: nat, body: Payload, k: nat)
    requires Reachable(s) && AboutToAsk(s, op, n, body) && k < |CommandsOf(s)|
    requires !CanTake(s) && (k == 0 || !CanPass(s))
    requires forall t, e :: mark(t, e) <==> Sends(t, e, op, n, body)
    ensures !Can(mark, CommandsOf(s)[k], s)
  {
    var c := CommandsOf(s)[k];
    NotTakenIsShut(s);
    QueuedIsOld(s);
    ControlReachable(s);
    forall t, e | Jam(t, c, n) && Spared(GlanceOf(t, e), c)
      ensures !mark(t, e) && Jam(Step(t, e), c, n)
    {
      JamStep(t, e, op, n, body, c);
    }
    JammedCannot(mark, c, (t: State) => Jam(t, c, n), s);
  }
}
