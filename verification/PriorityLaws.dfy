/**
 What the priority of commands over polls and queries amounts to. One command is popped per pass
 of the I/O loop and at most one poll or query is started per pass, after the pop. So a request
 may go out while commands wait, but each one has a pop of its own before it. `CanStart` says when
 the present pass can still start one; `OvertakingLaws` says when a waiting command is overtaken.
 */
module PriorityLaws {
  import opened Scheduling
  import opened Client
  import opened Runs
  import opened CommandLaws
  import SchedulerClass

  /** The step starts writing a poll or a query. */
  predicate StartsRequest(s: State, e: Event) {
    Logged(s, e).Some? && (Logged(s, e).value.Polled? || Logged(s, e).value.RequestOut?)
  }

  function Starts(s: State, events: seq<Event>): nat {
    CountOf(Yes, Trace(Step, StartsRequest, s, events))
  }

  /** Whether this pass has popped and may still start a request. */
  function Credit(pc: Pc): nat {
    match pc
    case Writing(_, _, job) => if job.Queued? then 1 else 0
    case Sweep(second) => if second then 1 else 0
    case Finishing(after) => if after.ToCheck? || after.ToSend? then 1 else 0
    case CheckInFlight | PollSelect(_) | PollMake(_, _) | QueryTake(_) => 1
    case _ => 0
  }

  function CreditOf(s: State): nat {
    Credit(s.pc)
  }

  lemma CreditCaller(s: State, e: Event)
    requires !e.Io?
    ensures !StartsRequest(s, e) && Credit(Step(s, e).pc) <= Credit(s.pc)
  {}

  lemma CreditPlain(s: State, e: Event)
    requires e.Io? && Plain(s.pc)
    ensures !StartsRequest(s, e) && Credit(Step(s, e).pc) <= Credit(s.pc)
  {}

  lemma CreditQueues(s: State, e: Event)
    requires e.Io? && (Queues(s.pc) || s.pc.Writing?)
    ensures !StartsRequest(s, e) && Credit(Step(s, e).pc) <= Credit(s.pc)
  {}

  lemma CreditSchedules(s: State, e: Event)
    requires e.Io? && Schedules(s.pc)
    ensures One(StartsRequest(s, e)) + Credit(Step(s, e).pc) <= Credit(s.pc) + One(s.pc == Popping)
  {}

  lemma CreditFinish(s: State, e: Event)
    requires e.Io? && s.pc.Finishing?
    ensures One(StartsRequest(s, e)) + Credit(Step(s, e).pc) <= Credit(s.pc)
  {}

  /** A request is started only on the credit of a pop. */
  lemma CreditStep(s: State, e: Event)
    ensures One(StartsRequest(s, e)) + CreditOf(Step(s, e)) <= CreditOf(s) + One(IsPop(MoveOf(s, e)))
  {
    if !e.Io? {
      CreditCaller(s, e);
    } else if Plain(s.pc) {
      CreditPlain(s, e);
    } else if s.pc.Finishing? {
      CreditFinish(s, e);
    } else if Schedules(s.pc) {
      CreditSchedules(s, e);
    } else {
      CreditQueues(s, e);
    }
  }

  /** Over every run, from any state: requests started never outnumber the pops by more than the
      credit of the present pass, and between two requests there is a pop. */
  lemma RequestsFollowPops(s: State, events: seq<Event>)
    ensures Starts(s, events) + CreditOf(Run(s, events)) <= CreditOf(s) + Pops(MovesOf(s, events))
  {
    forall t, e
      ensures One(StartsRequest(t, e)) + CreditOf(Step(t, e)) <= CreditOf(t) + One(IsPop(MoveOf(t, e)))
    {
      CreditStep(t, e);
    }
    Potential(Step, StartsRequest, MoveOf, IsPop, CreditOf, s, events);
  }

  /** Over every run: unless it is replaced or cleared, a command queued at index k goes to the writer
      after at most k other commands and at most k polls and queries, and one more if the present
      pass has popped already. */
  lemma CommandPriority(s: State, k: nat, events: seq<Event>) returns (n: nat)
    requires k < |CommandsOf(s)|
    requires Spares(MovesOf(s, events), CommandsOf(s)[k]) && Pops(MovesOf(s, events)) > k
    ensures n < |events| && PopsNext(Run(s, events[..n]), events[n], CommandsOf(s)[k])
    ensures Pops(MovesOf(s, events[..n])) <= k && Starts(s, events[..n]) <= k + CreditOf(s)
  {
    n := CommandWaitIsBounded(s, k, events);
    RequestsFollowPops(s, events[..n]);
  }

  /** In particular: a command at the head of the queue goes out before every other command, poll and
      query if the present pass is still to pop. */
  lemma HeadGoesFirst(s: State, events: seq<Event>) returns (n: nat)
    requires CommandsOf(s) != [] && CreditOf(s) == 0
    requires Spares(MovesOf(s, events), CommandsOf(s)[0]) && Pops(MovesOf(s, events)) > 0
    ensures n < |events| && PopsNext(Run(s, events[..n]), events[n], CommandsOf(s)[0])
    ensures Pops(MovesOf(s, events[..n])) == 0 && Starts(s, events[..n]) == 0
  {
    n := CommandPriority(s, 0, events);
  }

  // ---- When the head does not go first ----------------------------------------------------

  /** What is in flight can be out of the way by the end of this pass: a request that stops the
      transport when it times out cannot. */
  predicate Clearable(s: State) {
    s.sched.inFlight.None? || !s.sched.inFlight.value.stopOnTimeout
  }

  /** The present pass can still start a poll or a query. */
  predicate CanStart(s: State) {
    match s.pc
    case Writing(body, done, job) => job.Queued? && s.sched.running && done < FrameSize(body) && Clearable(s)
    case Sweep(second) => second && Clearable(s)
    case Finishing(after) => after.ToSend? || (after.ToCheck? && s.sched.inFlight.None?)
    case CheckInFlight => s.sched.inFlight.None?
    case PollSelect(stamp) =>
      || s.sched.running || s.sched.imu.nextDue <= stamp || s.sched.motor.nextDue <= stamp
      || Unexpired(s.sched.requests, stamp) != []
    case PollMake(k, stamp) => ChannelOf(s.sched, k).nextDue <= stamp
    case QueryTake(stamp) => s.sched.running || Unexpired(s.sched.requests, stamp) != []
    case _ => false
  }

  predicate Blocked(s: State) {
    !CanStart(s)
  }

  lemma NothingToAsk(s: State, e: Event)
    requires !s.sched.running && (e.AskVersion? || e.Request?)
    ensures Step(s, e).sched == s.sched && Step(s, e).pc == s.pc
  {}

  lemma AskOnlyQueues(s: State, e: Event)
    requires e.AskVersion? || e.Request?
    ensures Step(s, e).pc == s.pc && Step(s, e).sched == s.sched.(requests := Step(s, e).sched.requests)
  {}

  lemma BlockedAsk(s: State, e: Event)
    requires Blocked(s) && (e.AskVersion? || e.Request?)
    ensures Blocked(Step(s, e))
  {
    if s.sched.running {
      AskOnlyQueues(s, e);
    } else {
      NothingToAsk(s, e);
    }
  }

  lemma CallerStartsNothing(s: State, e: Event)
    requires !e.Io?
    ensures !StartsRequest(s, e)
  {}

  lemma BlockedCaller(s: State, e: Event)
    requires Blocked(s) && !e.Io? && !e.AskVersion? && !e.Request?
    ensures Blocked(Step(s, e))
  {}

  lemma BlockedPlain(s: State, e: Event)
    requires Blocked(s) && e.Io? && Plain(s.pc)
    ensures !StartsRequest(s, e) && Blocked(Step(s, e))
  {}

  lemma BlockedFinish(s: State, e: Event)
    requires Blocked(s) && e.Io? && s.pc.Finishing?
    ensures !StartsRequest(s, e) && Blocked(Step(s, e))
  {}

  lemma BlockedWrite(s: State, e: Event)
    requires Blocked(s) && e.Io? && s.pc.Writing?
    ensures !StartsRequest(s, e) && Blocked(Step(s, e))
  {}

  lemma BlockedQueues(s: State, e: Event)
    requires Blocked(s) && e.Io? && Queues(s.pc)
    ensures !StartsRequest(s, e) && Blocked(Step(s, e))
  {}

  lemma BlockedSchedules(s: State, e: Event)
    requires Blocked(s) && e.Io? && Schedules(s.pc) && s.pc != Popping
    ensures !StartsRequest(s, e) && Blocked(Step(s, e))
  {}

  lemma BlockedStep(s: State, e: Event)
    requires Blocked(s) && !IsPop(MoveOf(s, e))
    ensures !StartsRequest(s, e) && Blocked(Step(s, e))
  {
    if !e.Io? {
      CallerStartsNothing(s, e);
      if e.AskVersion? || e.Request? {
        BlockedAsk(s, e);
      } else {
        BlockedCaller(s, e);
      }
    } else if Plain(s.pc) {
      BlockedPlain(s, e);
    } else if s.pc.Finishing? {
      BlockedFinish(s, e);
    } else if s.pc.Writing? {
      BlockedWrite(s, e);
    } else if Queues(s.pc) {
      BlockedQueues(s, e);
    } else {
      BlockedSchedules(s, e);
    }
  }

  /** Whatever can be brought about can be brought about one step earlier, as long as the step leaves
      the command queue as it is; and starting a request brings it about. */
  ghost predicate Backward(can: State -> bool) {
    forall s, e :: MoveOf(s, e).Keep? && (StartsRequest(s, e) || can(Step(s, e))) ==> can(s)
  }

  lemma Now(can: State -> bool, s: State, e: Event)
    requires Backward(can) && MoveOf(s, e).Keep? && StartsRequest(s, e)
    ensures can(s)
  {}

  lemma Earlier(can: State -> bool, s: State, e: Event)
    requires Backward(can) && MoveOf(s, e).Keep? && can(Step(s, e))
    ensures can(s)
  {}

  lemma {:induction false} SendCan(can: State -> bool, s: State)
    requires Backward(can) && s.pc.Finishing? && s.pc.after.ToSend?
    ensures can(s)
    decreases |s.hand|
  {
    if s.hand == [] {
      Now(can, s, Io(Fine));
    } else {
      SendCan(can, Step(s, Io(Fine)));
      Earlier(can, s, Io(Fine));
    }
  }

  /** With both polls disabled a live query is taken. */
  lemma TakeCan(can: State -> bool, s: State)
    requires Backward(can) && s.pc.QueryTake? && Unexpired(s.sched.requests, s.pc.stamp) != []
    requires s.sched.imu.interval == 0 && s.sched.motor.interval == 0
    ensures can(s)
  {
    SendCan(can, Step(s, Io(Fine)));
    Earlier(can, s, Io(Fine));
  }

  lemma QuietTakeCan(can: State -> bool, s: State)
    requires Backward(can) && s.pc.QueryTake? && Unexpired(s.sched.requests, s.pc.stamp) != []
    ensures can(s)
  {
    var t := Step(s, SetInterval(Imu, 0));
    TakeCan(can, Step(t, SetInterval(Motor, 0)));
    Earlier(can, t, SetInterval(Motor, 0));
    Earlier(can, s, SetInterval(Imu, 0));
  }

  lemma QueryCan(can: State -> bool, s: State)
    requires Backward(can) && s.pc.QueryTake? && CanStart(s)
    ensures can(s)
  {
    var stamp := s.pc.stamp;
    if Unexpired(s.sched.requests, stamp) != [] {
      QuietTakeCan(can, s);
    } else {
      var ask := AskVersion(stamp + 1);
      var t := Step(s, ask);
      SchedulerClass.ExpiredAppend(s.sched.requests, t.sched.requests[|s.sched.requests|], stamp);
      QuietTakeCan(can, t);
      Earlier(can, s, ask);
    }
  }

  lemma PollCan(can: State -> bool, s: State)
    requires Backward(can) && s.pc.PollMake? && CanStart(s)
    ensures can(s)
  {
    if ChannelOf(s.sched, s.pc.source).interval > 0 {
      Now(can, s, Io(Fine));
    } else {
      var e := SetInterval(s.pc.source, 1);
      Now(can, Step(s, e), Io(Fine));
      Earlier(can, s, e);
    }
  }

  lemma SelectCan(can: State -> bool, s: State)
    requires Backward(can) && s.pc.PollSelect? && CanStart(s)
    ensures can(s)
  {
    var t := Step(s, Io(Fine));
    if t.pc.PollMake? {
      PollCan(can, t);
      Earlier(can, s, Io(Fine));
    } else if s.sched.imu.nextDue <= s.pc.stamp {
      EnableCan(can, s, Imu);
    } else if s.sched.motor.nextDue <= s.pc.stamp {
      EnableCan(can, s, Motor);
    } else {
      QueryCan(can, t);
      Earlier(can, s, Io(Fine));
    }
  }

  /** Enabling a channel whose time has come gets a poll selected. */
  lemma EnableCan(can: State -> bool, s: State, k: Source)
    requires Backward(can) && s.pc.PollSelect? && ChannelOf(s.sched, k).nextDue <= s.pc.stamp
    ensures can(s)
  {
    var e := SetInterval(k, 1);
    var t := Step(s, e);
    assert Due(ChannelOf(t.sched, k), s.pc.stamp) && t.pc == s.pc;
    SelectedCan(can, t);
    Earlier(can, s, e);
  }

  lemma SelectedCan(can: State -> bool, s: State)
    requires Backward(can) && s.pc.PollSelect? && SelectPoll(s.sched, s.pc.stamp).Some?
    ensures can(s)
  {
    PollCan(can, Step(s, Io(Fine)));
    Earlier(can, s, Io(Fine));
  }

  lemma CheckCan(can: State -> bool, s: State)
    requires Backward(can) && s.pc == CheckInFlight && CanStart(s)
    ensures can(s)
  {
    var e := Tick(if s.sched.imu.nextDue > s.now then s.sched.imu.nextDue - s.now else 0);
    var t := Step(s, e);
    assert t.pc == s.pc && t.sched == s.sched && t.sched.imu.nextDue <= t.now;
    IdleCan(can, t);
    Earlier(can, s, e);
  }

  lemma IdleCan(can: State -> bool, s: State)
    requires Backward(can) && s.pc == CheckInFlight && s.sched.inFlight.None? && s.sched.imu.nextDue <= s.now
    ensures can(s)
  {
    SelectCan(can, Step(s, Io(Fine)));
    Earlier(can, s, Io(Fine));
  }

  lemma {:induction false} FinishCan(can: State -> bool, s: State)
    requires Backward(can) && s.pc == Finishing(ToCheck) && s.sched.inFlight.None?
    ensures can(s)
    decreases |s.hand|
  {
    var t := Step(s, Io(Fine));
    if s.hand == [] {
      CheckCan(can, t);
    } else {
      FinishCan(can, t);
    }
    Earlier(can, s, Io(Fine));
  }

  lemma SweepCan(can: State -> bool, s: State)
    requires Backward(can) && s.pc == Sweep(true) && CanStart(s)
    ensures can(s)
  {
    var late := if s.sched.inFlight.Some? then s.sched.inFlight.value.deadline - s.now else 0;
    var e := Tick(if late > 0 then late else 0);
    var t := Step(s, e);
    assert t.pc == s.pc && t.sched == s.sched;
    assert t.sched.inFlight.None? || InFlightExpired(t.sched, t.now);
    SweptCan(can, t);
    Earlier(can, s, e);
  }

  lemma SweptCan(can: State -> bool, s: State)
    requires Backward(can) && s.pc == Sweep(true) && Clearable(s)
    requires s.sched.inFlight.None? || InFlightExpired(s.sched, s.now)
    ensures can(s)
  {
    FinishCan(can, Step(s, Io(Fine)));
    Earlier(can, s, Io(Fine));
  }

  lemma WriteCan(can: State -> bool, s: State)
    requires Backward(can) && s.pc.Writing? && CanStart(s)
    ensures can(s)
  {
    var e := Io(Moved(FrameSize(s.pc.body)));
    SweepCan(can, Step(s, e));
    Earlier(can, s, e);
  }

  lemma CanStartCan(can: State -> bool, s: State)
    requires Backward(can) && CanStart(s)
    ensures can(s)
  {
    match s.pc
    case Writing(_, _, _) => WriteCan(can, s);
    case Sweep(_) => SweepCan(can, s);
    case Finishing(after) =>
      if after.ToSend? {
        SendCan(can, s);
      } else {
        FinishCan(can, s);
      }
    case CheckInFlight => CheckCan(can, s);
    case PollSelect(_) => SelectCan(can, s);
    case PollMake(_, _) => PollCan(can, s);
    case QueryTake(_) => QueryCan(can, s);
    case _ =>
  }
}
