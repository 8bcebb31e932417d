/**
 Why a caller is told that there was no reply, and that a reply is taken. A sweep takes exactly what has
 expired; a read completes what is in flight exactly when the ID is the expected one; and nobody is told
 of a missing reply before the deadline, unless the transport is stopping or the request could not be
 written.
 */
module TimeoutLaws {
  import opened Wrappers
  import opened Scheduling
  import opened Client
  import SchedulerClass

  type Request = Scheduling.Request

  // ---- Sweeps and reads -------------------------------------------------------------------

  /** A sweep takes exactly what has expired: the request in flight first, then queued ones in order, and
      nothing else changes. The transport is stopped if and only if the one in flight asks for it. */
  lemma SweepTakesExactlyTheExpired(s: State, result: Result)
    requires s.pc.Sweep?
    ensures var t, expired := Step(s, Io(result)), s.sched.inFlight.Some? && s.sched.inFlight.value.deadline <= s.now;
            && t.sched.inFlight == (if expired then None else s.sched.inFlight)
            && (forall r :: r in t.sched.requests <==> r in s.sched.requests && r.deadline > s.now)
            && (expired ==> t.hand != [] && t.hand[0] == s.sched.inFlight.value)
            && (forall r :: r in t.hand[if expired then 1 else 0..] <==> r in s.sched.requests && r.deadline <= s.now)
            && t.sched == s.sched.(inFlight := t.sched.inFlight, requests := t.sched.requests)
            && t.verdict.NoReply?
            && (t.pc == StopFlag <==> expired && s.sched.inFlight.value.stopOnTimeout)
            && (t.pc != StopFlag ==> t.pc == Finishing(if s.pc.second then ToCheck else ToSelect))
  {
    SchedulerClass.SweepSorts(s.sched.requests, s.now);
    SweptParts(s);
  }

  lemma SweptParts(s: State)
    requires s.pc.Sweep?
    ensures var t := IoSweep(s, s.pc.second);
            var first: seq<Request> := if InFlightExpired(s.sched, s.now) then [s.sched.inFlight.value] else [];
            t.hand == first + Expired(s.sched.requests, s.now) && t.hand[|first|..] == Expired(s.sched.requests, s.now)
  {}

  /** A packet completes the request in flight if and only if it begins with the ID that is expected;
      otherwise it is dropped and the client reads on. */
  lemma ReadCompletesExactlyTheExpected(s: State, bytes: nat)
    requires s.pc == Reading && s.device.channel != []
    ensures var t, p := Step(s, Io(Moved(bytes))), s.device.channel[0];
            && t.device == s.device.(channel := s.device.channel[1..])
            && (if s.sched.inFlight.Some? && p.payload != [] && p.payload[0] == s.sched.inFlight.value.expected
                then && t.pc == Finishing(ToRead) && t.hand == [s.sched.inFlight.value] && t.verdict == Reply(p)
                     && t.sched == s.sched.(inFlight := None)
                else t.pc == Reading && t.sched == s.sched && t.hand == s.hand)
  {}

  // ---- Nobody is told too early -----------------------------------------------------------

  /** What is in hand without a reply has expired, or the transport is stopping. */
  predicate Late(s: State) {
    && (s.pc.Finishing? && s.verdict.NoReply? && s.sched.running && !s.pc.after.ToHalt? ==>
          forall i :: 0 <= i < |s.hand| ==> s.hand[i].deadline <= s.now)
    && (s.pc == StopFlag ==> s.verdict.NoReply? && forall i :: 0 <= i < |s.hand| ==> s.hand[i].deadline <= s.now)
  }

  predicate LateInv(s: State) {
    ControlInv(s) && Late(s)
  }

  lemma {:induction false} ExpiredIsLate(q: seq<Request>, now: int)
    ensures forall i :: 0 <= i < |Expired(q, now)| ==> Expired(q, now)[i].deadline <= now
  {
    if q != [] {
      ExpiredIsLate(q[1..], now);
    }
  }

  lemma LateCaller(s: State, e: Event)
    requires LateInv(s) && !e.Io?
    ensures Late(Step(s, e))
  {}

  lemma LatePlain(s: State, e: Event)
    requires LateInv(s) && e.Io? && Plain(s.pc)
    ensures Late(Step(s, e))
  {}

  lemma LateFinish(s: State, e: Event)
    requires LateInv(s) && e.Io? && s.pc.Finishing?
    ensures Late(Step(s, e))
  {}

  lemma LateWrite(s: State, e: Event)
    requires LateInv(s) && e.Io? && s.pc.Writing?
    ensures Late(Step(s, e))
  {}

  lemma LateSweep(s: State, e: Event)
    requires LateInv(s) && e.Io? && s.pc.Sweep?
    ensures Late(Step(s, e))
  {
    ExpiredIsLate(s.sched.requests, s.now);
  }

  /** The time at which the queue is looked at has passed. */
  predicate StampPassed(s: State) {
    (s.pc.PollSelect? ==> s.pc.stamp <= s.now) && (s.pc.QueryTake? ==> s.pc.stamp <= s.now)
  }

  lemma StampCaller(s: State, e: Event)
    requires StampPassed(s) && !e.Io?
    ensures StampPassed(Step(s, e))
  {}

  lemma StampPlain(s: State, e: Event)
    requires StampPassed(s) && e.Io? && Plain(s.pc)
    ensures StampPassed(Step(s, e))
  {}

  lemma StampFinish(s: State, e: Event)
    requires StampPassed(s) && e.Io? && (s.pc.Finishing? || s.pc.Writing?)
    ensures StampPassed(Step(s, e))
  {}

  lemma StampRegion(s: State, e: Event)
    requires StampPassed(s) && e.Io? && (Queues(s.pc) || Schedules(s.pc))
    ensures StampPassed(Step(s, e))
  {}

  lemma StampIo(s: State, e: Event)
    requires StampPassed(s) && e.Io?
    ensures StampPassed(Step(s, e))
  {
    if Plain(s.pc) {
      StampPlain(s, e);
    } else if s.pc.Finishing? || s.pc.Writing? {
      StampFinish(s, e);
    } else {
      StampRegion(s, e);
    }
  }

  lemma LateTake(s: State, e: Event)
    requires LateInv(s) && StampPassed(s) && e.Io? && s.pc.QueryTake?
    ensures Late(Step(s, e))
  {
    ExpiredIsLate(s.sched.requests, s.pc.stamp);
  }

  lemma LateRest(s: State, e: Event)
    requires LateInv(s) && e.Io? && (s.pc == Reading || s.pc == Clearing || Schedules(s.pc))
    ensures Late(Step(s, e))
  {}

  predicate TellingInv(s: State) {
    LateInv(s) && StampPassed(s)
  }

  lemma TellingStep(s: State, e: Event)
    requires TellingInv(s)
    ensures TellingInv(Step(s, e))
  {
    ControlStep(s, e);
    if !e.Io? {
      LateCaller(s, e);
      StampCaller(s, e);
    } else {
      StampIo(s, e);
      if Plain(s.pc) {
        LatePlain(s, e);
      } else if s.pc.Finishing? {
        LateFinish(s, e);
      } else if s.pc.Writing? {
        LateWrite(s, e);
      } else if s.pc.Sweep? {
        LateSweep(s, e);
      } else if s.pc.QueryTake? {
        LateTake(s, e);
      } else {
        LateRest(s, e);
      }
    }
  }

  lemma TellingReachable(s: State)
    requires Reachable(s)
    ensures TellingInv(s)
  {
    forall cfg, imu: nat, motor: nat, now
      ensures TellingInv(Init(cfg, imu, motor, now))
    {
      InitControl(cfg, imu, motor, now);
    }
    forall t, e | TellingInv(t)
      ensures TellingInv(Step(t, e))
    {
      TellingStep(t, e);
    }
    ReachableKeeps(TellingInv, s);
  }

  /** Over every run: a caller that is told there was no reply is told so after its deadline, or while the
      transport is stopping, or because its request could not be written. */
  lemma NobodyIsToldTooEarly(s: State, e: Event, c: Completion)
    requires Reachable(s) && Logged(s, e) == Some(Done(c)) && c.outcome.NoReply?
    ensures c.request.deadline <= s.now || !s.sched.running || s.pc == Finishing(ToHalt)
  {
    TellingReachable(s);
  }
}
