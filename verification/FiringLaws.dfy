/**
 When the watchdog must fire. The check of a pass fires exactly when the last control command that
 refreshed the watchdog is overdue and nothing has ended its period since; and once it is overdue, no
 command is handed to the writer before the watchdog has fired or been refreshed.
 */
module FiringLaws {
  import opened Wrappers
  import opened Scheduling
  import opened Client
  import opened Runs
  import opened WatchdogLaws

  /** An accepted command that refreshed the watchdog, with nothing after it that ends its period. */
  predicate Renews(log: seq<Entry>, i: nat) {
    && i < |log| && log[i].Accepted? && log[i].refresh
    && forall k :: i < k < |log| ==>
         !log[k].Fired? && !log[k].Connected? && !(log[k].Accepted? && log[k].refresh)
  }

  ghost predicate Unrenewed(log: seq<Entry>) {
    forall i: nat :: !Renews(log, i)
  }

  /** Between the last clear of a connection and the next connection. */
  predicate Down(pc: Pc) {
    ShutDown(pc) || pc == Clearing
  }

  /** On a connection the watchdog is armed unless nothing has renewed it. */
  ghost predicate ArmedInv(s: State) {
    && (s.pc.WatchdogLock? ==> s.cfg.watchdogEnabled)
    && (s.cfg.watchdogEnabled && !Down(s.pc) && s.sched.watchdog.None? ==> Unrenewed(s.past.log))
  }

  lemma RenewsBefore(log: seq<Entry>, x: Entry, i: nat)
    requires Renews(log + [x], i) && i < |log|
    ensures Renews(log, i) && !x.Fired? && !x.Connected? && !Refreshes(x)
  {
    assert (log + [x])[|log|] == x;
    assert forall k :: 0 <= k < |log| ==> (log + [x])[k] == log[k];
  }

  lemma UnrenewedAppend(log: seq<Entry>, x: Entry)
    requires !Refreshes(x) && (Unrenewed(log) || x.Fired? || x.Connected?)
    ensures Unrenewed(log + [x])
  {
    forall i: nat
      ensures !Renews(log + [x], i)
    {
      assert (log + [x])[|log|] == x;
      if i < |log| && Renews(log + [x], i) {
        RenewsBefore(log, x, i);
      }
    }
  }

  /** What a step may do to what the watchdog is about. */
  predicate Arms(s: State, e: Event) {
    var t, x := Step(s, e), Logged(s, e);
    && t.cfg == s.cfg
    && (t.pc.WatchdogLock? ==> s.pc == t.pc || s.cfg.watchdogEnabled)
    && (x.Some? && Refreshes(x.value) && s.cfg.watchdogEnabled ==> t.sched.watchdog.Some?)
    && (t.sched.watchdog.None? && s.sched.watchdog.Some? ==> Down(t.pc) || (x.Some? && x.value.Fired?))
    && (Down(s.pc) && !Down(t.pc) ==> x == Some(Connected))
  }

  lemma ArmsControl(s: State, e: Event)
    requires ControlInv(s) && e.Control?
    ensures Arms(s, e)
  {}

  lemma ArmsLifecycle(s: State, e: Event)
    requires ControlInv(s) && (e.Connect? || e.Disconnect?)
    ensures Arms(s, e)
  {}

  lemma ArmsCaller(s: State, e: Event)
    requires !e.Io? && !e.Control? && !e.Connect? && !e.Disconnect?
    ensures Arms(s, e)
  {}

  lemma ArmsPlain(s: State, e: Event)
    requires ControlInv(s) && e.Io? && Plain(s.pc)
    ensures Arms(s, e)
  {}

  lemma ArmsCall(s: State, e: Event)
    requires ControlInv(s) && e.Io? && s.pc.Finishing? && s.hand != []
    ensures Arms(s, e)
  {}

  lemma ArmsStart(s: State, e: Event)
    requires ControlInv(s) && e.Io? && s.pc == Finishing(ToStart) && s.hand == []
    ensures Arms(s, e)
  {}

  lemma ArmsFinish(s: State, e: Event)
    requires ControlInv(s) && e.Io? && s.pc.Finishing? && !s.pc.after.ToStart? && s.hand == []
    ensures Arms(s, e)
  {}

  lemma ArmsWrite(s: State, e: Event)
    requires ControlInv(s) && e.Io? && s.pc.Writing?
    ensures Arms(s, e)
  {}

  lemma ArmsSweep(s: State, e: Event)
    requires ControlInv(s) && e.Io? && s.pc.Sweep?
    ensures Arms(s, e)
  {}

  lemma ArmsRead(s: State, e: Event)
    requires ControlInv(s) && e.Io? && s.pc == Reading
    ensures Arms(s, e)
  {}

  lemma ArmsTake(s: State, e: Event)
    requires ControlInv(s) && e.Io? && s.pc.QueryTake?
    ensures Arms(s, e)
  {}

  lemma ArmsClearing(s: State, e: Event)
    requires ControlInv(s) && e.Io? && s.pc == Clearing
    ensures Arms(s, e)
  {}

  lemma ArmsCheck(s: State, e: Event)
    requires ControlInv(s) && e.Io? && s.pc.WatchdogLock?
    ensures Arms(s, e)
  {}

  lemma ArmsPop(s: State, e: Event)
    requires ControlInv(s) && e.Io? && s.pc == Popping
    ensures Arms(s, e)
  {}

  lemma ArmsRenew(s: State, e: Event)
    requires ControlInv(s) && e.Io? && s.pc == Reschedule
    ensures Arms(s, e)
  {}

  lemma ArmsPoll(s: State, e: Event)
    requires ControlInv(s) && e.Io? && s.pc.PollMake?
    ensures Arms(s, e)
  {}

  lemma StepArms(s: State, e: Event)
    requires ControlInv(s)
    ensures Arms(s, e)
  {
    if e.Control? {
      ArmsControl(s, e);
    } else if e.Connect? || e.Disconnect? {
      ArmsLifecycle(s, e);
    } else if !e.Io? {
      ArmsCaller(s, e);
    } else if Plain(s.pc) {
      ArmsPlain(s, e);
    } else if s.pc.Finishing? && s.hand != [] {
      ArmsCall(s, e);
    } else if s.pc == Finishing(ToStart) {
      ArmsStart(s, e);
    } else if s.pc.Finishing? {
      ArmsFinish(s, e);
    } else if s.pc.Writing? {
      ArmsWrite(s, e);
    } else if s.pc == Clearing {
      ArmsClearing(s, e);
    } else if s.pc.WatchdogLock? {
      ArmsCheck(s, e);
    } else if s.pc.Sweep? {
      ArmsSweep(s, e);
    } else if s.pc == Reading {
      ArmsRead(s, e);
    } else if s.pc.QueryTake? {
      ArmsTake(s, e);
    } else if s.pc == Popping {
      ArmsPop(s, e);
    } else if s.pc == Reschedule {
      ArmsRenew(s, e);
    } else {
      ArmsPoll(s, e);
    }
  }

  lemma StepLogs(s: State, e: Event)
    ensures Step(s, e).past.log == Extend(s.past.log, Logged(s, e))
  {}

  lemma ArmedStep(s: State, e: Event)
    requires ControlInv(s) && ArmedInv(s)
    ensures ArmedInv(Step(s, e))
  {
    StepArms(s, e);
    StepLogs(s, e);
    var x := Logged(s, e);
    if x.Some? && !Refreshes(x.value) && (Unrenewed(s.past.log) || x.value.Fired? || x.value.Connected?) {
      UnrenewedAppend(s.past.log, x.value);
    }
  }

  ghost predicate FiringInv(s: State) {
    ControlInv(s) && ArmedInv(s)
  }

  lemma ArmedReachable(s: State)
    requires Reachable(s)
    ensures FiringInv(s)
  {
    forall cfg, imu: nat, motor: nat, now
      ensures FiringInv(Init(cfg, imu, motor, now))
    {
      InitControl(cfg, imu, motor, now);
    }
    forall t, e | FiringInv(t)
      ensures FiringInv(Step(t, e))
    {
      ControlStep(t, e);
      ArmedStep(t, e);
    }
    ReachableKeeps(FiringInv, s);
  }

  // ---- The check of a pass ----------------------------------------------------------------

  /** The last refresh of this connection is at least the timeout old at the given time. */
  ghost predicate Overdue(log: seq<Entry>, timeout: int, stamp: int) {
    exists i: nat :: Renews(log, i) && stamp >= log[i].at + timeout
  }

  lemma OneRenewal(log: seq<Entry>, i: nat, j: nat)
    requires Renews(log, i) && Renews(log, j)
    ensures i == j
  {}

  lemma DueIsOverdue(s: State, stamp: int)
    requires Reachable(s) && s.cfg.watchdogEnabled && !Down(s.pc)
    ensures (s.sched.watchdog.Some? && s.sched.watchdog.value.deadline <= stamp) <==>
            Overdue(s.past.log, s.cfg.watchdogTimeout, stamp)
  {
    ArmedReachable(s);
    WatchdogReachable(s);
    var log := s.past.log;
    if s.sched.watchdog.Some? {
      var w := s.sched.watchdog.value;
      assert Guarded(log, w, s.cfg.watchdogTimeout) && Renews(log, w.ticket);
      forall i: nat | Renews(log, i)
        ensures i == w.ticket
      {
        OneRenewal(log, i, w.ticket);
      }
    }
  }

  /** Over every run: at the check of a pass the watchdog fires if and only if it is overdue. It then
      empties the command queue and goes on to write the safe stop; otherwise the pass goes on to pop. */
  lemma FiresExactlyWhenOverdue(s: State, result: Result)
    requires Reachable(s) && s.pc.WatchdogLock?
    ensures var t := Step(s, Io(result));
            if Overdue(s.past.log, s.cfg.watchdogTimeout, s.pc.stamp)
            then && (exists i: nat :: Renews(s.past.log, i) && t.past.log == s.past.log + [Fired(i, s.pc.stamp)])
                 && t.sched.commands == [] && t.sched.watchdog.None?
                 && t.pc == Writing(s.cfg.safeStop, 0, SafeStop(|s.past.log|))
            else t.past.log == s.past.log && t.sched == s.sched && t.pc == Popping
  {
    DueRenews(s);
    DueIsOverdue(s, s.pc.stamp);
    CheckStep(s, result);
  }

  /** What the watchdog is armed with is the last refresh. */
  lemma DueRenews(s: State)
    requires Reachable(s)
    ensures s.sched.watchdog.Some? ==> Renews(s.past.log, s.sched.watchdog.value.ticket)
    ensures s.pc.WatchdogLock? ==> s.cfg.watchdogEnabled
  {
    ArmedReachable(s);
    WatchdogReachable(s);
  }

  lemma CheckStep(s: State, result: Result)
    requires s.pc.WatchdogLock?
    ensures var t := Step(s, Io(result));
            if s.sched.watchdog.Some? && s.sched.watchdog.value.deadline <= s.pc.stamp
            then && t.past.log == s.past.log + [Fired(s.sched.watchdog.value.ticket, s.pc.stamp)]
                 && t.sched.commands == [] && t.sched.watchdog.None?
                 && t.pc == Writing(s.cfg.safeStop, 0, SafeStop(|s.past.log|))
            else t.past.log == s.past.log && t.sched == s.sched && t.pc == Popping
  {}

  // ---- No command passes an overdue watchdog ----------------------------------------------

  /** Something ends the period that was overdue: a firing, a refresh or a new connection. */
  predicate Resolves(x: Entry) {
    x.Fired? || x.Connected? || (x.Accepted? && x.refresh)
  }

  predicate ResolvedSince(log: seq<Entry>, n: nat) {
    exists k :: n <= k < |log| && Resolves(log[k])
  }

  /** The watchdog is due and its check is still ahead of the next pop. */
  predicate CheckAhead(s: State, deadline: int) {
    s.now >= deadline && s.pc != Popping && (s.pc.WatchdogLock? ==> s.pc.stamp >= deadline)
  }

  /** Nothing has been resolved: the watchdog is still due before the next pop, unless the client has stopped. */
  predicate Outstanding(s: State, w: Watchdog) {
    !s.sched.running || (s.cfg.watchdogEnabled && s.sched.watchdog == Some(w) && CheckAhead(s, w.deadline))
  }

  lemma OutstandingCaller(s: State, e: Event, w: Watchdog)
    requires ControlInv(s) && Outstanding(s, w) && !e.Io?
    ensures Outstanding(Step(s, e), w) || (Logged(s, e).Some? && Resolves(Logged(s, e).value))
  {}

  lemma OutstandingPlain(s: State, e: Event, w: Watchdog)
    requires ControlInv(s) && Outstanding(s, w) && e.Io? && Plain(s.pc)
    ensures Outstanding(Step(s, e), w)
  {}

  lemma OutstandingFinish(s: State, e: Event, w: Watchdog)
    requires ControlInv(s) && Outstanding(s, w) && e.Io? && s.pc.Finishing?
    ensures Outstanding(Step(s, e), w) || (Logged(s, e).Some? && Resolves(Logged(s, e).value))
  {}

  lemma OutstandingWrite(s: State, e: Event, w: Watchdog)
    requires ControlInv(s) && Outstanding(s, w) && e.Io? && s.pc.Writing?
    ensures Outstanding(Step(s, e), w)
  {}

  lemma OutstandingQueues(s: State, e: Event, w: Watchdog)
    requires ControlInv(s) && Outstanding(s, w) && e.Io? && Queues(s.pc)
    ensures Outstanding(Step(s, e), w)
  {}

  lemma OutstandingSchedules(s: State, e: Event, w: Watchdog)
    requires ControlInv(s) && Outstanding(s, w) && e.Io? && Schedules(s.pc)
    ensures Outstanding(Step(s, e), w) || (Logged(s, e).Some? && Resolves(Logged(s, e).value))
  {}

  lemma OutstandingStep(s: State, e: Event, w: Watchdog)
    requires ControlInv(s) && Outstanding(s, w)
    ensures Outstanding(Step(s, e), w) || (Logged(s, e).Some? && Resolves(Logged(s, e).value))
  {
    if !e.Io? {
      OutstandingCaller(s, e, w);
    } else if Plain(s.pc) {
      OutstandingPlain(s, e, w);
    } else if s.pc.Finishing? {
      OutstandingFinish(s, e, w);
    } else if s.pc.Writing? {
      OutstandingWrite(s, e, w);
    } else if Queues(s.pc) {
      OutstandingQueues(s, e, w);
    } else {
      OutstandingSchedules(s, e, w);
    }
  }

  predicate StillOutstanding(s: State, n: nat, w: Watchdog) {
    ControlInv(s) && n <= |s.past.log| && (ResolvedSince(s.past.log, n) || Outstanding(s, w))
  }

  lemma StillOutstandingStep(s: State, e: Event, n: nat, w: Watchdog)
    requires StillOutstanding(s, n, w)
    ensures StillOutstanding(Step(s, e), n, w)
  {
    ControlStep(s, e);
    StepLogs(s, e);
    var log, t := s.past.log, Step(s, e);
    if ResolvedSince(log, n) {
      var k :| n <= k < |log| && Resolves(log[k]);
      assert t.past.log[k] == log[k];
    } else {
      OutstandingStep(s, e, w);
      if Logged(s, e).Some? && Resolves(Logged(s, e).value) {
        assert t.past.log[|log|] == Logged(s, e).value;
      }
    }
  }

  /** Over every run: once the watchdog is overdue and its check is ahead of the next pop, a running client
      hands no command to the writer before the watchdog has fired, been refreshed, or a new connection
      has been made. */
  lemma OverdueFiresFirst(s: State, i: nat, events: seq<Event>, e: Event)
    requires Reachable(s) && s.sched.running && s.cfg.watchdogEnabled && Renews(s.past.log, i)
    requires CheckAhead(s, s.past.log[i].at + s.cfg.watchdogTimeout)
    requires var t := Run(s, events); t.sched.running && Logged(t, e).Some? && Logged(t, e).value.CommandOut?
    ensures var log := Run(s, events).past.log;
            exists k :: |s.past.log| <= k < |log| && Resolves(log[k])
  {
    var n := |s.past.log|;
    ArmedReachable(s);
    WatchdogReachable(s);
    DueIsOverdue(s, s.now);
    var w := s.sched.watchdog.value;
    assert Renews(s.past.log, w.ticket);
    OneRenewal(s.past.log, i, w.ticket);
    var inv := (t: State) => StillOutstanding(t, n, w);
    forall t, x | inv(t)
      ensures inv(Step(t, x))
    {
      StillOutstandingStep(t, x, n, w);
    }
    Keeps(Step, inv, (x: Event) => true, s, events);
    PopIsPopping(Run(s, events), e);
  }

  lemma PopIsPopping(s: State, e: Event)
    requires Logged(s, e).Some? && Logged(s, e).value.CommandOut?
    ensures s.pc == Popping
  {}
}
