/**
 Calls while the client runs and while it does not. What is accepted is exactly what comes while it runs;
 a stopped client writes nothing; a new connection starts empty, with every enabled poll due.
 */
module LifecycleLaws {
  import opened Framing
  import opened Wrappers
  import opened Scheduling
  import opened Client
  import opened Runs

  /** A control call is accepted if and only if the client is running and there is something to frame. It is
      then the last in the queue, and renews the watchdog if it is to. */
  lemma AcceptsExactlyWhileRunning(s: State, body: Payload, refresh: bool)
    ensures var t, accepted := Step(s, Control(body, refresh)), s.sched.running && 1 <= |body| <= 512;
            && t.past.log == (if accepted then s.past.log + [Accepted(body, refresh, s.now)] else s.past.log)
            && (!accepted ==> t == s)
            && (accepted ==> t.sched.commands != []
                             && t.sched.commands[|t.sched.commands| - 1] == Command(body, |s.past.log|))
            && t.sched.watchdog ==
               (if accepted && refresh && s.cfg.watchdogEnabled
                then Some(Watchdog(s.now + s.cfg.watchdogTimeout, |s.past.log|)) else s.sched.watchdog)
            && t.sched == s.sched.(commands := t.sched.commands, watchdog := t.sched.watchdog)
  {}

  /** A version query is accepted if and only if the client is running; it goes to the back of the queue and
      does not stop the transport when it times out. */
  lemma QueriesExactlyWhileRunning(s: State, deadline: int)
    ensures var t := Step(s, AskVersion(deadline));
            if s.sched.running
            then var r := Scheduling.Request(Query, |s.past.issued|, 0, 0, [0], deadline, false);
                 t.sched.requests == s.sched.requests + [r] && t.past.issued == s.past.issued + [r]
            else t == s
  {}

  // ---- A stopped client -------------------------------------------------------------------

  /** Stopped or on its way out, with as many bytes written as before. */
  predicate Silent(s: State, chunks: seq<Chunk>) {
    (!s.sched.running || Leaving(s.pc)) && s.past.chunks == chunks
  }

  lemma SilentCaller(s: State, e: Event, chunks: seq<Chunk>)
    requires Silent(s, chunks) && !e.Io?
    ensures Silent(Step(s, e), chunks)
  {}

  lemma SilentPlain(s: State, e: Event, chunks: seq<Chunk>)
    requires Silent(s, chunks) && e.Io? && Plain(s.pc)
    ensures Silent(Step(s, e), chunks)
  {}

  lemma SilentRegion(s: State, e: Event, chunks: seq<Chunk>)
    requires Silent(s, chunks) && e.Io? && (Queues(s.pc) || Schedules(s.pc))
    ensures Silent(Step(s, e), chunks)
  {}

  lemma SilentWrite(s: State, e: Event, chunks: seq<Chunk>)
    requires Silent(s, chunks) && e.Io? && s.pc.Writing?
    ensures Silent(Step(s, e), chunks)
  {}

  lemma SilentFinish(s: State, e: Event, chunks: seq<Chunk>)
    requires Silent(s, chunks) && e.Io? && s.pc.Finishing?
    ensures Silent(Step(s, e), chunks) || Logged(s, e) == Some(Connected)
  {}

  predicate ConnectedSince(log: seq<Entry>, n: nat) {
    exists k :: n <= k < |log| && log[k].Connected?
  }

  predicate StaysSilent(s: State, n: nat, chunks: seq<Chunk>) {
    n <= |s.past.log| && (ConnectedSince(s.past.log, n) || Silent(s, chunks))
  }

  lemma LogAppends(s: State, e: Event)
    ensures Step(s, e).past.log == Extend(s.past.log, Logged(s, e))
  {}

  lemma StaysSilentStep(s: State, e: Event, n: nat, chunks: seq<Chunk>)
    requires StaysSilent(s, n, chunks)
    ensures StaysSilent(Step(s, e), n, chunks)
  {
    LogAppends(s, e);
    var log, t := s.past.log, Step(s, e);
    if ConnectedSince(log, n) {
      var k :| n <= k < |log| && log[k].Connected?;
      assert t.past.log[k] == log[k];
    } else if !e.Io? {
      SilentCaller(s, e, chunks);
    } else if s.pc.Finishing? {
      SilentFinish(s, e, chunks);
      if Logged(s, e) == Some(Connected) {
        assert t.past.log[|log|].Connected?;
      }
    } else if s.pc.Writing? {
      SilentWrite(s, e, chunks);
    } else if Plain(s.pc) {
      SilentPlain(s, e, chunks);
    } else {
      SilentRegion(s, e, chunks);
    }
  }

  /** Over every run: once the client has stopped or is on its way out, it writes not one byte more, until a
      new connection is made. */
  lemma StoppedClientIsSilent(s: State, events: seq<Event>)
    requires !s.sched.running || Leaving(s.pc)
    ensures var t := Run(s, events);
            t.past.chunks == s.past.chunks ||
            exists k :: |s.past.log| <= k < |t.past.log| && t.past.log[k].Connected?
  {
    var n, chunks := |s.past.log|, s.past.chunks;
    var inv := (t: State) => StaysSilent(t, n, chunks);
    forall t, e | inv(t)
      ensures inv(Step(t, e))
    {
      StaysSilentStep(t, e, n, chunks);
    }
    Keeps(Step, inv, (e: Event) => true, s, events);
  }

  /** Over every run: after an error of a system call, and after a write that wrote nothing, not one byte more
      is written until a new connection is made. */
  lemma ErrorsSilenceTheClient(s: State, result: Result, events: seq<Event>)
    requires s.pc == Starting || s.pc == Selecting || s.pc == Reading || s.pc.Writing?
    requires result.Broken? || (s.pc.Writing? && result == Moved(0))
    ensures var t := Run(Step(s, Io(result)), events);
            t.past.chunks == s.past.chunks ||
            exists k :: |s.past.log| <= k < |t.past.log| && t.past.log[k].Connected?
  {
    ErrorStops(s, result);
    StoppedClientIsSilent(Step(s, Io(result)), events);
  }

  lemma ErrorStops(s: State, result: Result)
    requires s.pc == Starting || s.pc == Selecting || s.pc == Reading || s.pc.Writing?
    requires result.Broken? || (s.pc.Writing? && result == Moved(0))
    ensures var t := Step(s, Io(result));
            (!t.sched.running || Leaving(t.pc)) && t.past.chunks == s.past.chunks && t.past.log == s.past.log
  {}

  /** What the loop does after waiting: it reads what is there and reads on until nothing is, then looks at the
      watchdog; an interruption makes it begin the pass or the read again. */
  lemma WaitsAndReads(s: State, result: Result)
    requires s.pc == Selecting || (s.pc == Reading && (s.device.channel == [] || !result.Moved?))
    requires !result.Broken?
    ensures Step(s, Io(result)) == s.(pc :=
              if result.Interrupted? then (if s.pc == Selecting then LoopTop else Reading)
              else if s.pc == Selecting && result.Moved? then Reading else WatchdogCheck)
  {}

  // ---- The end of the I/O thread ----------------------------------------------------------

  /** How far a stopped I/O thread is from its end. */
  function ToTheEnd(pc: Pc): nat {
    match pc
    case Stopped => 0
    case Clearing => 2
    case Halting => 3
    case StopFlag => 4
    case LoopTop | Writing(_, _, _) => 5
    case Starting | Installing(_) => 6
    case QueryTake(_) | PollMake(_, _) => 7
    case PollSelect(_) => 8
    case CheckInFlight => 9
    case Sweep(second) => if second then 11 else 17
    case Popping => 12
    case WatchdogLock(_) => 13
    case WatchdogCheck => 14
    case Reading | Selecting => 15
    case Reschedule => 18
    case Finishing(after) =>
      match after
      case ToStopped => 1
      case ToClear => 3
      case ToHalt => 4
      case ToTop | ToSend(_) => 6
      case ToCheck => 10
      case ToRead | ToSelect => 16
      case ToStart => 19
  }

  predicate Ending(s: State) {
    !s.sched.running && s.pc != Finishing(ToStart)
  }

  predicate NearerTheEnd(s: State, t: State) {
    Ending(t) && (ToTheEnd(t.pc) < ToTheEnd(s.pc) || (ToTheEnd(t.pc) == ToTheEnd(s.pc) && |t.hand| < |s.hand|))
  }

  lemma EndsPlain(s: State)
    requires Ending(s) && Plain(s.pc) && s.pc != Stopped
    ensures NearerTheEnd(s, Step(s, Io(Fine)))
  {}

  lemma EndsFinish(s: State)
    requires Ending(s) && s.pc.Finishing?
    ensures NearerTheEnd(s, Step(s, Io(Fine)))
  {}

  lemma EndsWrite(s: State)
    requires Ending(s) && s.pc.Writing?
    ensures NearerTheEnd(s, Step(s, Io(Fine)))
  {}

  lemma EndsQueues(s: State)
    requires Ending(s) && Queues(s.pc)
    ensures NearerTheEnd(s, Step(s, Io(Fine)))
  {}

  lemma EndsSchedules(s: State)
    requires Ending(s) && Schedules(s.pc)
    ensures NearerTheEnd(s, Step(s, Io(Fine)))
  {}

  lemma EndsNearer(s: State)
    requires Ending(s) && s.pc != Stopped
    ensures NearerTheEnd(s, Step(s, Io(Fine)))
  {
    if Plain(s.pc) {
      EndsPlain(s);
    } else if s.pc.Finishing? {
      EndsFinish(s);
    } else if s.pc.Writing? {
      EndsWrite(s);
    } else if Queues(s.pc) {
      EndsQueues(s);
    } else {
      EndsSchedules(s);
    }
  }

  /** From every state in which the client is stopped the I/O thread comes to its end by itself, if its calls
      return. */
  lemma {:induction false} StoppedThreadEnds(s: State) returns (steps: seq<Event>)
    requires Ending(s)
    ensures (forall i :: 0 <= i < |steps| ==> steps[i] == Io(Fine)) && Run(s, steps).pc == Stopped
    decreases ToTheEnd(s.pc), |s.hand|
  {
    if s.pc == Stopped {
      steps := [];
    } else {
      EndsNearer(s);
      var rest := StoppedThreadEnds(Step(s, Io(Fine)));
      steps := [Io(Fine)] + rest;
      AfterJoin(Step, s, [Io(Fine)], rest);
      OneStep(s);
    }
  }

  lemma OneStep(s: State)
    ensures Run(s, [Io(Fine)]) == Step(s, Io(Fine))
  {
    assert [Io(Fine)][..0] == [];
  }

  // ---- A new connection -------------------------------------------------------------------

  /** Over every run: a new connection starts with nothing queued, in flight or armed, nothing written, and
      both polls due. */
  lemma ConnectionStartsFresh(s: State, e: Event)
    requires Reachable(s) && Logged(s, e) == Some(Connected)
    ensures var t := Step(s, e);
            && t.sched == Sched(true, [], [], None, None, s.sched.imu.(nextDue := s.now),
                                s.sched.motor.(nextDue := s.now))
            && t.past.chunks == [] && t.past.sent == [] && t.hand == [] && t.pc == Starting && t.device == s.device
  {
    ControlReachable(s);
    StartingState(s, e);
  }

  lemma StartingState(s: State, e: Event)
    requires ControlInv(s) && Logged(s, e) == Some(Connected)
    ensures e.Io? && s.pc == Finishing(ToStart) && s.hand == []
  {}

  /** A connection is made only from a client that has stopped, which first hands out whatever was left. */
  lemma ConnectsExactlyWhenStopped(s: State)
    requires Reachable(s)
    ensures var t := Step(s, Connect);
            if s.pc == Stopped then t.pc == Finishing(ToStart) && t.hand == [] && !t.sched.running else t == s
  {
    ControlReachable(s);
  }

  /** Disconnecting stops the client at once, wherever the I/O thread is; nothing else is lost by it. */
  lemma DisconnectStops(s: State)
    ensures var t := Step(s, Disconnect);
            && t == s.(sched := t.sched, pc := t.pc) && t.sched == s.sched.(running := false)
            && t.pc == if s.pc == Stopped then Clearing else s.pc
  {}

  /** The final clear hands out every query that is left, the queued ones in order and then the one in flight,
      and leaves nothing. */
  lemma ClearHandsOutEverything(s: State, result: Result)
    requires s.pc == Clearing
    ensures var t := Step(s, Io(result));
            && t.pc == Finishing(ToStopped) && t.verdict.NoReply?
            && t.hand == s.sched.requests + (if s.sched.inFlight.Some? then [s.sched.inFlight.value] else [])
            && t.sched == Sched(s.sched.running, [], [], None, None, s.sched.imu, s.sched.motor)
  {}
}
