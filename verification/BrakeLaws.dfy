/**
 No brake command exceeds the configured limit: over every run whose control calls are the public
 ones, every SetCurrentBrake payload written, by a caller or by the watchdog, carries a raw value
 between 0 and the limit, and that value is the clamped request in milliamperes, rounded down.
 */
module BrakeLaws {
  import opened Framing
  import opened Wrappers
  import opened Codec
  import opened Scheduling
  import opened Client
  import opened ControlCommands
  import CommandLaws
  import SchedulerClass

  // ---- Bodies on their way to the wire ----------------------------------------------------

  /** The payload the I/O thread is about to write or is writing. */
  function OnItsWay(pc: Pc): Option<Payload> {
    match pc
    case Writing(body, _, _) => Some(body)
    case Finishing(after) => if after.ToSend? then Some(after.request.body) else None
    case _ => None
  }

  ghost predicate CommandsMeet(p: Payload -> bool, q: seq<Command>) {
    forall c :: c in q ==> p(c.body)
  }

  ghost predicate RequestsMeet(p: Payload -> bool, q: seq<Scheduling.Request>) {
    forall r :: r in q ==> p(r.body)
  }

  ghost predicate ChunksMeet(p: Payload -> bool, chunks: seq<Chunk>) {
    forall c :: c in chunks ==> p(c.body)
  }

  ghost predicate SentMeet(p: Payload -> bool, sent: seq<Payload>) {
    forall b :: b in sent ==> p(b)
  }

  ghost predicate AllBodies(p: Payload -> bool, s: State) {
    && p(s.cfg.safeStop)
    && CommandsMeet(p, s.sched.commands)
    && RequestsMeet(p, s.sched.requests)
    && (OnItsWay(s.pc).Some? ==> p(OnItsWay(s.pc).value))
    && ChunksMeet(p, s.past.chunks)
    && SentMeet(p, s.past.sent)
  }

  /** `p` holds of everything the client sends that is not a control command. */
  ghost predicate CoversRequests(p: Payload -> bool) {
    && p([]) && p([FW_VERSION]) && p(PollBody(Imu)) && p(PollBody(Motor))
    && forall b: Payload :: b != [] && IsManagement(b[0]) ==> p(b)
  }

  predicate Admits(p: Payload -> bool, e: Event) {
    e.Control? ==> p(e.body)
  }

  lemma {:induction false} ReplaceMeets(p: Payload -> bool, q: seq<Command>, c: Command)
    requires CommandsMeet(p, q) && p(c.body)
    ensures CommandsMeet(p, Replace(q, c))
  {
    if q != [] {
      ReplaceMeets(p, q[1..], c);
      assert forall d :: d in Without(q, c) ==> d == q[0] || d in Replace(q[1..], c);
    }
  }

  lemma {:induction false} UnexpiredMeets(p: Payload -> bool, q: seq<Scheduling.Request>, now: int)
    requires RequestsMeet(p, q)
    ensures RequestsMeet(p, Unexpired(q, now))
    ensures Unexpired(q, now) != [] ==> p(Unexpired(q, now)[0].body) && RequestsMeet(p, Unexpired(q, now)[1..])
  {
    if q != [] {
      UnexpiredMeets(p, q[1..], now);
    }
  }

  lemma NextBodyCovered(p: Payload -> bool, m: Management, free: Payload)
    requires CoversRequests(p) && m.Busy?
    ensures p(NextBody(m, free))
  {}

  lemma ControlKeepsBodies(p: Payload -> bool, s: State, e: Event)
    requires AllBodies(p, s) && e.Control? && p(e.body)
    ensures AllBodies(p, Step(s, e))
  {
    ReplaceMeets(p, s.sched.commands, Command(e.body, |s.past.log|));
  }

  lemma SubmitMeets(p: Payload -> bool, q: seq<Scheduling.Request>, r: Scheduling.Request)
    requires RequestsMeet(p, q) && p(r.body)
    ensures RequestsMeet(p, q + [r])
  {}

  lemma AskKeepsBodies(p: Payload -> bool, s: State, e: Event)
    requires AllBodies(p, s) && CoversRequests(p) && (e.AskVersion? || e.Request?)
    ensures AllBodies(p, Step(s, e))
  {
    var t := Step(s, e);
    if e.Request? && s.management.Busy? {
      NextBodyCovered(p, s.management, e.free);
    }
    if |t.past.issued| > |s.past.issued| {
      SubmitMeets(p, s.sched.requests, t.past.issued[|s.past.issued|]);
    }
  }

  lemma CallerKeepsBodies(p: Payload -> bool, s: State, e: Event)
    requires AllBodies(p, s) && !e.Io? && !e.Control? && !e.AskVersion? && !e.Request?
    ensures AllBodies(p, Step(s, e))
  {}

  lemma PlainKeepsBodies(p: Payload -> bool, s: State, e: Event)
    requires AllBodies(p, s) && e.Io? && Plain(s.pc)
    ensures AllBodies(p, Step(s, e))
  {}

  lemma SweepKeepsBodies(p: Payload -> bool, s: State, e: Event)
    requires AllBodies(p, s) && e.Io? && s.pc.Sweep?
    ensures AllBodies(p, Step(s, e))
  {
    UnexpiredMeets(p, s.sched.requests, s.now);
  }

  lemma TakeKeepsBodies(p: Payload -> bool, s: State, e: Event)
    requires AllBodies(p, s) && e.Io? && s.pc.QueryTake?
    ensures AllBodies(p, Step(s, e))
  {
    UnexpiredMeets(p, s.sched.requests, s.pc.stamp);
  }

  lemma PollKeepsBodies(p: Payload -> bool, s: State, e: Event)
    requires AllBodies(p, s) && CoversRequests(p) && e.Io? && s.pc.PollMake?
    ensures AllBodies(p, Step(s, e))
  {}

  lemma PopKeepsBodies(p: Payload -> bool, s: State, e: Event)
    requires AllBodies(p, s) && e.Io? && s.pc.Popping?
    ensures AllBodies(p, Step(s, e))
  {}

  lemma RegionKeepsBodies(p: Payload -> bool, s: State, e: Event)
    requires AllBodies(p, s) && e.Io? && (s.pc.Reading? || s.pc.Clearing?)
    ensures AllBodies(p, Step(s, e))
  {}

  lemma RenewKeepsBodies(p: Payload -> bool, s: State, e: Event)
    requires AllBodies(p, s) && e.Io? && (s.pc.Reschedule? || s.pc.WatchdogLock?)
    ensures AllBodies(p, Step(s, e))
  {}

  lemma FinishKeepsBodies(p: Payload -> bool, s: State, e: Event)
    requires AllBodies(p, s) && e.Io? && s.pc.Finishing?
    ensures AllBodies(p, Step(s, e))
  {}

  /** Writing adds to what was written only what is being written. */
  lemma WriteAdds(s: State, e: Event)
    requires e.Io? && s.pc.Writing?
    ensures var t := Step(s, e);
            && t.cfg == s.cfg && t.sched.commands == s.sched.commands && t.sched.requests == s.sched.requests
            && (OnItsWay(t.pc).None? || OnItsWay(t.pc).value == s.pc.body)
            && (t.past.sent == s.past.sent || t.past.sent == s.past.sent + [s.pc.body])
  {}

  lemma WriteAddsChunk(s: State, e: Event)
    requires e.Io? && s.pc.Writing?
    ensures Step(s, e).past.chunks == s.past.chunks ||
            exists c: Chunk :: c.body == s.pc.body && Step(s, e).past.chunks == s.past.chunks + [c]
  {
    var t := Step(s, e);
    if t.past.chunks != s.past.chunks {
      var c := t.past.chunks[|s.past.chunks|];
      assert c.body == s.pc.body && t.past.chunks == s.past.chunks + [c];
    }
  }

  lemma WriteKeepsBodies(p: Payload -> bool, s: State, e: Event)
    requires AllBodies(p, s) && e.Io? && s.pc.Writing?
    ensures AllBodies(p, Step(s, e))
  {
    WriteAdds(s, e);
    WriteAddsChunk(s, e);
  }

  lemma StepKeepsBodies(p: Payload -> bool, s: State, e: Event)
    requires AllBodies(p, s) && CoversRequests(p) && Admits(p, e)
    ensures AllBodies(p, Step(s, e))
  {
    if e.Control? {
      ControlKeepsBodies(p, s, e);
    } else if e.AskVersion? || e.Request? {
      AskKeepsBodies(p, s, e);
    } else if !e.Io? {
      CallerKeepsBodies(p, s, e);
    } else if s.pc.Sweep? {
      SweepKeepsBodies(p, s, e);
    } else if s.pc.QueryTake? {
      TakeKeepsBodies(p, s, e);
    } else if s.pc.PollMake? {
      PollKeepsBodies(p, s, e);
    } else if s.pc.Popping? {
      PopKeepsBodies(p, s, e);
    } else if Plain(s.pc) {
      PlainKeepsBodies(p, s, e);
    } else if s.pc.Finishing? {
      FinishKeepsBodies(p, s, e);
    } else if s.pc.Writing? {
      WriteKeepsBodies(p, s, e);
    } else if s.pc.Reading? || s.pc.Clearing? {
      RegionKeepsBodies(p, s, e);
    } else {
      RenewKeepsBodies(p, s, e);
    }
  }

  /** What holds of the safe stop, of every control call and of every request holds of everything
      ever written. */
  lemma {:induction false} RunKeepsBodies(p: Payload -> bool, cfg: Config, imu: nat, motor: nat, now: int,
      events: seq<Event>)
    requires p(cfg.safeStop) && CoversRequests(p)
    requires forall i :: 0 <= i < |events| ==> Admits(p, events[i])
    ensures AllBodies(p, Run(Init(cfg, imu, motor, now), events))
    decreases |events|
  {
    if events != [] {
      var before := events[..|events| - 1];
      RunKeepsBodies(p, cfg, imu, motor, now, before);
      StepKeepsBodies(p, Run(Init(cfg, imu, motor, now), before), events[|events| - 1]);
    }
  }

  // ---- Brake payloads ---------------------------------------------------------------------

  predicate IsBrake(body: Payload) {
    body != [] && body[0] == SET_CURRENT_BRAKE
  }

  /** The payload is well formed and its raw value is `amps` in milliamperes, rounded down. */
  predicate Carries(body: Payload, amps: real) {
    |body| == 5 && ReadInt32(body[1..]) as real <= 1000.0 * amps < ReadInt32(body[1..]) as real + 1.0
  }

  /** A brake current that the configuration names for the watchdog, or that a call of the run asked for. */
  ghost predicate Requested(o: Options, events: seq<Event>, amps: Float) {
    amps == o.watchdogBrakeCurrent || exists i :: 0 <= i < |events| && AsksFor(o, events[i], amps)
  }

  predicate AsksFor(o: Options, e: Event, amps: Float) {
    e.Control? && e.body == CallBody(o, SetCurrentBrake(amps))
  }

  /** The payload carries the clamped value of a current that was requested. */
  ghost predicate BrakeSafe(o: Options, events: seq<Event>, body: Payload) {
    exists requested :: Requested(o, events, requested)
        && Carries(body, ClampBrakeCurrent(requested, o.maxBrakeCurrent))
  }

  lemma ClampRange(requested: Float, most: Float)
    ensures var c := ClampBrakeCurrent(requested, most);
            && 0.0 <= c
            && (c > 0.0 ==> most.Finite? && requested.Finite? && c <= most.value && c <= requested.value)
            && (requested.Finite? && most.Finite? && 0.0 <= requested.value <= most.value ==> c == requested.value)
            && (requested.Finite? && most.Finite? && 0.0 <= most.value < requested.value ==> c == most.value)
  {}

  lemma BrakeCarries(amps: real)
    requires amps >= 0.0 && BuildSetCurrentBrake(Finite(amps)) != []
    ensures Carries(BuildSetCurrentBrake(Finite(amps)), amps)
  {
    var body := BuildSetCurrentBrake(Finite(amps));
    var raw := ScaledInt32(Finite(amps), 1000).value;
    assert body[1..] == Int32(raw);
    Int32RoundTrip(raw);
    assert raw == (amps * 1000.0).Floor;
  }

  lemma OtherCalls(o: Options, call: Call)
    requires !call.SetCurrentBrake?
    ensures !IsBrake(CallBody(o, call))
  {
    CallsAreShort(o, call);
  }

  lemma CallIsSafe(o: Options, events: seq<Event>, i: nat, call: Call)
    requires i < |events| && events[i].Control? && events[i].body == CallBody(o, call)
    ensures IsBrake(CallBody(o, call)) ==> BrakeSafe(o, events, CallBody(o, call))
  {
    if call.SetCurrentBrake? {
      var clamped := ClampBrakeCurrent(call.amps, o.maxBrakeCurrent);
      if CallBody(o, call) != [] {
        BrakeCarries(clamped);
        assert AsksFor(o, events[i], call.amps);
        assert Requested(o, events, call.amps);
      }
    } else {
      OtherCalls(o, call);
    }
  }

  lemma SafeStopIsSafe(o: Options, events: seq<Event>)
    ensures IsBrake(SafeStopBody(o)) ==> BrakeSafe(o, events, SafeStopBody(o))
  {
    if o.watchdogAction.BrakeCurrent? && SafeStopBody(o) != [] {
      ClampRange(o.watchdogBrakeCurrent, o.maxBrakeCurrent);
      assert Requested(o, events, o.watchdogBrakeCurrent);
      BrakeCarries(ClampBrakeCurrent(o.watchdogBrakeCurrent, o.maxBrakeCurrent));
    }
  }

  /** Control commands come from public calls. */
  ghost predicate FromCalls(o: Options, events: seq<Event>) {
    forall i :: 0 <= i < |events| && events[i].Control? ==> IsCall(o, events[i].body)
  }

  ghost predicate IsCall(o: Options, body: Payload) {
    exists call :: body == CallBody(o, call)
  }

  /** The bounds on a safe brake payload. */
  lemma SafeBounds(o: Options, events: seq<Event>, body: Payload)
    requires BrakeSafe(o, events, body)
    ensures |body| == 5 && 0 <= ReadInt32(body[1..])
    ensures ReadInt32(body[1..]) > 0 ==>
              o.maxBrakeCurrent.Finite? && ReadInt32(body[1..]) as real <= 1000.0 * o.maxBrakeCurrent.value
  {
    var requested :| Requested(o, events, requested) && Carries(body, ClampBrakeCurrent(requested, o.maxBrakeCurrent));
    ClampRange(requested, o.maxBrakeCurrent);
  }

  /** Over every run: each brake payload written in full or in part is within the limit. */
  lemma BrakeIsBounded(o: Options, imu: nat, motor: nat, now: int, events: seq<Event>, body: Payload)
    requires FromCalls(o, events) && IsBrake(body)
    requires var s := Run(Init(ConfigOf(o), imu, motor, now), events);
             body in s.past.sent || exists c :: c in s.past.chunks && c.body == body
    ensures BrakeSafe(o, events, body)
    ensures |body| == 5 && 0 <= ReadInt32(body[1..])
    ensures ReadInt32(body[1..]) > 0 ==>
              o.maxBrakeCurrent.Finite? && ReadInt32(body[1..]) as real <= 1000.0 * o.maxBrakeCurrent.value
  {
    var p := (b: Payload) => IsBrake(b) ==> BrakeSafe(o, events, b);
    SafeStopIsSafe(o, events);
    forall i | 0 <= i < |events|
      ensures Admits(p, events[i])
    {
      if events[i].Control? {
        assert IsCall(o, events[i].body);
        var call :| events[i].body == CallBody(o, call);
        CallIsSafe(o, events, i, call);
      }
    }
    RunKeepsBodies(p, ConfigOf(o), imu, motor, now, events);
    assert p(body);
    SafeBounds(o, events, body);
  }

  /** What the code of the queue asks of a command: a short frame, or no packet at all. */
  ghost predicate Enqueueable(body: Payload) {
    forall ticket: nat ::
      SchedulerClass.FromBuilder(SchedulerClass.FrameOf, Frame(body), Command(body, ticket))
  }

  lemma ShortIsEnqueueable(body: Payload)
    requires |body| <= 255
    ensures Enqueueable(body)
  {
    forall ticket: nat
      ensures SchedulerClass.FromBuilder(SchedulerClass.FrameOf, Frame(body), Command(body, ticket))
    {
      SchedulerClass.BuildersFrame(Command(body, ticket));
    }
  }

  /** The public calls meet what the laws of the command queue and its code ask of commands. */
  lemma CallsFitTheQueue(o: Options, events: seq<Event>)
    requires FromCalls(o, events)
    ensures CommandLaws.ApiCommands(events)
    ensures forall i :: 0 <= i < |events| && events[i].Control? ==> Enqueueable(events[i].body)
  {
    forall i | 0 <= i < |events| && events[i].Control?
      ensures events[i].body != [] ==> events[i].body[0] in CommandLaws.COMMAND_IDS
      ensures Enqueueable(events[i].body)
    {
      assert IsCall(o, events[i].body);
      var call :| events[i].body == CallBody(o, call);
      CallsAreShort(o, call);
      ShortIsEnqueueable(events[i].body);
    }
  }
}
