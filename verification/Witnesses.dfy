/**
 Runs that show what is not promised: a poll that goes out while a command waits, a calibration
 that overtakes the suppression of output queued before it, a poll that stops the transport, and a
 late reply that licenses a configuration write.
 */
module Witnesses {
  import opened Framing
  import opened Wrappers
  import opened Scheduling
  import opened Client
  import opened Walks

  /** No watchdog, a poll timeout of 10 and no guard window. */
  const CONFIG: Config := Config(false, 0, [], 10, 0)

  lemma ReachableIsClosed()
    ensures Closed(Reachable)
  {
    forall s, e | Reachable(s)
      ensures Reachable(Step(s, e))
    {
      ReachableStep(s, e);
    }
  }

  /** Just connected at time 0, the I/O thread waits for input. */
  function Waiting(imu: nat): State {
    Init(CONFIG, imu, 0, 0).(
      pc := Selecting,
      sched := Sched(true, [], [], None, None, Channel(imu, false, 0), Channel(0, false, 0)),
      past := Past(true, [], [], [Connected], [], [], []))
  }

  lemma InitIsReachable(imu: nat)
    ensures Reachable(Init(CONFIG, imu, 0, 0))
  {
    RunIsReachable(CONFIG, imu, 0, 0, []);
  }

  lemma WalkConnect(reach: State -> bool, s: State) returns (t: State)
    requires Closed(reach) && reach(s) && s.pc == Stopped && !s.sched.running
    requires s.sched.requests == [] && s.sched.inFlight.None?
    ensures reach(t)
    ensures t == Started(s.(pc := Finishing(ToStart), hand := [], verdict := NoReply, sched := Cleared(s.sched)))
  {
    t := GoCall(reach, s, Connect);
    t := GoStart(reach, t);
  }

  lemma WalkToWaiting(reach: State -> bool, imu: nat) returns (t: State)
    requires Closed(reach) && reach(Init(CONFIG, imu, 0, 0))
    ensures reach(t) && t == Waiting(imu)
  {
    t := WalkConnect(reach, Init(CONFIG, imu, 0, 0));
    t := Go(reach, t);
    assert t == Waiting(imu).(pc := LoopTop);
    t := WalkTopToWaiting(reach, imu);
  }

  lemma WalkTopToWaiting(reach: State -> bool, imu: nat) returns (t: State)
    requires Closed(reach) && reach(Waiting(imu).(pc := LoopTop))
    ensures reach(t) && t == Waiting(imu)
  {
    t := Go(reach, Waiting(imu).(pc := LoopTop));
    t := Go(reach, t);
    t := Go(reach, t);
    t := Go(reach, t);
  }

  // ---- A poll overtakes a command ---------------------------------------------------------

  lemma WalkTwoCommands(reach: State -> bool, s: State) returns (t: State)
    requires Closed(reach) && reach(s) && s == Waiting(1)
    ensures reach(t) && t.pc == Popping && t.cfg == CONFIG && t.now == 0
    ensures t.sched == s.sched.(commands := [Command([5], 1), Command([6], 2)])
    ensures t.past.log == [Connected, Accepted([5], true, 0), Accepted([6], true, 0)]
  {
    t := WalkCommand(reach, s, [5]);
    t := WalkCommand(reach, t, [6]);
    t := Go(reach, t);
    t := Go(reach, t);
  }

  /** A command is accepted whose ID is not queued yet. */
  lemma WalkCommand(reach: State -> bool, s: State, body: Payload) returns (t: State)
    requires Closed(reach) && reach(s) && s.sched.running && ValidPayload(body) && s.cfg == CONFIG
    requires |s.sched.commands| <= 1
    requires forall c :: c in s.sched.commands ==> !SameId(c, Command(body, |s.past.log|))
    ensures reach(t)
    ensures t == Noted(s, Some(Accepted(body, true, s.now))).(
                   sched := s.sched.(commands := s.sched.commands + [Command(body, |s.past.log|)]))
  {
    WithoutNone(s.sched.commands, Command(body, |s.past.log|));
    t := GoCall(reach, s, Control(body, true));
  }

  /** The head of the queue is popped and written. */
  lemma WalkPopOne(reach: State -> bool, s: State) returns (t: State)
    requires Closed(reach) && reach(s) && s.pc == Popping && s.sched.running
    requires s.sched.requests == [] && s.sched.inFlight.None?
    requires s.sched.commands != [] && ValidPayload(s.sched.commands[0].body)
    ensures reach(t) && t.pc == CheckInFlight && t.sched == s.sched.(commands := s.sched.commands[1..])
    ensures t.past.log == s.past.log + [CommandOut(s.sched.commands[0].ticket)]
    ensures t.past.issued == s.past.issued && t.cfg == s.cfg && t.now == s.now && t.management == s.management
  {
    t := Go(reach, s);
    t := GoWrite(reach, t);
    t := Go(reach, t);
    t := Go(reach, t);
  }

  lemma WalkPoll(reach: State -> bool, s: State) returns (t: State)
    requires Closed(reach) && reach(s) && s.pc == CheckInFlight && s.now == 0 && s.sched.inFlight.None?
    requires s.sched.imu == Channel(1, false, 0) && s.sched.motor == Channel(0, false, 0)
    ensures reach(t) && t.pc == PollMake(Imu, 0) && t == s.(pc := PollMake(Imu, 0))
  {
    t := Go(reach, s);
    t := Go(reach, t);
  }

  lemma WalkOvertaking(reach: State -> bool) returns (t: State)
    requires Closed(reach) && reach(Init(CONFIG, 1, 0, 0))
    ensures reach(t) && t.sched.commands == [Command([6], 2)] && t.past.log == OVERTAKING
  {
    t := WalkToWaiting(reach, 1);
    t := WalkTwoCommands(reach, t);
    t := WalkPopOne(reach, t);
    t := WalkPoll(reach, t);
    t := Go(reach, t);
  }

  const OVERTAKING: seq<Entry> := [
    Connected, Accepted([5], true, 0), Accepted([6], true, 0), CommandOut(1), Polled(Imu, 0, 1, false)]

  /** Two commands are queued; one is written, and then a poll goes out before the other. */
  lemma PollOvertakesCommand() returns (s: State)
    ensures Reachable(s) && s.sched.commands == [Command([6], 2)] && s.past.log == OVERTAKING
  {
    ReachableIsClosed();
    InitIsReachable(1);
    s := WalkOvertaking(Reachable);
  }

  // ---- A poll stops the transport ---------------------------------------------------------

  lemma WalkToCheck(reach: State -> bool, imu: nat) returns (t: State)
    requires Closed(reach) && reach(Waiting(imu))
    ensures reach(t) && t == Waiting(imu).(pc := CheckInFlight)
  {
    t := Go(reach, Waiting(imu));
    t := Go(reach, t);
    t := Go(reach, t);
    t := Go(reach, t);
    t := Go(reach, t);
  }

  /** The poll of the IMU has been selected. */
  function Poised(): State {
    Waiting(1).(pc := PollMake(Imu, 0))
  }

  lemma WalkToPoised(reach: State -> bool)
    requires Closed(reach) && reach(Init(CONFIG, 1, 0, 0))
    ensures reach(Poised())
  {
    var t := WalkToWaiting(reach, 1);
    t := WalkToCheck(reach, 1);
    t := WalkPoll(reach, t);
  }

  lemma PoisedPolls()
    ensures Step(Poised(), Io(Fine)).pc.Writing?
  {
    QuietlySteps(Poised());
  }

  lemma DisabledHalts(t: State)
    requires t == Step(Poised(), SetInterval(Imu, 0))
    ensures Step(t, Io(Fine)).pc == Halting
  {
    CalledSteps(Poised(), SetInterval(Imu, 0));
    QuietlySteps(t);
  }

  /** A poll has been selected; disabling its channel now makes the next step stop the transport. */
  lemma DisablingStopsTransport(t: State)
    requires t == Step(Poised(), SetInterval(Imu, 0))
    ensures Reachable(Poised()) && Step(Poised(), Io(Fine)).pc.Writing?
    ensures Step(t, Io(Fine)).pc == Halting
  {
    ReachableIsClosed();
    InitIsReachable(1);
    WalkToPoised(Reachable);
    PoisedPolls();
    DisabledHalts(t);
  }

  // ---- Calibration overtakes the suppression of output ------------------------------------

  /** Suppress application output for five seconds. */
  const SUPPRESS: Payload := [63, 0, 0, 0, 19, 136]

  /** Detect and apply all motor parameters, with a power loss of 10 W. */
  const CALIBRATE: Payload := [58, 0, 0, 0, 39, 16, 0, 0, 0, 0, 0, 0, 0, 0, 0, 0, 0, 0, 0, 0, 0, 0]

  function Calibration(): Scheduling.Request {
    Scheduling.Request(Query, 0, 1, DETECT_FOC, CALIBRATE, 1, true)
  }

  /** As one caller does: the lock is taken and the suppression queued. */
  lemma WalkSuppress(reach: State -> bool, s: State) returns (t: State)
    requires Closed(reach) && reach(s) && s.sched.running && s.management.Free? && s.nextOp == 1
    requires |s.sched.commands| <= 1
    requires forall c :: c in s.sched.commands ==> !SameId(c, Command(SUPPRESS, |s.past.log|))
    ensures reach(t)
    ensures t == Noted(s, Some(Accepted(SUPPRESS, false, s.now))).(
                   management := Busy(1, Script.Other, false, Ready), nextOp := 2,
                   sched := s.sched.(commands := s.sched.commands + [Command(SUPPRESS, |s.past.log|)]))
  {
    t := GoCall(reach, s, Lock(Script.Other));
    WithoutNone(s.sched.commands, Command(SUPPRESS, |s.past.log|));
    t := GoCall(reach, t, Control(SUPPRESS, false));
  }

  lemma WithoutNone(q: seq<Command>, c: Command)
    requires |q| <= 1 && forall d :: d in q ==> !SameId(d, c)
    ensures Without(q, c) == q
  {
    if q != [] {
      assert q[0] in q && q[1..] == [] && q == [q[0]] + [];
    }
  }

  /** Then the request is made. */
  lemma WalkCalibrate(reach: State -> bool, s: State) returns (t: State)
    requires Closed(reach) && reach(s) && s.sched.running && s.sched.requests == [] && s.past.issued == []
    requires s.management == Busy(1, Script.Other, false, Ready)
    ensures reach(t) && t.sched == s.sched.(requests := [Calibration()]) && t.past.log == s.past.log
    ensures t.pc == s.pc && t.cfg == s.cfg && t.now == s.now
  {
    t := GoCall(reach, s, Event.Request(CALIBRATE, 1));
  }

  lemma WalkRequestOut(reach: State -> bool, s: State) returns (t: State)
    requires Closed(reach) && reach(s) && s.pc == CheckInFlight && s.now == 0
    requires s.sched == Waiting(0).sched.(commands := s.sched.commands, requests := [Calibration()])
    ensures reach(t) && t.pc == LoopTop && t.cfg == s.cfg && t.now == 0 && t.hand == []
    ensures t.sched == s.sched.(requests := [], inFlight := Some(Calibration()))
    ensures t.past.log == s.past.log + [RequestOut(Calibration())]
  {
    t := WalkTakeCalibration(reach, s);
    t := Go(reach, t);
    t := GoWrite(reach, t);
    t := Go(reach, t);
  }

  lemma WalkTakeCalibration(reach: State -> bool, s: State) returns (t: State)
    requires Closed(reach) && reach(s) && s.pc == CheckInFlight && s.now == 0
    requires s.sched == Waiting(0).sched.(commands := s.sched.commands, requests := [Calibration()])
    ensures reach(t) && t.hand == []
    ensures t == s.(pc := Finishing(ToSend(Calibration())), hand := [], verdict := NoReply,
                    sched := s.sched.(requests := []))
  {
    t := Go(reach, s);
    t := Go(reach, t);
    t := GoTake(reach, t);
  }

  lemma WalkNextPop(reach: State -> bool, s: State) returns (t: State)
    requires Closed(reach) && reach(s) && s.pc == LoopTop && s.cfg == CONFIG && s.now == 0 && s.hand == []
    requires s.sched == Waiting(0).sched.(commands := [Command(SUPPRESS, 1)], inFlight := Some(Calibration()))
    ensures reach(t) && t.pc == Popping && t.past.log == s.past.log && t.sched == s.sched
  {
    t := Go(reach, s);
    t := Go(reach, t);
    t := Go(reach, t);
    t := Go(reach, t);
    t := Go(reach, t);
    t := Go(reach, t);
  }

  lemma WalkCalibration(reach: State -> bool) returns (t: State)
    requires Closed(reach) && reach(Init(CONFIG, 0, 0, 0))
    ensures reach(t)
    ensures t.past.log == [Connected, Accepted(SUPPRESS, false, 0), RequestOut(Calibration()), CommandOut(1)]
  {
    t := WalkToWaiting(reach, 0);
    t := WalkToCheck(reach, 0);
    t := WalkSuppress(reach, t);
    assert t.sched.commands == [Command(SUPPRESS, 1)];
    t := WalkCalibrate(reach, t);
    t := WalkRequestOut(reach, t);
    t := WalkNextPop(reach, t);
    t := Go(reach, t);
  }

  /** The calibration request goes out before the suppression queued ahead of it. */
  lemma CalibrationOvertakesSuppression() returns (s: State)
    ensures Reachable(s)
    ensures s.past.log == [Connected, Accepted(SUPPRESS, false, 0), RequestOut(Calibration()), CommandOut(1)]
  {
    ReachableIsClosed();
    InitIsReachable(0);
    s := WalkCalibration(Reachable);
  }

  const BEHIND_ANOTHER: seq<Entry> := [
    Connected, Accepted([8], true, 0), Accepted(SUPPRESS, false, 0), CommandOut(1), RequestOut(Calibration())]

  lemma WalkBehindAnother(reach: State -> bool) returns (s: State, t: State)
    requires Closed(reach) && reach(Init(CONFIG, 0, 0, 0))
    ensures reach(s) && s.pc == Selecting && s.sched.commands == [Command([8], 1), Command(SUPPRESS, 2)]
    ensures s.management == Busy(1, Script.Other, false, Ready)
    ensures s.past.log == BEHIND_ANOTHER[..3]
    ensures reach(t) && t.sched.commands == [Command(SUPPRESS, 2)] && t.past.log == BEHIND_ANOTHER
  {
    s := WalkToWaiting(reach, 0);
    s := WalkCommand(reach, s, [8]);
    s := WalkSuppress(reach, s);
    t := Go(reach, s);
    t := Go(reach, t);
    t := WalkPopOne(reach, t);
    t := WalkCalibrate(reach, t);
    t := WalkRequestOut(reach, t);
  }

  /** The suppression waits behind another command when the present pass cannot take the request any
      more; the request still goes out before it. */
  lemma CalibrationOvertakesFromBehind() returns (s: State, t: State)
    ensures Reachable(s) && s.pc == Selecting && s.sched.commands == [Command([8], 1), Command(SUPPRESS, 2)]
    ensures s.management == Busy(1, Script.Other, false, Ready) && s.past.log == BEHIND_ANOTHER[..3]
    ensures Reachable(t) && t.sched.commands == [Command(SUPPRESS, 2)] && t.past.log == BEHIND_ANOTHER
  {
    ReachableIsClosed();
    InitIsReachable(0);
    s, t := WalkBehindAnother(Reachable);
  }

  // ---- A late reply licenses a write ------------------------------------------------------

  const IMAGE: Payload := [1, 2, 3, 4]

  function OldRequest(): Scheduling.Request {
    Scheduling.Request(Query, 0, 1, GET_MOTOR_CONFIG, [GET_MOTOR_CONFIG], 1, true)
  }

  /** Connected at time 0 with polls disabled, at the top of the loop. */
  lemma WalkToTop(reach: State -> bool) returns (t: State)
    requires Closed(reach) && reach(Init(CONFIG, 0, 0, 0))
    ensures reach(t) && t == Waiting(0).(pc := LoopTop)
  {
    t := WalkConnect(reach, Init(CONFIG, 0, 0, 0));
    t := Go(reach, t);
  }

  /** A request is in flight at time 0 and has reached the device. */
  predicate FirstAsked(s: State) {
    && s.pc == LoopTop && Calm(s) && s.sched.requests == [] && s.sched.inFlight == Some(OldRequest())
    && s.now == 0 && s.nextOp == 2 && s.hand == []
    && s.management.Busy? && s.management.phase == Client.Phase.Waiting(0) && s.management.script.Other?
    && s.device == Device(map[0 := GET_MOTOR_CONFIG], {}, [])
    && s.past.issued == [OldRequest()] && s.past.completions == [] && RequestOut(OldRequest()) in s.past.log
  }

  lemma WalkFirstAsked(reach: State -> bool) returns (t: State)
    requires Closed(reach) && reach(Waiting(0).(pc := LoopTop))
    ensures reach(t) && FirstAsked(t)
  {
    t := GoCall(reach, Waiting(0).(pc := LoopTop), Lock(Script.Other));
    t := WalkAsk(reach, t, [GET_MOTOR_CONFIG]);
  }

  /** It timed out and took the connection with it. */
  predicate GaveUp(s: State) {
    && s.pc == Stopped && !s.sched.running && s.sched.requests == [] && s.sched.inFlight.None?
    && s.sched.commands == [] && s.sched.watchdog.None? && s.sched.imu.interval == 0 && s.sched.motor.interval == 0
    && s.nextOp == 2 && s.hand == []
    && s.management.Busy? && s.management.phase == Client.Phase.Waiting(0)
    && s.device == Device(map[0 := GET_MOTOR_CONFIG], {}, [])
    && |s.past.issued| == 1 && |s.past.completions| == 1 && s.past.completions[0].request.id == 0
    && RequestOut(OldRequest()) in s.past.log
  }

  lemma WalkTimeOut(reach: State -> bool, s: State) returns (t: State)
    requires Closed(reach) && reach(s) && FirstAsked(s)
    ensures reach(t) && t.pc == StopFlag && t.hand == [OldRequest()]
    ensures t.sched.requests == [] && t.sched.inFlight.None? && t.sched.commands == [] && t.sched.watchdog.None?
    ensures t.sched.imu.interval == 0 && t.sched.motor.interval == 0
    ensures t.nextOp == 2 && t.management == s.management && t.device == s.device
    ensures t.past.issued == s.past.issued && t.past.completions == [] && RequestOut(OldRequest()) in t.past.log
  {
    t := GoCall(reach, s, Tick(1));
    t := Go(reach, t);
    t := Go(reach, t);
    t := GoTimeOut(reach, t);
  }

  lemma WalkGiveUp(reach: State -> bool, s: State) returns (t: State)
    requires Closed(reach) && reach(s) && FirstAsked(s)
    ensures reach(t) && GaveUp(t)
  {
    t := WalkTimeOut(reach, s);
    t := GoStop(reach, t);
    t := GoTell(reach, t);
    t := Go(reach, t);
    t := GoClear(reach, t);
    t := Go(reach, t);
  }

  /** A new connection, on which another operation holds the lock to write a configuration. */
  predicate Reconnected(s: State, earlier: seq<Entry>) {
    && MayAsk(s, []) && s.hand == [] && s.management == Busy(2, WriteConfig(SET_MOTOR_CONFIG, IMAGE), false, Ready)
    && s.device == Device(map[0 := GET_MOTOR_CONFIG], {}, []) && |s.past.issued| == 1
    && |earlier| < |s.past.log| && earlier <= s.past.log && s.past.log[|earlier|] == Connected
    && RequestOut(OldRequest()) in earlier
  }

  lemma WalkReconnect(reach: State -> bool, s: State) returns (t: State)
    requires Closed(reach) && reach(s) && GaveUp(s)
    ensures reach(t) && Reconnected(t, s.past.log)
  {
    t := WalkConnect(reach, s);
    t := Go(reach, t);
    t := GoCall(reach, t, Wake(0));
    t := GoCall(reach, t, Unlock);
    t := GoCall(reach, t, Lock(WriteConfig(SET_MOTOR_CONFIG, IMAGE)));
  }

  /** The late reply to the old request, with the image's own signature. */
  function LatePacket(): Packet {
    Packet([GET_MOTOR_CONFIG] + IMAGE, ReplyTo(0))
  }

  /** A read of operation 2 that was completed by the late reply. */
  predicate IsLate(c: Completion) {
    c.request.op == 2 && c.request.id == 1 && c.outcome == Reply(LatePacket())
  }

  predicate Licensed(s: State, c: Completion) {
    && MayAsk(s, []) && s.management.op == 2 && NextBody(s.management, []) == [SET_MOTOR_CONFIG] + IMAGE
    && IsLate(c) && Done(c) in s.past.log
  }

  lemma WalkLateReply(reach: State -> bool, s: State) returns (t: State, c: Completion)
    requires Closed(reach) && reach(s) && MayAsk(s, [])
    requires s.management == Busy(2, WriteConfig(SET_MOTOR_CONFIG, IMAGE), false, Ready)
    requires s.device == Device(map[0 := GET_MOTOR_CONFIG], {}, []) && |s.past.issued| == 1
    ensures reach(t) && t.pc == Finishing(ToRead) && t.hand == [] && Calm(t)
    ensures t.sched.requests == [] && t.sched.inFlight.None?
    ensures t.management == s.management.(phase := Client.Phase.Waiting(1))
    ensures |t.past.completions| > 0 && t.past.completions[|t.past.completions| - 1] == c
    ensures IsLate(c) && Done(c) in t.past.log
    ensures s.past.log <= t.past.log
  {
    t := WalkAsk(reach, s, []);
    t := GoCall(reach, t, DeviceReplies(0, [GET_MOTOR_CONFIG] + IMAGE));
    assert t.device.channel == [LatePacket()];
    c := AnswerOf(t);
    t := WalkAnswer(reach, t);
  }

  lemma WalkLicensed(reach: State -> bool, s: State, c: Completion) returns (t: State)
    requires Closed(reach) && reach(s) && s.pc == Finishing(ToRead) && s.hand == [] && Calm(s)
    requires s.sched.requests == [] && s.sched.inFlight.None?
    requires s.management == Busy(2, WriteConfig(SET_MOTOR_CONFIG, IMAGE), false, Client.Phase.Waiting(1))
    requires |s.past.completions| > 0 && s.past.completions[|s.past.completions| - 1] == c
    requires IsLate(c) && Done(c) in s.past.log
    ensures reach(t) && Licensed(t, c) && s.past.log <= t.past.log
  {
    t := WalkBack(reach, s);
    assert LatePacket().payload[1..] == IMAGE;
    t := GoCall(reach, t, Wake(|s.past.completions| - 1));
  }

  /** A configuration write goes out, licensed by the reply to a read of an earlier connection. */
  ghost predicate WrongLicense(log: seq<Entry>) {
    exists a, b, c: Completion, w: Scheduling.Request ::
      && 0 <= a < b < |log| && log[a] == RequestOut(OldRequest()) && log[b] == Connected
      && IsLate(c) && Done(c) in log
      && w.op == 2 && w.body == [SET_MOTOR_CONFIG] + IMAGE && RequestOut(w) in log
  }

  lemma WalkWrongLicense(reach: State -> bool, s: State, earlier: seq<Entry>) returns (t: State)
    requires Closed(reach) && reach(s) && Reconnected(s, earlier)
    ensures reach(t) && WrongLicense(t.past.log)
  {
    var c: Completion;
    t, c := WalkLateReply(reach, s);
    t := WalkLicensed(reach, t, c);
    var w := NextRequest(t, []);
    t := WalkAsk(reach, t, []);
    var a :| 0 <= a < |earlier| && earlier[a] == RequestOut(OldRequest());
    assert t.past.log[a] == RequestOut(OldRequest()) && t.past.log[|earlier|] == Connected;
  }

  lemma WalkTwoConnections(reach: State -> bool) returns (t: State)
    requires Closed(reach) && reach(Init(CONFIG, 0, 0, 0))
    ensures reach(t) && WrongLicense(t.past.log)
  {
    t := WalkToTop(reach);
    t := WalkFirstAsked(reach);
    t := WalkGiveUp(reach, t);
    var earlier := t.past.log;
    t := WalkReconnect(reach, t);
    t := WalkWrongLicense(reach, t, earlier);
  }

  /** On one connection a read times out; on the next its late reply licenses a write. */
  lemma LateReplyLicensesWrite() returns (s: State)
    ensures Reachable(s) && WrongLicense(s.past.log)
  {
    ReachableIsClosed();
    InitIsReachable(0);
    s := WalkTwoConnections(Reachable);
  }
}
