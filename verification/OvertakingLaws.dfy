/**
 When a poll or query goes out while a command waits. A command behind another one is overtaken
 whenever the loop can go on to the next pop with nothing in the way afterwards: a request that
 would stop the transport must be answered first, and it can be read only before the pop.
 */
module OvertakingLaws {
  import opened Checksums
  import opened Scheduling
  import opened Client
  import opened ExactlyOnce
  import opened DeviceLaws
  import opened CommandLaws
  import opened PriorityLaws
  import opened PassLaws
  import PollLaws

  // ---- The condition ----------------------------------------------------------------------

  /** The device can still send something with this ID on account of request `y`. */
  predicate CanSend(d: Device, y: nat, id: Byte) {
    && y in d.arrived && y !in d.served
    && (d.arrived[y] == id || (d.arrived[y] == DETECT_FOC && (id == GET_MOTOR_CONFIG || id == GET_APP_CONFIG)))
  }

  predicate Carries(p: Packet, id: Byte) {
    p.payload != [] && p.payload[0] == id
  }

  /** Something that the client would take for the reply is on its way, or can still be sent. */
  ghost predicate Answerable(d: Device, id: Byte) {
    || (exists i :: 0 <= i < |d.channel| && Carries(d.channel[i], id))
    || (exists y :: CanSend(d, y, id))
  }

  /** The request is still being written, or can be answered. */
  ghost predicate Replied(s: State, id: Byte) {
    (s.pc.Writing? && s.pc.job.Ask?) || Answerable(s.device, id)
  }

  /** The pass is past its reads and still to pop. */
  predicate PastReading(pc: Pc) {
    pc == WatchdogCheck || pc.WatchdogLock? || pc == Popping
  }

  /** What is in flight can be out of the way when the pass that pops a command ahead of index k gets to
      its requests. A management request must be answered before it expires and before that pop; if the
      present pass is past its reads, then before the pop of the next pass. */
  ghost predicate Yields(s: State, k: nat) {
    Grave(s) ==>
      var r := Flight(s).value;
      && Replied(s, r.expected)
      && (InWindow(s.pc) || r.deadline > s.now)
      && (PastReading(s.pc) ==> k > 1)
  }

  // ---- A request is not answered before it is sent ----------------------------------------

  predicate Unsent(q: seq<Scheduling.Request>, d: Device) {
    forall i :: 0 <= i < |q| ==> q[i].op != 0 ==> q[i].id !in d.arrived
  }

  /** What the I/O thread holds and has not sent. */
  function Unwritten(pc: Pc): seq<Scheduling.Request> {
    if pc.Installing? then [] else Held(pc)
  }

  ghost predicate UnsentInv(s: State) {
    KnownInv(s) && StillUnsent(s)
  }

  lemma {:induction false} UnexpiredUnsent(q: seq<Scheduling.Request>, now: int, d: Device)
    requires Unsent(q, d)
    ensures Unsent(Unexpired(q, now), d)
  {
    if q != [] {
      UnexpiredUnsent(q[1..], now, d);
    }
  }

  predicate StillUnsent(s: State) {
    Unsent(s.sched.requests, s.device) && Unsent(Unwritten(s.pc), s.device)
  }

  lemma UnsentCaller(s: State, e: Event)
    requires StillUnsent(s) && !e.Io? && !e.AskVersion? && !e.Request?
    ensures StillUnsent(Step(s, e))
  {}

  lemma UnsentAsks(s: State, e: Event)
    requires StillUnsent(s) && DeviceKnown(s.device, s.past.issued) && (e.AskVersion? || e.Request?)
    ensures StillUnsent(Step(s, e))
  {
    var q, more := s.sched.requests, Step(s, e).sched.requests;
    if more != q {
      assert more == q + [more[|q|]] && more[|q|].id == |s.past.issued|;
      assert |s.past.issued| in s.device.arrived ==>
          ArrivalKnown(|s.past.issued|, s.device.arrived[|s.past.issued|], s.past.issued);
    }
  }

  lemma UnsentSweep(s: State, e: Event)
    requires StillUnsent(s) && e.Io? && s.pc.Sweep?
    ensures StillUnsent(Step(s, e))
  {
    UnexpiredUnsent(s.sched.requests, s.now, s.device);
  }

  lemma UnsentTake(s: State, e: Event)
    requires StillUnsent(s) && e.Io? && s.pc.QueryTake?
    ensures StillUnsent(Step(s, e))
  {
    UnexpiredUnsent(s.sched.requests, s.pc.stamp, s.device);
  }

  lemma UnsentPlain(s: State, e: Event)
    requires StillUnsent(s) && e.Io? && Plain(s.pc)
    ensures StillUnsent(Step(s, e))
  {}

  lemma UnsentQueues(s: State, e: Event)
    requires StillUnsent(s) && e.Io? && (s.pc.Reading? || s.pc.Clearing?)
    ensures StillUnsent(Step(s, e))
  {}

  lemma UnsentRest(s: State, e: Event)
    requires StillUnsent(s) && e.Io? && (Schedules(s.pc) || s.pc.Finishing?)
    ensures StillUnsent(Step(s, e))
  {}

  /** What is being written is nowhere else. */
  lemma WrittenOnce(s: State, i: nat)
    requires RequestInv(s) && s.pc.Writing? && s.pc.job.Ask? && s.pc.job.request.op != 0 && i < |s.sched.requests|
    requires s.sched.requests[i].op != 0
    ensures s.sched.requests[i].id != s.pc.job.request.id
  {
    var p, r := PlacesOf(s), s.pc.job.request;
    assert p.held == [r] && Fit(p.held[0]) && Fit(p.queued[i]) && p.queued[i] in p.queued;
    FoundIsIssued(p, r);
    FoundIsIssued(p, p.queued[i]);
    OnePlace(p, r.id);
  }

  lemma WritingMovesOn(s: State, e: Event)
    requires e.Io? && s.pc.Writing?
    ensures var t := Step(s, e);
            && t.sched.requests == s.sched.requests
            && (Unwritten(t.pc) == [] || (Unwritten(t.pc) == Unwritten(s.pc) && t.device.arrived == s.device.arrived))
  {}

  lemma UnsentWrite(s: State, e: Event)
    requires StillUnsent(s) && RequestInv(s) && e.Io? && s.pc.Writing?
    ensures StillUnsent(Step(s, e))
  {
    DeviceChanges(s, e);
    WritingMovesOn(s, e);
    if Step(s, e).device.arrived != s.device.arrived {
      forall i | 0 <= i < |s.sched.requests| && s.sched.requests[i].op != 0
        ensures s.sched.requests[i].id != s.pc.job.request.id
      {
        WrittenOnce(s, i);
      }
    }
  }

  lemma UnsentStep(s: State, e: Event)
    requires UnsentInv(s)
    ensures UnsentInv(Step(s, e))
  {
    KnownStep(s, e);
    if e.AskVersion? || e.Request? {
      UnsentAsks(s, e);
    } else if !e.Io? {
      UnsentCaller(s, e);
    } else if s.pc.Sweep? {
      UnsentSweep(s, e);
    } else if s.pc.QueryTake? {
      UnsentTake(s, e);
    } else if s.pc.Writing? {
      UnsentWrite(s, e);
    } else if Schedules(s.pc) || s.pc.Finishing? {
      UnsentRest(s, e);
    } else if Plain(s.pc) {
      UnsentPlain(s, e);
    } else {
      UnsentQueues(s, e);
    }
  }

  lemma UnsentReachable(s: State)
    requires Reachable(s)
    ensures UnsentInv(s)
  {
    forall cfg, imu: nat, motor: nat, now
      ensures UnsentInv(Init(cfg, imu, motor, now))
    {
      InitKnown(cfg, imu, motor, now);
    }
    forall t, e | UnsentInv(t)
      ensures UnsentInv(Step(t, e))
    {
      UnsentStep(t, e);
    }
    ReachableKeeps(UnsentInv, s);
  }

  // ---- With nothing grave in flight -------------------------------------------------------

  /** At the next pop another command is popped, and the pass can start a request. */
  lemma PopCan(can: State -> bool, s: State, c: Command)
    requires Backward(can) && BackWaiting(can, c) && Going(s, c) && s.pc == Popping && !Grave(s)
    ensures can(s)
  {
    PopsAnother(s, c);
    CanStartCan(can, Step(s, Io(Fine)));
    OneEarlier(can, s, Io(Fine), c);
  }

  lemma MildCan(can: State -> bool, s: State, c: Command)
    requires Backward(can) && BackWaiting(can, c) && Going(s, c) && !Grave(s)
    ensures can(s)
  {
    forall t | NextPop(s, t, c)
      ensures can(t)
    {
      PopCan(can, t, c);
    }
    AtTheNextPop(can, s, c);
  }

  // ---- With a management request in flight ------------------------------------------------

  lemma MatchGoes(s: State)
    requires OnTheWay(s) && NotDue(s) && s.pc == Reading && s.device.channel != []
    requires Matches(s.sched, s.device.channel[0].payload)
    ensures var t := Step(s, Io(Moved(1)));
            OnTheWay(t) && NotDue(t) && t.sched.commands == s.sched.commands && !Grave(t)
  {}

  lemma OtherGoes(s: State)
    requires OnTheWay(s) && NotDue(s) && s.pc == Reading && s.device.channel != []
    requires !Matches(s.sched, s.device.channel[0].payload)
    ensures var t := Step(s, Io(Moved(1)));
            && OnTheWay(t) && NotDue(t) && t.sched == s.sched
            && t.pc == Reading && t.device.channel == s.device.channel[1..]
  {}

  /** One packet is read: the reply, or one before it. */
  lemma ReadGoes(s: State, c: Command)
    requires Going(s, c) && s.pc == Reading && s.device.channel != []
    ensures var t := Step(s, Io(Moved(1)));
            && Going(t, c) && Spared(GlanceOf(s, Io(Moved(1))), c)
            && (if Matches(s.sched, s.device.channel[0].payload) then !Grave(t)
                else t.pc == Reading && t.device.channel == s.device.channel[1..] && Flight(t) == Flight(s))
  {
    if Matches(s.sched, s.device.channel[0].payload) {
      MatchGoes(s);
    } else {
      OtherGoes(s);
    }
  }

  /** A reply on the line is read before the pop. */
  lemma {:induction false} ReplyCan(can: State -> bool, s: State, c: Command, i: nat)
    requires Backward(can) && BackWaiting(can, c) && Going(s, c) && s.pc == Reading && Grave(s)
    requires i < |s.device.channel| && Carries(s.device.channel[i], Flight(s).value.expected)
    ensures can(s)
    decreases i
  {
    var t := Step(s, Io(Moved(1)));
    ReadGoes(s, c);
    if Matches(s.sched, s.device.channel[0].payload) {
      MildCan(can, t, c);
    } else {
      ReplyCan(can, t, c, i - 1);
    }
    OneEarlier(can, s, Io(Moved(1)), c);
  }

  lemma DeviceSends(s: State, y: nat, id: Byte) returns (e: Event)
    requires CanSend(s.device, y, id)
    ensures var t := Step(s, e);
            && t == s.(device := t.device) && MoveOf(s, e).Keep?
            && |t.device.channel| == |s.device.channel| + 1 && Carries(t.device.channel[|s.device.channel|], id)
  {
    e := if s.device.arrived[y] == id then DeviceReplies(y, [id]) else DeviceReports(y, [id]);
  }

  lemma OnlyDeviceGoes(s: State, t: State, c: Command)
    requires Going(s, c) && t == s.(device := t.device)
    ensures Going(t, c) && Flight(t) == Flight(s)
  {}

  lemma AnswerCan(can: State -> bool, s: State, c: Command)
    requires Backward(can) && BackWaiting(can, c) && Going(s, c) && s.pc == Reading && Grave(s)
    requires Answerable(s.device, Flight(s).value.expected)
    ensures can(s)
  {
    var id := Flight(s).value.expected;
    if i :| 0 <= i < |s.device.channel| && Carries(s.device.channel[i], id) {
      ReplyCan(can, s, c, i);
    } else {
      var y :| CanSend(s.device, y, id);
      var e := DeviceSends(s, y, id);
      OnlyDeviceGoes(s, Step(s, e), c);
      ReplyCan(can, Step(s, e), c, |s.device.channel|);
      OneEarlier(can, s, e, c);
    }
  }

  /** A grave request that is in flight, or about to be, and can be answered. */
  ghost predicate Awaiting(s: State) {
    && Grave(s) && Fit(Flight(s).value) && Replied(s, Flight(s).value.expected)
    && (s.pc.Writing? && s.pc.job.Ask? ==> Flight(s).value.id !in s.device.served)
  }

  lemma WrittenArrives(s: State)
    requires OnTheWay(s) && Awaiting(s) && s.pc.Writing? && s.pc.job.Ask?
    ensures var r, t := Flight(s).value, Step(s, Way(s)); t.pc == Installing(r) && CanSend(t.device, r.id, r.expected)
  {}

  lemma NotWriting(s: State)
    requires OnTheWay(s) && Grave(s) && s.pc != Popping
    ensures var t := Step(s, Way(s)); !(t.pc.Writing? && t.pc.job.Ask?)
  {}

  /** The reads come before the pop. */
  lemma ReadsFirst(s: State)
    requires OnTheWay(s) && Rank(s) > 3
    ensures Rank(Step(s, Way(s))) >= 3
  {
    if s.pc.Finishing? {
      ReadsFirstFinish(s);
    } else if s.pc.Writing? || s.pc.PollMake? {
      ReadsFirstWrite(s);
    } else {
      ReadsFirstOther(s);
    }
  }

  lemma ReadsFirstFinish(s: State)
    requires OnTheWay(s) && s.pc.Finishing?
    ensures Rank(Step(s, Way(s))) >= 3
  {}

  lemma ReadsFirstWrite(s: State)
    requires OnTheWay(s) && (s.pc.Writing? || s.pc.PollMake?)
    ensures Rank(Step(s, Way(s))) >= 3
  {}

  lemma ReadsFirstOther(s: State)
    requires OnTheWay(s) && Rank(s) > 3 && !s.pc.Finishing? && !s.pc.Writing? && !s.pc.PollMake?
    ensures Rank(Step(s, Way(s))) >= 3
  {}

  lemma AwaitingStep(s: State, c: Command)
    requires Going(s, c) && Awaiting(s) && Rank(s) > 3
    ensures Awaiting(Step(s, Way(s))) && Rank(Step(s, Way(s))) >= 3
  {
    OnwardStep(s, c);
    NotWriting(s);
    ReadsFirst(s);
    if s.pc.Writing? && s.pc.job.Ask? {
      WrittenArrives(s);
    }
  }

  lemma {:induction false} AwaitCan(can: State -> bool, s: State, c: Command)
    requires Backward(can) && BackWaiting(can, c) && Going(s, c) && Awaiting(s) && Rank(s) >= 3
    ensures can(s)
    decreases Rank(s), |s.hand|
  {
    if s.pc == Reading {
      AnswerCan(can, s, c);
    } else {
      AwaitingStep(s, c);
      OnwardStep(s, c);
      AwaitCan(can, Step(s, Way(s)), c);
      OneEarlier(can, s, Way(s), c);
    }
  }

  /** Past the reads it takes another pass, and so another command ahead. */
  lemma PopThenAwaits(s: State, c: Command)
    requires Going(s, c) && s.pc == Popping && Awaiting(s) && BehindTwo(CommandsOf(s), c)
    ensures var t := Step(s, Io(Fine)); Going(t, c) && Awaiting(t) && Rank(t) >= 3 && Spared(GlanceOf(s, Io(Fine)), c)
  {
    PopsAnother(s, c);
    var q := CommandsOf(s);
    assert q[1..][1..] == q[2..];
  }

  lemma PastReadingCan(can: State -> bool, s: State, c: Command)
    requires Backward(can) && BackWaiting(can, c) && Going(s, c) && Awaiting(s) && PastReading(s.pc)
    requires BehindTwo(CommandsOf(s), c)
    ensures can(s)
  {
    forall t | NextPop(s, t, c)
      ensures can(t)
    {
      PopThenAwaits(t, c);
      AwaitCan(can, Step(t, Io(Fine)), c);
      OneEarlier(can, t, Io(Fine), c);
    }
    AtTheNextPop(can, s, c);
  }

  lemma BlockedIsClear(s: State, k: nat)
    requires ControlInv(s) && CanPass(s) && Blocked(s) && Yields(s, k) && PollLaws.PickedDue(s)
    ensures Mild(Flight(s), s) && ClearWay(s)
  {}

  lemma NotPastReading(s: State)
    requires OnTheWay(s) && !PastReading(s.pc)
    ensures Rank(s) >= 3
  {}

  lemma FlightIsFit(s: State)
    requires RequestInv(s) && Flight(s).Some?
    ensures Fit(Flight(s).value)
  {
    var p := PlacesOf(s);
    assert Flight(s).value in p.held || Flight(s).value in p.flying;
  }

  lemma YieldsAwaits(s: State, k: nat)
    requires Reachable(s) && Grave(s) && Yields(s, k)
    ensures Awaiting(s)
  {
    UnsentReachable(s);
    FlightIsFit(s);
    if s.pc.Writing? && s.pc.job.Ask? {
      assert Unwritten(s.pc) == [s.pc.job.request] && Unwritten(s.pc)[0] == s.pc.job.request;
    }
  }

  lemma OvertakingCan(can: State -> bool, s: State, k: nat)
    requires Reachable(s) && Sane(s.cfg) && 0 < k < |CommandsOf(s)| && CanPass(s) && Yields(s, k) && Blocked(s)
    requires Backward(can) && BackWaiting(can, CommandsOf(s)[k])
    ensures can(s)
  {
    var c := CommandsOf(s)[k];
    ControlReachable(s);
    PollLaws.PickedDueReachable(s);
    QueueReachable(s);
    BlockedIsClear(s, k);
    PassIsReady(s, k);
    IndexBehind(CommandsOf(s), k);
    if Grave(s) {
      YieldsAwaits(s, k);
    }
    forall t | Going(t, c) && Refreshed(s, t, c)
      ensures can(t)
    {
      RefreshedCan(can, s, t, c);
    }
    FromHere(can, s, c);
  }

  lemma RefreshedCan(can: State -> bool, s: State, t: State, c: Command)
    requires Backward(can) && BackWaiting(can, c) && Going(t, c) && Refreshed(s, t, c)
    requires Grave(s) ==> Awaiting(s)
    requires Grave(s) && PastReading(s.pc) ==> BehindTwo(CommandsOf(s), c)
    ensures can(t)
  {
    if !Grave(t) {
      MildCan(can, t, c);
    } else if PastReading(t.pc) {
      PastReadingCan(can, t, c);
    } else {
      NotPastReading(t);
      AwaitCan(can, t, c);
    }
  }

  // ---- Where nothing overtakes ------------------------------------------------------------

  /** The request in flight will not be answered any more before the transport stops. */
  ghost predicate Doomed(s: State) {
    Grave(s) &&
    var r := Flight(s).value;
    !Replied(s, r.expected) || (!InWindow(s.pc) && r.deadline <= s.now)
  }

  predicate AtHead(s: State, c: Command) {
    CommandsOf(s) != [] && CommandsOf(s)[0] == c
  }

  /** The answer will be read only after the next pop, and then `c` is at the head. */
  predicate TooLate(s: State, c: Command) {
    Grave(s) && PastReading(s.pc) && |CommandsOf(s)| > 1 && CommandsOf(s)[1] == c
  }

  /** No request can be started now, and none will be as long as `c` waits. */
  ghost predicate Jam(s: State, c: Command) {
    RequestInv(s) && c in CommandsOf(s) && Blocked(s) && Hopeless(s, c)
  }

  ghost predicate Hopeless(s: State, c: Command) {
    || Leaving(s.pc) || !Unstuck(s.pc) || !s.sched.running || Doomed(s)
    || AtHead(s, c) || TooLate(s, c)
  }

  lemma SilentDelivers(d: Device, t: Device, p: Packet, id: Byte)
    requires !Answerable(d, id) && !Carries(p, id)
    requires t.arrived == d.arrived && d.served <= t.served && t.channel == d.channel + [p]
    ensures !Answerable(t, id)
  {
    assert forall y :: CanSend(t, y, id) ==> CanSend(d, y, id);
  }

  lemma SilentDrops(d: Device, k: nat, id: Byte)
    requires !Answerable(d, id) && k < |d.channel|
    ensures !Answerable(d.(channel := d.channel[..k] + d.channel[k + 1..]), id)
  {
    var t := d.(channel := d.channel[..k] + d.channel[k + 1..]);
    assert forall y :: CanSend(t, y, id) ==> CanSend(d, y, id);
    assert forall i :: 0 <= i < |t.channel| ==> t.channel[i] == d.channel[if i < k then i else i + 1];
  }

  lemma DeviceStaysSilent(s: State, e: Event, id: Byte)
    requires !Answerable(s.device, id) && FromDevice(e) && IsManagement(id)
    ensures !Answerable(Act(s, e).device, id)
  {
    var d := s.device;
    if Act(s, e).device != d {
      match e
      case DeviceReplies(y, payload) =>
        assert !CanSend(d, y, id);
        SilentDelivers(d, Act(s, e).device, Packet(payload, ReplyTo(y)), id);
      case DeviceReports(y, payload) =>
        assert !CanSend(d, y, id);
        SilentDelivers(d, Act(s, e).device, Packet(payload, Unsolicited(y)), id);
      case DeviceNoise(payload) =>
        SilentDelivers(d, Act(s, e).device, Packet(payload, Noise), id);
      case ChannelDrops(k) =>
        SilentDrops(d, k, id);
    }
  }

  lemma CallerLeavesFlight(s: State, e: Event)
    requires !e.Io? && !Leaving(s.pc)
    ensures var t := Step(s, e);
            t.pc == s.pc && Flight(t) == Flight(s) && t.sched.inFlight == s.sched.inFlight && t.now >= s.now
  {}

  lemma DoomedCaller(s: State, e: Event)
    requires Doomed(s) && Fit(Flight(s).value) && !e.Io? && !Leaving(s.pc)
    ensures Doomed(Step(s, e))
  {
    CallerLeavesFlight(s, e);
    if FromDevice(e) {
      if !Replied(s, Flight(s).value.expected) {
        DeviceStaysSilent(s, e, Flight(s).value.expected);
      }
      LogIsNotDevice(s, e);
    } else {
      DeviceUntouched(s, e);
    }
  }

  lemma SilentShrinks(d: Device, t: Device, id: Byte)
    requires !Answerable(d, id) && t.arrived == d.arrived && t.served == d.served
    requires t.channel == d.channel || (d.channel != [] && t.channel == d.channel[1..])
    ensures !Answerable(t, id)
  {
    assert forall y :: CanSend(t, y, id) ==> CanSend(d, y, id);
    if t.channel != d.channel {
      assert forall i :: 0 <= i < |t.channel| ==> t.channel[i] == d.channel[i + 1];
    }
  }

  /** What is grave stays in flight, unless it is answered or the transport stops. */
  lemma GravePlain(s: State, e: Event)
    requires ControlInv(s) && Grave(s) && e.Io? && Plain(s.pc) && !Leaving(s.pc)
    ensures var t := Step(s, e);
            || Leaving(t.pc)
            || (Flight(t) == Flight(s) && !(t.pc.Writing? && t.pc.job.Ask?) && (InWindow(t.pc) ==> InWindow(s.pc)))
  {}

  lemma GraveFinish(s: State, e: Event)
    requires ControlInv(s) && Grave(s) && e.Io? && s.pc.Finishing? && !Leaving(s.pc)
    ensures var t := Step(s, e);
            || Leaving(t.pc)
            || (Flight(t) == Flight(s) && !(t.pc.Writing? && t.pc.job.Ask?) && (InWindow(t.pc) ==> InWindow(s.pc)))
  {}

  lemma GraveWrite(s: State, e: Event)
    requires ControlInv(s) && Grave(s) && e.Io? && s.pc.Writing?
    ensures var t := Step(s, e);
            || Leaving(t.pc)
            || (Flight(t) == Flight(s) && (t.pc.Writing? && t.pc.job.Ask? ==> s.pc.job.Ask?) && !InWindow(t.pc))
  {}

  lemma GraveSweep(s: State, e: Event)
    requires ControlInv(s) && Grave(s) && e.Io? && s.pc.Sweep?
    ensures var t := Step(s, e);
            || Leaving(t.pc)
            || (Flight(t) == Flight(s) && !(t.pc.Writing? && t.pc.job.Ask?) && Flight(s).value.deadline > s.now)
  {}

  lemma GraveRead(s: State, e: Event)
    requires ControlInv(s) && Grave(s) && e.Io? && s.pc == Reading && !Answerable(s.device, Flight(s).value.expected)
    ensures var t := Step(s, e); Flight(t) == Flight(s) && !(t.pc.Writing? && t.pc.job.Ask?)
  {
    assert s.device.channel != [] ==> !Carries(s.device.channel[0], Flight(s).value.expected);
  }

  lemma GraveSchedules(s: State, e: Event)
    requires ControlInv(s) && Grave(s) && e.Io? && Schedules(s.pc)
    ensures var t := Step(s, e);
            Flight(t) == Flight(s) && !(t.pc.Writing? && t.pc.job.Ask?) && !InWindow(t.pc)
  {}

  lemma GraveExpectsNoQuery(s: State)
    requires ControlInv(s) && Grave(s) && !Leaving(s.pc)
    ensures !s.pc.QueryTake? && !s.pc.PollMake? && !s.pc.PollSelect?
  {}

  lemma ClockStands(s: State, e: Event)
    requires e.Io?
    ensures Step(s, e).now == s.now
  {}

  lemma DoomedIo(s: State, e: Event)
    requires ControlInv(s) && Doomed(s) && e.Io? && !Leaving(s.pc)
    ensures Doomed(Step(s, e)) || Leaving(Step(s, e).pc)
  {
    var t, id := Step(s, e), Flight(s).value.expected;
    GraveExpectsNoQuery(s);
    ClockStands(s, e);
    DeviceChanges(s, e);
    ChannelChanges(s, e);
    if !Replied(s, id) {
      SilentShrinks(s.device, t.device, id);
    }
    if Plain(s.pc) {
      GravePlain(s, e);
    } else if s.pc.Finishing? {
      GraveFinish(s, e);
    } else if s.pc.Writing? {
      GraveWrite(s, e);
    } else if s.pc.Sweep? {
      GraveSweep(s, e);
    } else if s.pc == Reading {
      GraveRead(s, e);
    } else {
      GraveSchedules(s, e);
    }
  }

  lemma TooLateCaller(s: State, e: Event, c: Command)
    requires TooLate(s, c) && !e.Io? && Spared(GlanceOf(s, e), c)
    ensures TooLate(Step(s, e), c) || AtHead(Step(s, e), c)
  {
    var q := CommandsOf(s);
    CallerLeavesFlight(s, e);
    MovesStep(s, e);
    if MoveOf(s, e).Push? {
      var d := MoveOf(s, e).command;
      HeadKept(q[1..], d);
      if !SameId(q[0], d) {
        HeadKept(q, d);
      }
    }
  }

  lemma TooLateIo(s: State, e: Event, c: Command)
    requires TooLate(s, c) && e.Io? && Spared(GlanceOf(s, e), c)
    ensures TooLate(Step(s, e), c) || AtHead(Step(s, e), c)
  {}

  lemma PopStaysBlocked(s: State, e: Event)
    requires e.Io? && s.pc == Popping && CommandsOf(s) != [] && (!s.sched.running || Grave(s))
    ensures !StartsRequest(s, e) && Blocked(Step(s, e))
  {}

  lemma JamBlocks(s: State, e: Event, c: Command)
    requires Jam(s, c) && Spared(GlanceOf(s, e), c)
    ensures !StartsRequest(s, e) && Blocked(Step(s, e))
  {
    if MoveOf(s, e).Pop? {
      PopStaysBlocked(s, e);
    } else {
      BlockedStep(s, e);
    }
  }

  lemma DoomedStep(s: State, e: Event)
    requires RequestInv(s) && Doomed(s) && !Leaving(s.pc)
    ensures Doomed(Step(s, e)) || Leaving(Step(s, e).pc)
  {
    FlightIsFit(s);
    if e.Io? {
      DoomedIo(s, e);
    } else {
      DoomedCaller(s, e);
    }
  }

  lemma HopelessStep(s: State, e: Event, c: Command)
    requires RequestInv(s) && c in CommandsOf(s) && Hopeless(s, c) && Spared(GlanceOf(s, e), c)
    ensures Hopeless(Step(s, e), c)
  {
    if Leaving(s.pc) {
      LeavingStays(s, e, c);
    } else if !Unstuck(s.pc) {
      StuckLeaves(s, e);
    } else if !s.sched.running {
      StoppedStays(s, e, c);
    } else if Doomed(s) {
      DoomedStep(s, e);
    } else if AtHead(s, c) {
      HeadStays(s, e, c);
    } else if e.Io? {
      TooLateIo(s, e, c);
    } else {
      TooLateCaller(s, e, c);
    }
  }

  lemma JamStep(s: State, e: Event, c: Command)
    requires Jam(s, c) && Spared(GlanceOf(s, e), c)
    ensures !StartsRequest(s, e) && Jam(Step(s, e), c)
  {
    RequestStep(s, e);
    StaysQueued(s, e, c);
    JamBlocks(s, e, c);
    HopelessStep(s, e, c);
  }

  // ---- Theorem ----------------------------------------------------------------------------

  /** The exact condition: a poll or query can go out while the command at index k waits if and only if
      the present pass can still start one, or the command is behind another one, the I/O loop goes on
      and what is in flight can be out of the way in time. */
  lemma OvertakenExactlyWhen(s: State, k: nat)
    requires Reachable(s) && Sane(s.cfg) && k < |CommandsOf(s)|
    ensures CanStart(s) || (k > 0 && CanPass(s) && Yields(s, k)) <==>
            exists events :: Waits(s, events, CommandsOf(s)[k]) && Starts(s, events) > 0
  {
    var c := CommandsOf(s)[k];
    QueueReachable(s);
    WaitingCan(StartsRequest, c, s);
    if CanStart(s) || (k > 0 && CanPass(s) && Yields(s, k)) {
      IsOvertaken(s, k);
    } else {
      IsNotOvertaken(s, k);
    }
  }

  lemma NotYieldedIsHopeless(s: State, k: nat)
    requires k < |CommandsOf(s)| && !(k > 0 && CanPass(s) && Yields(s, k))
    ensures Hopeless(s, CommandsOf(s)[k])
  {}

  lemma IsNotOvertaken(s: State, k: nat)
    requires Reachable(s) && k < |CommandsOf(s)| && !CanStart(s) && !(k > 0 && CanPass(s) && Yields(s, k))
    ensures !Can(StartsRequest, CommandsOf(s)[k], s)
  {
    var c := CommandsOf(s)[k];
    RequestReachable(s);
    NotYieldedIsHopeless(s, k);
    forall t, e | Jam(t, c) && Spared(GlanceOf(t, e), c)
      ensures !StartsRequest(t, e) && Jam(Step(t, e), c)
    {
      JamStep(t, e, c);
    }
    JammedCannot(StartsRequest, c, (t: State) => Jam(t, c), s);
  }

  lemma IsOvertaken(s: State, k: nat)
    requires Reachable(s) && Sane(s.cfg) && k < |CommandsOf(s)|
    requires CanStart(s) || (k > 0 && CanPass(s) && Yields(s, k))
    ensures Can(StartsRequest, CommandsOf(s)[k], s)
  {
    var c := CommandsOf(s)[k];
    var can := (t: State) => Can(StartsRequest, c, t);
    forall t, e | Spared(GlanceOf(t, e), c) && (StartsRequest(t, e) || can(Step(t, e)))
      ensures can(t)
    {
      CanEarlier(StartsRequest, c, t, e);
    }
    if CanStart(s) {
      CanStartCan(can, s);
    } else {
      OvertakingCan(can, s, k);
    }
  }
}
