/**
 The client as a step machine. Caller threads, the I/O thread and the device take turns; a step
 is one region under the scheduler lock, one atomic load or store, one system call, or one
 completion callback. `Step` is total: an event that cannot happen leaves the state alone, so a
 run is any sequence of events from the initial state.

 The state carries its `past`, which the code does not have and which no step reads, except to name
 things.
 */
module Client {
  import opened Checksums
  import opened Framing
  import opened Wrappers
  import opened Scheduling
  import opened Runs

  // ---- Management operations --------------------------------------------------------------

  const SET_MOTOR_CONFIG: Byte := 13
  const GET_MOTOR_CONFIG: Byte := 14
  const SET_APP_CONFIG: Byte := 16
  const GET_APP_CONFIG: Byte := 17
  const DETECT_FOC: Byte := 58
  const LISP_READ: Byte := 130
  const LISP_WRITE: Byte := 131
  const LISP_ERASE: Byte := 132
  const LISP_RUN: Byte := 133
  const SET_APP_CONFIG_NO_STORE: Byte := 149

  predicate IsManagement(id: Byte) {
    || IsConfigWrite(id) || id == GET_MOTOR_CONFIG || id == GET_APP_CONFIG || id == DETECT_FOC
    || id == LISP_READ || id == LISP_WRITE || id == LISP_ERASE || id == LISP_RUN
  }

  predicate IsConfigWrite(id: Byte) {
    id == SET_MOTOR_CONFIG || id == SET_APP_CONFIG || id == SET_APP_CONFIG_NO_STORE
  }

  /** The read that a configuration write performs first. */
  function ReadIdFor(id: Byte): Byte {
    if id == SET_MOTOR_CONFIG then GET_MOTOR_CONFIG else GET_APP_CONFIG
  }

  /** A public management operation: a configuration write, or any other sequence of requests. */
  datatype Script = WriteConfig(setId: Byte, image: Payload) | Other

  datatype Phase = Ready | Waiting(id: nat) | Over

  datatype Management = Free | Busy(op: nat, script: Script, verified: bool, phase: Phase)

  predicate SameSignature(lhs: Payload, rhs: Payload) {
    |lhs| >= 4 && |rhs| >= 4 && lhs[..4] == rhs[..4]
  }

  /** A payload that parses as a configuration image of the given kind. */
  predicate IsConfigImage(payload: Payload, id: Byte) {
    5 <= |payload| <= MAX_PAYLOAD && payload[0] == id
  }

  /** The payload the operation sends next; `free` is its choice where the script leaves one. */
  function NextBody(m: Management, free: Payload): Payload
    requires m.Busy?
  {
    match m.script
    case WriteConfig(setId, image) =>
      if !IsConfigWrite(setId) then [] else if m.verified then [setId] + image else [ReadIdFor(setId)]
    case Other =>
      if free != [] && IsManagement(free[0]) && !IsConfigWrite(free[0]) then free else []
  }

  // ---- Device -----------------------------------------------------------------------------

  datatype Origin = ReplyTo(id: nat) | Unsolicited(id: nat) | Noise

  datatype Packet = Packet(payload: Payload, origin: Origin)

  /** Management requests received in full, on any connection, with their command IDs; those
      answered; and the channel back to the client, which outlives a connection. */
  datatype Device = Device(arrived: map<nat, Byte>, served: set<nat>, channel: seq<Packet>)

  /** Every request has been answered and only noise is on its way. */
  predicate Settled(d: Device) {
    d.arrived.Keys <= d.served && forall i :: 0 <= i < |d.channel| ==> d.channel[i].origin.Noise?
  }

  // ---- History ----------------------------------------------------------------------------

  datatype Outcome = NoReply | Reply(packet: Packet)

  /** `safe` says whether the line was safe when the connection in question was made. */
  datatype Completion = Completion(request: Request, outcome: Outcome, safe: bool)

  /** One write() call: bytes `from..to` of the frame of `body`. */
  datatype Chunk = Chunk(body: Payload, from: nat, to: nat)

  datatype Entry =
    | Connected
    | Accepted(body: Payload, refresh: bool, at: int)
    | Fired(cause: nat, at: int)
    | CommandOut(ticket: nat)
    | IntervalSet(source: Source)
    | Rescheduled(imu: bool, motor: bool)
    | Polled(source: Source, at: int, interval: int, otherWaiting: bool)
    | RequestOut(request: Request)
    | Done(completion: Completion)

  // ---- I/O thread -------------------------------------------------------------------------

  datatype Job = SafeStop(fired: nat) | Queued(ticket: nat) | Ask(request: Request)

  datatype After =
    | ToSelect | ToCheck | ToRead | ToTop | ToSend(request: Request)
    | ToHalt | ToClear | ToStopped | ToStart

  datatype Pc =
    | Stopped
    | Starting
    | LoopTop
    | Reschedule
    | Sweep(second: bool)
    | StopFlag
    | Finishing(after: After)
    | Selecting
    | Reading
    | WatchdogCheck
    | WatchdogLock(stamp: int)
    | Popping
    | Writing(body: Payload, done: nat, job: Job)
    | Installing(request: Request)
    | Halting
    | CheckInFlight
    | PollSelect(stamp: int)
    | PollMake(source: Source, stamp: int)
    | QueryTake(stamp: int)
    | Clearing

  /** History. `sent` are the payloads written in full on this connection, `jobs` what for. */
  datatype Past = Past(
    safe: bool,
    issued: seq<Request>,
    completions: seq<Completion>,
    log: seq<Entry>,
    chunks: seq<Chunk>,
    sent: seq<Payload>,
    jobs: seq<Job>)

  datatype State = State(
    cfg: Config,
    now: int,
    sched: Sched,
    pc: Pc,
    hand: seq<Request>,
    verdict: Outcome,
    management: Management,
    nextOp: nat,
    device: Device,
    past: Past)

  function Init(cfg: Config, imuInterval: nat, motorInterval: nat, now: int): State {
    State(
      cfg, now,
      Sched(false, [], [], None, None, Channel(imuInterval, false, now), Channel(motorInterval, false, now)),
      Stopped, [], NoReply, Free, 1, Device(map[], {}, []), Past(true, [], [], [], [], [], []))
  }

  /** What a system call came back with. */
  datatype Result = Fine | Moved(bytes: nat) | Interrupted | Broken

  datatype Event =
    | Tick(dt: nat)
    | Control(body: Payload, refresh: bool)
    | AskVersion(deadline: int)
    | SetInterval(source: Source, interval: int)
    | Connect
    | Disconnect
    | Lock(script: Script)
    | Request(free: Payload, deadline: int)
    | Wake(k: nat)
    | Unlock
    | DeviceReplies(id: nat, payload: Payload)
    | DeviceReports(id: nat, payload: Payload)
    | DeviceNoise(payload: Payload)
    | ChannelDrops(k: nat)
    | Io(result: Result)

  // ---- Caller threads ---------------------------------------------------------------------

  function OnControl(s: State, body: Payload, refresh: bool): State {
    if !Accepts(s.sched, body) then s
    else
      s.(sched := Accept(s.cfg, s.sched, Command(body, |s.past.log|), refresh, s.now))
  }

  /** The end of `request_payload`'s locked region; the caller then waits for its completion. */
  function Submit(s: State, r: Scheduling.Request): State {
    s.(sched := s.sched.(requests := s.sched.requests + [r]), past := s.past.(issued := s.past.issued + [r]))
  }

  /** The deadline is compared with the clock before the lock is taken, so it may have passed by now. */
  predicate CanSubmit(s: State, body: Payload) {
    ValidPayload(body) && s.sched.running
  }

  function OnAskVersion(s: State, deadline: int): State {
    if !CanSubmit(s, [FW_VERSION]) then s
    else Submit(s, Scheduling.Request(Query, |s.past.issued|, 0, FW_VERSION, [FW_VERSION], deadline, false))
  }

  function OnSetInterval(s: State, k: Source, interval: int): State {
    var c := ChannelOf(s.sched, k);
    s.(sched := WithChannel(s.sched, k, c.(interval := if interval > 0 then interval else 0, reschedule := true)))
  }

  function OnConnect(s: State): State {
    if s.pc != Stopped || s.sched.running then s
    else s.(pc := Finishing(ToStart), hand := Pending(s.sched), verdict := NoReply, sched := Cleared(s.sched))
  }

  function OnDisconnect(s: State): State {
    s.(sched := s.sched.(running := false), pc := if s.pc == Stopped then Clearing else s.pc)
  }

  function OnLock(s: State, script: Script): State {
    if !s.management.Free? then s
    else s.(management := Busy(s.nextOp, script, false, Ready), nextOp := s.nextOp + 1)
  }

  function OnRequest(s: State, free: Payload, deadline: int): State {
    if !s.management.Busy? || !s.management.phase.Ready? then s
    else
      var m := s.management;
      var body := NextBody(m, free);
      if !CanSubmit(s, body) then s.(management := m.(phase := Over))
      else
        var r := Scheduling.Request(Query, |s.past.issued|, m.op, body[0], body, deadline, true);
        Submit(s, r).(management := m.(phase := Waiting(r.id)))
  }

  /** What the operation makes of the outcome of its request. */
  function Judge(m: Management, outcome: Outcome): Management
    requires m.Busy?
  {
    if outcome.NoReply? then m.(phase := Over)
    else
      match m.script
      case Other => m.(phase := Ready)
      case WriteConfig(setId, image) =>
        var p := outcome.packet.payload;
        if !m.verified && IsConfigImage(p, ReadIdFor(setId)) && SameSignature(image, p[1..])
        then m.(verified := true, phase := Ready)
        else m.(phase := Over)
  }

  /** The next request of the operation is its configuration write. */
  predicate AtWrite(m: Management) {
    m.Busy? && m.script.WriteConfig? && m.verified && m.phase.Ready?
  }

  /** The operation waits for this completion, and will go on to its write. */
  predicate WakesTo(m: Management, c: Completion) {
    m.Busy? && m.phase.Waiting? && c.request.id == m.phase.id && AtWrite(Judge(m, c.outcome))
  }

  /** The holder of the lock can make a configuration write `id` without another read. */
  predicate MayWrite(s: State, id: Byte) {
    var m := s.management;
    && m.Busy? && m.script.WriteConfig? && m.script.setId == id && ValidPayload([id] + m.script.image)
    && (AtWrite(m) || exists k :: 0 <= k < |s.past.completions| && WakesTo(m, s.past.completions[k]))
  }

  /** Nothing on the line can be taken for a reply to a request yet to be made: every request has been
      answered, and besides noise there are only acknowledgements of configuration writes that will
      have been read before such a write is made again. */
  predicate Safe(s: State) {
    && s.device.arrived.Keys <= s.device.served
    && forall i :: 0 <= i < |s.device.channel| ==> Harmless(s, s.device.channel[i])
  }

  predicate Harmless(s: State, p: Packet) {
    p.origin.Noise? || (p.payload != [] && IsConfigWrite(p.payload[0]) && !MayWrite(s, p.payload[0]))
  }

  function OnWake(s: State, k: nat): State {
    if s.management.Busy? && s.management.phase.Waiting? && k < |s.past.completions|
       && s.past.completions[k].request.id == s.management.phase.id
    then s.(management := Judge(s.management, s.past.completions[k].outcome))
    else s
  }

  function OnUnlock(s: State): State {
    if s.management.Busy? && !s.management.phase.Waiting? then s.(management := Free) else s
  }

  // ---- Device -----------------------------------------------------------------------------

  function Deliver(s: State, p: Packet): State {
    s.(device := s.device.(channel := s.device.channel + [p]))
  }

  /** At most one reply per request, carrying the request's command ID. */
  function OnDeviceReplies(s: State, id: nat, payload: Payload): State {
    if id in s.device.arrived && id !in s.device.served && payload != [] && payload[0] == s.device.arrived[id]
    then Deliver(s.(device := s.device.(served := s.device.served + {id})), Packet(payload, ReplyTo(id)))
    else s
  }

  /** Calibration reports configurations before its result. */
  function OnDeviceReports(s: State, id: nat, payload: Payload): State {
    if id in s.device.arrived && id !in s.device.served && s.device.arrived[id] == DETECT_FOC
       && payload != [] && (payload[0] == GET_MOTOR_CONFIG || payload[0] == GET_APP_CONFIG)
    then Deliver(s, Packet(payload, Unsolicited(id)))
    else s
  }

  function OnDeviceNoise(s: State, payload: Payload): State {
    if payload != [] && !IsManagement(payload[0]) then Deliver(s, Packet(payload, Noise)) else s
  }

  function OnChannelDrops(s: State, k: nat): State {
    var c := s.device.channel;
    if k < |c| then s.(device := s.device.(channel := c[..k] + c[k + 1..])) else s
  }

  // ---- I/O thread -------------------------------------------------------------------------

  function Take(s: State, hand: seq<Scheduling.Request>, verdict: Outcome, after: After): State {
    s.(hand := hand, verdict := verdict, pc := Finishing(after))
  }

  function IoReschedule(s: State): State {
    var imu, motor := s.sched.imu, s.sched.motor;
    s.(pc := Sweep(false),
       sched := s.sched.(
         imu := if imu.reschedule then imu.(reschedule := false, nextDue := s.now) else imu,
         motor := if motor.reschedule then motor.(reschedule := false, nextDue := s.now) else motor))
  }

  function IoSweep(s: State, second: bool): State {
    var t := s.(sched := AfterSweep(s.sched, s.now), hand := Swept(s.sched, s.now), verdict := NoReply);
    if SweepStops(s.sched, s.now) then t.(pc := StopFlag)
    else t.(pc := Finishing(if second then ToCheck else ToSelect))
  }

  function Continue(s: State, after: After): State {
    match after
    case ToSelect => s.(pc := Selecting)
    case ToCheck => s.(pc := CheckInFlight)
    case ToRead => s.(pc := Reading)
    case ToTop => s.(pc := LoopTop)
    case ToSend(r) => s.(pc := Writing(r.body, 0, Ask(r)))
    case ToHalt => s.(pc := Halting)
    case ToClear => s.(pc := Clearing)
    case ToStopped => s.(pc := Stopped)
    case ToStart =>
      s.(pc := Starting,
         sched := s.sched.(running := true, imu := s.sched.imu.(nextDue := s.now),
             motor := s.sched.motor.(nextDue := s.now)),
         past := s.past.(safe := Safe(s), chunks := [], sent := [], jobs := []))
  }

  /** One callback: a query's caller learns the verdict; a poll has no caller. */
  function IoFinish(s: State, after: After): State {
    if s.hand == [] then Continue(s, after)
    else
      var r := s.hand[0];
      var t := s.(hand := s.hand[1..]);
      if !r.purpose.Query? then t
      else t.(past := s.past.(completions := s.past.completions + [Completion(r, s.verdict, s.past.safe)]))
  }

  function IoRead(s: State, result: Result): State {
    if result.Broken? then s.(sched := s.sched.(running := false), pc := WatchdogCheck)
    else if result.Moved? && s.device.channel != [] then
      var p := s.device.channel[0];
      var t := s.(device := s.device.(channel := s.device.channel[1..]));
      if Matches(s.sched, p.payload)
      then Take(t.(sched := s.sched.(inFlight := None)), [s.sched.inFlight.value], Reply(p), ToRead)
      else t
    else if result.Interrupted? then s
    else s.(pc := WatchdogCheck)
  }

  function IoWatchdogLock(s: State, stamp: int): State {
    if !WatchdogDue(s.sched, stamp) then s.(pc := Popping)
    else s.(pc := Writing(s.cfg.safeStop, 0, SafeStop(|s.past.log|)), sched := Fire(s.sched))
  }

  function IoPop(s: State): State {
    if s.sched.commands == [] then s.(pc := Sweep(true))
    else
      var c := s.sched.commands[0];
      s.(pc := Writing(c.body, 0, Queued(c.ticket)), sched := s.sched.(commands := s.sched.commands[1..]))
  }

  function FrameSize(body: Payload): nat {
    if !ValidPayload(body) then 0 else if |body| <= 255 then |body| + 5 else |body| + 6
  }

  /** `write_packet` gave up: the callback of a query still runs, then the transport stops. */
  function WriteFailed(s: State, job: Job): State {
    if job.Ask? then Take(s, [job.request], NoReply, ToHalt) else s.(pc := Halting)
  }

  function WriteDone(s: State, body: Payload, job: Job): State {
    var t := s.(past := s.past.(sent := s.past.sent + [body], jobs := s.past.jobs + [job]));
    match job
    case SafeStop(_) => t.(pc := LoopTop)
    case Queued(_) => t.(pc := Sweep(true))
    case Ask(r) =>
      t.(pc := Installing(r),
         device := if r.op == 0 then s.device else s.device.(arrived := s.device.arrived[r.id := r.expected]))
  }

  function IoWrite(s: State, body: Payload, done: nat, job: Job, result: Result): State {
    var size := FrameSize(body);
    if !s.sched.running || size == 0 || result.Broken? || result == Moved(0) then WriteFailed(s, job)
    else if result.Moved? && done < size then
      var to := if done + result.bytes < size then done + result.bytes else size;
      var t := s.(past := s.past.(chunks := s.past.chunks + [Chunk(body, done, to)]), pc := Writing(body, to, job));
      if to == size then WriteDone(t, body, job) else t
    else s
  }

  function IoPollMake(s: State, k: Source, stamp: int): State {
    var c := ChannelOf(s.sched, k);
    if !Due(c, stamp) then s.(pc := Halting)
    else
      var r := PollRequest(s.cfg, k, stamp);
      s.(sched := AfterPoll(s.sched, k, stamp), pc := Writing(r.body, 0, Ask(r)))
  }

  function IoQueryTake(s: State, stamp: int): State {
    var after := if QueryReady(s.cfg, s.sched, stamp) then ToSend(Unexpired(s.sched.requests, stamp)[0]) else ToTop;
    Take(s.(sched := AfterTake(s.cfg, s.sched, stamp)), Expired(s.sched.requests, stamp), NoReply, after)
  }

  function IoStep(s: State, result: Result): State {
    match s.pc
    case Stopped => s
    case Starting => if result.Broken? then s.(sched := s.sched.(running := false), pc := Clearing)
        else s.(pc := LoopTop)
    case LoopTop => s.(pc := if s.sched.running then Reschedule else Clearing)
    case Reschedule => IoReschedule(s)
    case Sweep(second) => IoSweep(s, second)
    case StopFlag => s.(sched := s.sched.(running := false), pc := Finishing(ToClear))
    case Finishing(after) => IoFinish(s, after)
    case Selecting =>
      s.(pc := if result.Broken? then Halting else if result.Interrupted? then LoopTop
               else if result.Moved? then Reading else WatchdogCheck)
    case Reading => IoRead(s, result)
    case WatchdogCheck => s.(pc := if s.sched.running && s.cfg.watchdogEnabled then WatchdogLock(s.now) else Popping)
    case WatchdogLock(stamp) => IoWatchdogLock(s, stamp)
    case Popping => IoPop(s)
    case Writing(body, done, job) => IoWrite(s, body, done, job, result)
    case Installing(r) => s.(sched := s.sched.(inFlight := Some(r)), pc := LoopTop)
    case Halting => s.(sched := s.sched.(running := false), pc := Clearing)
    case CheckInFlight => s.(pc := if s.sched.inFlight.Some? then LoopTop else PollSelect(s.now))
    case PollSelect(stamp) =>
      var k := SelectPoll(s.sched, stamp);
      s.(pc := if k.Some? then PollMake(k.value, stamp) else QueryTake(stamp))
    case PollMake(k, stamp) => IoPollMake(s, k, stamp)
    case QueryTake(stamp) => IoQueryTake(s, stamp)
    case Clearing => Take(s.(sched := Cleared(s.sched)), Pending(s.sched), NoReply, ToStopped)
  }

  // ---- Runs -------------------------------------------------------------------------------

  /** What a step leaves in the log. */
  function Logged(s: State, e: Event): Option<Entry> {
    match e
    case Control(body, refresh) => if Accepts(s.sched, body) then Some(Accepted(body, refresh, s.now)) else None
    case SetInterval(k, _) => Some(IntervalSet(k))
    case Io(_) => LoggedIo(s)
    case _ => None
  }

  function LoggedIo(s: State): Option<Entry> {
    match s.pc
    case Reschedule =>
      if s.sched.imu.reschedule || s.sched.motor.reschedule
      then Some(Rescheduled(s.sched.imu.reschedule, s.sched.motor.reschedule)) else None
    case Finishing(after) =>
      if s.hand != [] then
        if s.hand[0].purpose.Query? then Some(Done(Completion(s.hand[0], s.verdict, s.past.safe))) else None
      else if after.ToSend? then Some(RequestOut(after.request))
      else if after.ToStart? then Some(Connected)
      else None
    case WatchdogLock(stamp) => if WatchdogDue(s.sched, stamp) then Some(Fired(s.sched.watchdog.value.ticket, stamp))
        else None
    case Popping => if s.sched.commands != [] then Some(CommandOut(s.sched.commands[0].ticket)) else None
    case PollMake(k, stamp) =>
      var c := ChannelOf(s.sched, k);
      if Due(c, stamp) then Some(Polled(k, stamp, c.interval, Due(ChannelOf(s.sched, Scheduling.Other(k)), stamp)))
          else None
    case _ => None
  }

  function Extend(log: seq<Entry>, entry: Option<Entry>): seq<Entry> {
    if entry.Some? then log + [entry.value] else log
  }

  function Step(s: State, e: Event): State {
    var t := Act(s, e);
    t.(past := t.past.(log := Extend(s.past.log, Logged(s, e))))
  }

  function Act(s: State, e: Event): State {
    match e
    case Tick(dt) => s.(now := s.now + dt)
    case Control(body, refresh) => OnControl(s, body, refresh)
    case AskVersion(deadline) => OnAskVersion(s, deadline)
    case SetInterval(k, interval) => OnSetInterval(s, k, interval)
    case Connect => OnConnect(s)
    case Disconnect => OnDisconnect(s)
    case Lock(script) => OnLock(s, script)
    case Request(free, deadline) => OnRequest(s, free, deadline)
    case Wake(k) => OnWake(s, k)
    case Unlock => OnUnlock(s)
    case DeviceReplies(id, payload) => OnDeviceReplies(s, id, payload)
    case DeviceReports(id, payload) => OnDeviceReports(s, id, payload)
    case DeviceNoise(payload) => OnDeviceNoise(s, payload)
    case ChannelDrops(k) => OnChannelDrops(s, k)
    case Io(result) => IoStep(s, result)
  }

  function Run(s: State, events: seq<Event>): State {
    AfterAll(Step, s, events)
  }

  /** The state of some run from some configuration. */
  ghost predicate Reachable(s: State) {
    exists cfg, imu: nat, motor: nat, now, events :: s == Run(Init(cfg, imu, motor, now), events)
  }

  /** What holds initially and is kept by every step holds after every run. */
  lemma ReachableKeeps(inv: State -> bool, s: State)
    requires Reachable(s)
    requires forall cfg, imu: nat, motor: nat, now :: inv(Init(cfg, imu, motor, now))
    requires forall t, e :: inv(t) ==> inv(Step(t, e))
    ensures inv(s)
  {
    var cfg, imu: nat, motor: nat, now, events :| s == Run(Init(cfg, imu, motor, now), events);
    Keeps(Step, inv, (e: Event) => true, Init(cfg, imu, motor, now), events);
  }

  lemma RunIsReachable(cfg: Config, imu: nat, motor: nat, now: int, events: seq<Event>)
    ensures Reachable(Run(Init(cfg, imu, motor, now), events))
  {}

  lemma ReachableStep(s: State, e: Event)
    requires Reachable(s)
    ensures Reachable(Step(s, e))
  {
    var cfg, imu: nat, motor: nat, now, events :| s == Run(Init(cfg, imu, motor, now), events);
    assert (events + [e])[..|events|] == events;
    RunIsReachable(cfg, imu, motor, now, events + [e]);
  }

  // ---- Control points ---------------------------------------------------------------------

  /** The I/O thread is on its way out: it reads and writes nothing more on this connection. */
  predicate Leaving(pc: Pc) {
    match pc
    case Stopped | StopFlag | Halting | Clearing => true
    case Finishing(after) => after.ToHalt? || after.ToClear? || after.ToStopped? || after.ToStart?
    case _ => false
  }

  /** The I/O thread works on the assumption that nothing is in flight. */
  predicate ExpectsIdle(pc: Pc) {
    match pc
    case PollSelect(_) | PollMake(_, _) | QueryTake(_) | Installing(_) => true
    case Writing(_, _, job) => job.Ask?
    case Finishing(after) => after.ToSend? || after.ToHalt? || after.ToStopped? || after.ToStart?
    case Stopped | Starting => true
    case _ => false
  }

  /** The final clear is done: nothing is pending and nothing can be submitted. */
  predicate ShutDown(pc: Pc) {
    pc == Stopped || pc == Finishing(ToStopped) || pc == Finishing(ToStart)
  }

  predicate ControlInv(s: State) {
    && (ExpectsIdle(s.pc) ==> s.sched.inFlight.None?)
    && (ShutDown(s.pc) ==>
          !s.sched.running && s.sched.commands == [] && s.sched.requests == [] && s.sched.watchdog.None?)
    && (s.pc == Clearing ==> !s.sched.running)
    && (s.pc == Finishing(ToClear) ==> !s.sched.running)
    && (s.pc.Finishing? || s.pc == StopFlag || s.hand == [])
    && (s.pc.Writing? && s.pc.job.Ask? ==> s.pc.job.request.body == s.pc.body)
  }

  /** Operations are numbered from 1 in the order they take the management lock. */
  predicate OpInv(s: State) {
    s.nextOp > 0 && (s.management.Busy? ==> 0 < s.management.op && s.management.op + 1 == s.nextOp)
  }

  /** Control points whose step touches no queue and no history. */
  predicate Plain(pc: Pc) {
    match pc
    case Stopped | Starting | LoopTop | StopFlag | Selecting | WatchdogCheck | Halting | CheckInFlight => true
    case Installing(_) | PollSelect(_) => true
    case _ => false
  }

  /** Control points whose step moves requests. */
  predicate Queues(pc: Pc) {
    pc.Sweep? || pc.Reading? || pc.QueryTake? || pc.Clearing?
  }

  /** Control points whose step moves commands or polls. */
  predicate Schedules(pc: Pc) {
    pc.Reschedule? || pc.WatchdogLock? || pc.Popping? || pc.PollMake?
  }

  lemma ControlLifecycle(s: State, e: Event)
    requires ControlInv(s) && (e.Connect? || e.Disconnect?)
    ensures ControlInv(Step(s, e))
  {}

  lemma ControlSubmits(s: State, e: Event)
    requires ControlInv(s) && (e.Control? || e.AskVersion? || e.Request?)
    ensures ControlInv(Step(s, e))
  {}

  lemma ControlCaller(s: State, e: Event)
    requires ControlInv(s) && !e.Io? && !e.Connect? && !e.Disconnect? && !e.Control? && !e.AskVersion? && !e.Request?
    ensures ControlInv(Step(s, e))
  {}

  lemma ControlPlain(s: State, result: Result)
    requires ControlInv(s) && Plain(s.pc)
    ensures ControlInv(IoStep(s, result))
  {}

  lemma ControlSweep(s: State, result: Result)
    requires ControlInv(s) && s.pc.Sweep?
    ensures ControlInv(IoStep(s, result))
  {}

  lemma ControlQueues(s: State, result: Result)
    requires ControlInv(s) && Queues(s.pc) && !s.pc.Sweep?
    ensures ControlInv(IoStep(s, result))
  {}

  lemma ControlSchedules(s: State, result: Result)
    requires ControlInv(s) && Schedules(s.pc)
    ensures ControlInv(IoStep(s, result))
  {}

  lemma ControlFinish(s: State, result: Result)
    requires ControlInv(s) && s.pc.Finishing?
    ensures ControlInv(IoStep(s, result))
  {}

  lemma ControlWrite(s: State, result: Result)
    requires ControlInv(s) && s.pc.Writing?
    ensures ControlInv(IoStep(s, result))
  {}

  lemma ControlStep(s: State, e: Event)
    requires ControlInv(s)
    ensures ControlInv(Step(s, e))
  {
    if e.Connect? || e.Disconnect? {
      ControlLifecycle(s, e);
    } else if e.Control? || e.AskVersion? || e.Request? {
      ControlSubmits(s, e);
    } else if !e.Io? {
      ControlCaller(s, e);
    } else if Plain(s.pc) {
      ControlPlain(s, e.result);
    } else if s.pc.Finishing? {
      ControlFinish(s, e.result);
    } else if s.pc.Writing? {
      ControlWrite(s, e.result);
    } else if s.pc.Sweep? {
      ControlSweep(s, e.result);
    } else if Queues(s.pc) {
      ControlQueues(s, e.result);
    } else {
      ControlSchedules(s, e.result);
    }
  }

  lemma InitControl(cfg: Config, imu: nat, motor: nat, now: int)
    ensures ControlInv(Init(cfg, imu, motor, now))
  {}

  lemma ControlReachable(s: State)
    requires Reachable(s)
    ensures ControlInv(s)
  {
    forall cfg, imu: nat, motor: nat, now
      ensures ControlInv(Init(cfg, imu, motor, now))
    {
      InitControl(cfg, imu, motor, now);
    }
    forall t, e | ControlInv(t)
      ensures ControlInv(Step(t, e))
    {
      ControlStep(t, e);
    }
    ReachableKeeps(ControlInv, s);
  }
}
