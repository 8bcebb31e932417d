/**
 Commands that wait behind others. `Waits` says that a command is still queued after some events and
 was neither replaced nor cleared; it means that every pop on the way took another command. A
 command behind another one can be made to wait through the next pop, from every state in which the
 I/O loop is running and not on its way out.
 */
module PassLaws {
  import opened Checksums
  import opened Framing
  import opened Wrappers
  import opened Scheduling
  import opened Client
  import opened Runs
  import opened ExactlyOnce
  import opened CommandLaws
  import opened PollLaws
  import WatchdogLaws
  import ControlCommands

  // ---- Waiting ----------------------------------------------------------------------------

  /** After the events `c` is still queued, and it was neither replaced nor cleared. */
  predicate Waits(s: State, events: seq<Event>, c: Command) {
    Spares(MovesOf(s, events), c) && c in CommandsOf(Run(s, events))
  }

  /** What a step does to the command queue, and the command at its head. */
  datatype Glance = Glance(move: Move, head: Option<Command>)

  function GlanceOf(s: State, e: Event): Glance {
    Glance(MoveOf(s, e), if CommandsOf(s) == [] then None else Some(CommandsOf(s)[0]))
  }

  /** The step leaves `c` where it is, or moves it up. */
  predicate Spared(g: Glance, c: Command) {
    match g.move
    case Keep => true
    case Push(d) => !SameId(c, d)
    case Pop => g.head != Some(c)
    case Clear => false
  }

  function SparedBy(c: Command): Glance -> bool {
    (g: Glance) => Spared(g, c)
  }

  lemma {:induction false} WithoutHas(q: seq<Command>, d: Command, c: Command)
    ensures c in Without(q, d) <==> c in q && !SameId(c, d)
  {
    if q != [] {
      WithoutHas(q[1..], d, c);
    }
  }

  lemma SparedStays(q: seq<Command>, g: Glance, c: Command)
    requires c in q && g.head == Some(q[0]) && Spared(g, c)
    ensures c in AfterMove(q, g.move)
  {
    if g.move.Push? {
      WithoutHas(q, g.move.command, c);
    }
  }

  /** Sparing every step of the way keeps the command waiting. */
  lemma {:induction false} SparedWaits(s: State, events: seq<Event>, c: Command)
    requires c in CommandsOf(s) && AllOf(SparedBy(c), Trace(Step, GlanceOf, s, events))
    ensures Waits(s, events, c)
    decreases |events|
  {
    if events != [] {
      var before, e := events[..|events| - 1], events[|events| - 1];
      var t := Run(s, before);
      LastOf(s, events);
      AllOfLast(SparedBy(c), Trace(Step, GlanceOf, s, before), GlanceOf(t, e));
      SparedWaits(s, before, c);
      SparesMore(MovesOf(s, before), GlanceOf(t, e), c);
      SparedStays(CommandsOf(t), GlanceOf(t, e), c);
      MovesStep(t, e);
    }
  }

  lemma SparesMore(moves: seq<Move>, g: Glance, c: Command)
    requires Spares(moves, c) && Spared(g, c)
    ensures Spares(moves + [g.move], c)
  {}

  /** The last step of a run and what is seen of it. */
  lemma LastOf(s: State, events: seq<Event>)
    requires events != []
    ensures var before, e := events[..|events| - 1], events[|events| - 1];
            && Run(s, events) == Step(Run(s, before), e)
            && MovesOf(s, events) == MovesOf(s, before) + [MoveOf(Run(s, before), e)]
            && Trace(Step, GlanceOf, s, events) == Trace(Step, GlanceOf, s, before) + [GlanceOf(Run(s, before), e)]
  {}

  lemma WasQueued(q: seq<Command>, m: Move, c: Command)
    requires c in AfterMove(q, m) && Spares([m], c) && c.body != []
    ensures c in q
  {
    assert [m][0] == m;
    if m.Push? {
      WithoutHas(q, m.command, c);
    }
  }

  lemma PoppedAnother(q: seq<Command>, c: Command)
    requires DistinctIds(q) && q != [] && c in q[1..]
    ensures q[0] != c
  {
    var i :| 0 <= i < |q[1..]| && q[1..][i] == c;
    assert q[i + 1] == c && !SameId(q[0], q[i + 1]);
  }

  /** A command that waits was spared by every step. */
  lemma {:induction false} WaitsSpared(s: State, events: seq<Event>, c: Command)
    requires QueueInv(s) && c.body != [] && Waits(s, events, c)
    ensures AllOf(SparedBy(c), Trace(Step, GlanceOf, s, events)) && c in CommandsOf(s)
    decreases |events|
  {
    if events != [] {
      var before, e := events[..|events| - 1], events[|events| - 1];
      LastOf(s, events);
      var t := Run(s, before);
      MovesStep(t, e);
      SparesParts(MovesOf(s, before), MoveOf(t, e), c);
      WasQueued(CommandsOf(t), MoveOf(t, e), c);
      WaitsSpared(s, before, c);
      QueueRun(s, before);
      LastSpared(t, e, c);
      AllOfLast(SparedBy(c), Trace(Step, GlanceOf, s, before), GlanceOf(t, e));
    }
  }

  lemma SparesParts(moves: seq<Move>, m: Move, c: Command)
    requires Spares(moves + [m], c)
    ensures Spares(moves, c) && Spares([m], c)
  {
    assert forall i :: 0 <= i < |moves| ==> (moves + [m])[i] == moves[i];
    assert (moves + [m])[|moves|] == m;
  }

  lemma LastSpared(t: State, e: Event, c: Command)
    requires QueueInv(t) && Spares([MoveOf(t, e)], c)
    requires c in CommandsOf(t) && c in AfterMove(CommandsOf(t), MoveOf(t, e))
    ensures Spared(GlanceOf(t, e), c)
  {
    assert [MoveOf(t, e)][0] == MoveOf(t, e);
    if MoveOf(t, e).Pop? {
      PoppedAnother(CommandsOf(t), c);
    }
  }

  /** Queued commands can be framed, and have distinct IDs. */
  ghost predicate QueueInv(s: State) {
    DistinctIds(CommandsOf(s)) && AllValid(CommandsOf(s))
  }

  predicate AllValid(q: seq<Command>) {
    forall c :: c in q ==> ValidPayload(c.body)
  }

  lemma QueueMoved(q: seq<Command>, m: Move)
    requires DistinctIds(q) && AllValid(q) && (m.Push? ==> ValidPayload(m.command.body))
    ensures DistinctIds(AfterMove(q, m)) && AllValid(AfterMove(q, m))
  {
    if m.Push? {
      WithoutDistinct(q, m.command);
      var rest := Without(q, m.command);
      assert forall i :: 0 <= i < |rest| ==> rest[i] in rest;
    }
  }

  lemma PushIsValid(s: State, e: Event)
    requires MoveOf(s, e).Push?
    ensures ValidPayload(MoveOf(s, e).command.body)
  {}

  lemma QueueStep(s: State, e: Event)
    requires QueueInv(s)
    ensures QueueInv(Step(s, e))
  {
    MovesStep(s, e);
    if MoveOf(s, e).Push? {
      PushIsValid(s, e);
    }
    QueueMoved(CommandsOf(s), MoveOf(s, e));
  }

  lemma QueueRun(s: State, events: seq<Event>)
    requires QueueInv(s)
    ensures QueueInv(Run(s, events))
  {
    forall t, e | QueueInv(t)
      ensures QueueInv(Step(t, e))
    {
      QueueStep(t, e);
    }
    Keeps(Step, QueueInv, (e: Event) => true, s, events);
  }

  lemma QueueReachable(s: State)
    requires Reachable(s)
    ensures QueueInv(s)
  {
    forall t, e | QueueInv(t)
      ensures QueueInv(Step(t, e))
    {
      QueueStep(t, e);
    }
    ReachableKeeps(QueueInv, s);
  }

  // ---- On the way to the next pop ---------------------------------------------------------

  /** `c` waits behind the head of the queue. */
  predicate Behind(q: seq<Command>, c: Command) {
    |q| > 1 && q[0] != c && c in q[1..]
  }

  /** `c` waits behind the first two of the queue. */
  predicate BehindTwo(q: seq<Command>, c: Command) {
    |q| > 2 && q[0] != c && q[1] != c && c in q[2..]
  }

  predicate Unstuck(pc: Pc) {
    pc.Writing? ==> pc.done < FrameSize(pc.body)
  }

  /** The request that is in flight or about to be. */
  function Flight(s: State): Option<Scheduling.Request> {
    match s.pc
    case Writing(_, _, job) => if job.Ask? then Some(job.request) else s.sched.inFlight
    case Installing(r) => Some(r)
    case _ => s.sched.inFlight
  }

  /** No sweep comes before the next read. */
  predicate InWindow(pc: Pc) {
    pc == Finishing(ToSelect) || pc == Selecting || pc == Reading || pc == Finishing(ToRead)
  }

  /** A request whose timeout, if it happened now, would not stop the transport, or does not happen. */
  predicate Mild(r: Option<Scheduling.Request>, s: State) {
    r.Some? && r.value.stopOnTimeout ==> r.value.deadline > s.now || InWindow(s.pc)
  }

  /** Nothing that could be taken from the queue stops the transport when it times out. */
  predicate SoftQueue(s: State) {
    SoftAll(s.sched.requests) && (s.pc.Finishing? && s.pc.after.ToSend? ==> !s.pc.after.request.stopOnTimeout)
  }

  predicate SoftAll(q: seq<Scheduling.Request>) {
    forall i :: 0 <= i < |q| ==> !q[i].stopOnTimeout
  }

  /** What is queued or about to be sent can be framed. */
  predicate BodiesFit(s: State) {
    FitAll(s.sched.requests) && (s.pc.Finishing? && s.pc.after.ToSend? ==> ValidPayload(s.pc.after.request.body))
  }

  predicate FitAll(q: seq<Scheduling.Request>) {
    forall i :: 0 <= i < |q| ==> ValidPayload(q[i].body)
  }

  lemma {:induction false} UnexpiredFits(q: seq<Scheduling.Request>, now: int)
    ensures SoftAll(q) ==> SoftAll(Unexpired(q, now))
    ensures FitAll(q) ==> FitAll(Unexpired(q, now))
  {
    if q != [] {
      UnexpiredFits(q[1..], now);
    }
  }

  /** How far the I/O thread is from its next pop. */
  function Rank(s: State): nat {
    match s.pc
    case Popping => 0
    case WatchdogLock(_) => 1
    case WatchdogCheck => 2
    case Reading => 3
    case Selecting => 4
    case Sweep(second) => if second then 18 else 6
    case Reschedule => 7
    case LoopTop => 8
    case Starting | Installing(_) => 9
    case Writing(_, _, job) => if job.SafeStop? then 9 else if job.Ask? then 10 else 19
    case Finishing(after) =>
      if after.ToRead? then 4 else if after.ToSelect? then 5 else if after.ToTop? then 9
      else if after.ToSend? then 11 else 17
    case PollMake(k, _) => if ChannelOf(s.sched, k).interval > 0 then 12 else 13
    case QueryTake(_) => 14
    case PollSelect(_) => 15
    case CheckInFlight => 16
    case _ => 0
  }

  /** The way to the next pop leads past no query, or no query on the way can do harm. */
  predicate ClearWay(s: State) {
    || Rank(s) <= 10 || s.pc.PollMake? || SoftQueue(s)
    || (s.sched.inFlight.Some? && (Rank(s) == 16 || Rank(s) == 17 || s.sched.inFlight.value.deadline > s.now))
  }

  /** The watchdog will not fire as long as time stands still. */
  predicate NotDue(s: State) {
    s.sched.watchdog.Some? ==>
      s.sched.watchdog.value.deadline > s.now && (s.pc.WatchdogLock? ==> s.sched.watchdog.value.deadline > s.pc.stamp)
  }

  /** The I/O thread gets to its next pop if nobody disturbs it, but for the watchdog. */
  predicate OnTheWay(s: State) {
    && s.sched.running && !Leaving(s.pc) && Unstuck(s.pc) && (ExpectsIdle(s.pc) ==> s.sched.inFlight.None?)
    && Mild(Flight(s), s) && ClearWay(s) && PickedDue(s) && BodiesFit(s)
  }

  /** Moreover `c` is behind the head of the queue. */
  predicate Ready(s: State, c: Command) {
    OnTheWay(s) && Behind(CommandsOf(s), c) && AllValid(CommandsOf(s))
  }

  /** Moreover the watchdog will not fire. */
  predicate Going(s: State, c: Command) {
    Ready(s, c) && NotDue(s)
  }

  /** The next event on the way. */
  function Way(s: State): Event {
    match s.pc
    case Writing(body, _, _) => Io(Moved(FrameSize(body)))
    case PollMake(k, _) => if ChannelOf(s.sched, k).interval > 0 then Io(Fine) else SetInterval(k, 1)
    case Selecting => Io(Moved(1))
    case _ => Io(Fine)
  }

  /** No time has passed, and neither the lock, the list of requests nor the commands were touched. */
  predicate Alike(s: State, t: State) {
    && t.management == s.management && t.past.issued == s.past.issued && t.cfg == s.cfg && t.now == s.now
    && t.sched.running == s.sched.running && t.sched.commands == s.sched.commands
    && t.sched.watchdog == s.sched.watchdog
  }

  /** It is less far from `t` than from `s`. */
  predicate Shorter(t: State, s: State) {
    Rank(t) < Rank(s) || (Rank(t) == Rank(s) && |t.hand| < |s.hand|)
  }

  /** The step went some of the way and touched nothing it should not. */
  predicate Nearer(s: State, t: State) {
    Alike(s, t) && (t.pc.WatchdogLock? ==> t.pc.stamp == t.now) && Shorter(t, s)
  }

  lemma NearTop(s: State)
    requires OnTheWay(s) && (s.pc == Starting || s.pc == LoopTop || s.pc.Installing?)
    ensures var t := Step(s, Way(s)); OnTheWay(t) && Nearer(s, t)
  {}

  lemma NearCheck(s: State)
    requires OnTheWay(s) && (s.pc == Selecting || s.pc == WatchdogCheck || s.pc == CheckInFlight)
    ensures var t := Step(s, Way(s)); OnTheWay(t) && Nearer(s, t)
  {}

  lemma NearSelect(s: State)
    requires OnTheWay(s) && s.pc.PollSelect?
    ensures var t := Step(s, Way(s)); OnTheWay(t) && Nearer(s, t)
  {}

  /** A callback. */
  lemma NearCall(s: State)
    requires OnTheWay(s) && s.pc.Finishing? && s.hand != []
    ensures var t := Step(s, Way(s)); OnTheWay(t) && Nearer(s, t)
  {}

  lemma NearFinish(s: State)
    requires OnTheWay(s) && s.pc.Finishing? && s.hand == [] && !s.pc.after.ToSend?
    ensures var t := Step(s, Way(s)); OnTheWay(t) && Nearer(s, t)
  {}

  lemma NearSend(s: State)
    requires OnTheWay(s) && s.pc.Finishing? && s.hand == [] && s.pc.after.ToSend?
    ensures var t := Step(s, Way(s)); OnTheWay(t) && Nearer(s, t)
  {}

  lemma NearWrite(s: State)
    requires OnTheWay(s) && s.pc.Writing? && !s.pc.job.Ask?
    ensures var t := Step(s, Way(s)); OnTheWay(t) && Nearer(s, t)
  {}

  lemma NearAsk(s: State)
    requires OnTheWay(s) && s.pc.Writing? && s.pc.job.Ask?
    ensures var t := Step(s, Way(s)); OnTheWay(t) && Nearer(s, t)
  {}

  lemma NearSweep(s: State)
    requires OnTheWay(s) && s.pc.Sweep?
    ensures var t := Step(s, Way(s)); OnTheWay(t) && Nearer(s, t)
  {
    UnexpiredFits(s.sched.requests, s.now);
  }

  lemma NearTake(s: State)
    requires OnTheWay(s) && s.pc.QueryTake?
    ensures var t := Step(s, Way(s)); OnTheWay(t) && Nearer(s, t)
  {
    UnexpiredFits(s.sched.requests, s.pc.stamp);
  }

  lemma NearRest(s: State)
    requires OnTheWay(s) && NotDue(s) && (s.pc.Reschedule? || s.pc.WatchdogLock?)
    ensures var t := Step(s, Way(s)); OnTheWay(t) && Nearer(s, t)
  {}

  lemma NearRead(s: State)
    requires OnTheWay(s) && s.pc == Reading && (Flight(s).Some? ==> !Flight(s).value.stopOnTimeout)
    ensures var t := Step(s, Way(s)); OnTheWay(t) && Nearer(s, t)
  {}

  lemma NearPoll(s: State)
    requires OnTheWay(s) && s.pc.PollMake? && ChannelOf(s.sched, s.pc.source).interval > 0
    ensures var t := Step(s, Way(s)); OnTheWay(t) && Nearer(s, t)
  {}

  lemma NearEnable(s: State)
    requires OnTheWay(s) && s.pc.PollMake? && ChannelOf(s.sched, s.pc.source).interval <= 0
    ensures var t := Step(s, Way(s)); OnTheWay(t) && Nearer(s, t)
  {}

  lemma WayKeeps(s: State)
    requires OnTheWay(s) && NotDue(s) && s.pc != Popping
    ensures MoveOf(s, Way(s)).Keep?
  {}

  /** Something in flight would stop the transport when it times out. */
  predicate Grave(s: State) {
    Flight(s).Some? && Flight(s).value.stopOnTimeout
  }

  /** From every state on the way the next step goes further. */
  lemma GoesNearer(s: State)
    requires OnTheWay(s) && NotDue(s) && s.pc != Popping && (s.pc == Reading ==> !Grave(s))
    ensures var t := Step(s, Way(s)); OnTheWay(t) && NotDue(t) && Nearer(s, t) && MoveOf(s, Way(s)).Keep?
  {
    WayKeeps(s);
    if s.pc.Finishing? {
      if s.hand != [] {
        NearCall(s);
      } else if s.pc.after.ToSend? {
        NearSend(s);
      } else {
        NearFinish(s);
      }
    } else if s.pc.Writing? && s.pc.job.Ask? {
      NearAsk(s);
    } else if s.pc.Writing? {
      NearWrite(s);
    } else if s.pc.Sweep? {
      NearSweep(s);
    } else if s.pc.QueryTake? {
      NearTake(s);
    } else if s.pc.PollMake? && ChannelOf(s.sched, s.pc.source).interval > 0 {
      NearPoll(s);
    } else if s.pc.PollMake? {
      NearEnable(s);
    } else if s.pc.PollSelect? {
      NearSelect(s);
    } else if s.pc == Reading {
      NearRead(s);
    } else if s.pc.Reschedule? || s.pc.WatchdogLock? {
      NearRest(s);
    } else if s.pc == Starting || s.pc == LoopTop || s.pc.Installing? {
      NearTop(s);
    } else {
      NearCheck(s);
    }
  }

  // ---- Getting there ----------------------------------------------------------------------

  /** Nothing grave gets into flight on the way, and what is grave stays there. */
  predicate SameFlight(s: State, t: State) {
    Grave(s) || Grave(t) ==> Flight(t) == Flight(s)
  }

  lemma FlightTop(s: State)
    requires OnTheWay(s) && Plain(s.pc)
    ensures var t := Step(s, Way(s)); SameFlight(s, t) && t.device == s.device
  {}

  lemma FlightFinish(s: State)
    requires OnTheWay(s) && s.pc.Finishing?
    ensures var t := Step(s, Way(s)); SameFlight(s, t) && t.device == s.device
  {}

  lemma FlightQueues(s: State)
    requires OnTheWay(s) && (s.pc.Sweep? || s.pc.QueryTake? || s.pc == Reading)
    ensures var t := Step(s, Way(s)); SameFlight(s, t) && t.device == s.device
  {}

  lemma FlightSchedules(s: State)
    requires OnTheWay(s) && NotDue(s) && Schedules(s.pc) && s.pc != Popping
    ensures var t := Step(s, Way(s)); SameFlight(s, t) && t.device == s.device
  {}

  lemma FlightWrite(s: State)
    requires OnTheWay(s) && s.pc.Writing?
    ensures var t := Step(s, Way(s)); SameFlight(s, t) && (s.pc.job.Ask? || t.device == s.device)
  {}

  lemma FlightKept(s: State)
    requires OnTheWay(s) && NotDue(s) && s.pc != Popping
    ensures var t := Step(s, Way(s)); SameFlight(s, t) && ((s.pc.Writing? && s.pc.job.Ask?) || t.device == s.device)
  {
    if Plain(s.pc) {
      FlightTop(s);
    } else if s.pc.Finishing? {
      FlightFinish(s);
    } else if s.pc.Writing? {
      FlightWrite(s);
    } else if Schedules(s.pc) {
      FlightSchedules(s);
    } else {
      FlightQueues(s);
    }
  }

  /** Whatever can be brought about while `c` waits can be brought about one step earlier. */
  ghost predicate BackWaiting(can: State -> bool, c: Command) {
    forall s, e :: Spared(GlanceOf(s, e), c) && can(Step(s, e)) ==> can(s)
  }

  lemma OneEarlier(can: State -> bool, s: State, e: Event, c: Command)
    requires BackWaiting(can, c) && Spared(GlanceOf(s, e), c) && can(Step(s, e))
    ensures can(s)
  {}

  /** `t` is at the next pop on the way from `s`. */
  predicate NextPop(s: State, t: State, c: Command) {
    Going(t, c) && t.pc == Popping && Alike(s, t) && SameFlight(s, t) && (Grave(s) ==> t.device == s.device)
  }

  /** One step of the way. */
  lemma OnwardStep(s: State, c: Command)
    requires Going(s, c) && s.pc != Popping && (s.pc == Reading ==> !Grave(s))
    ensures var t := Step(s, Way(s));
            Going(t, c) && Nearer(s, t) && SameFlight(s, t) && Spared(GlanceOf(s, Way(s)), c)
    ensures (s.pc.Writing? && s.pc.job.Ask?) || Step(s, Way(s)).device == s.device
  {
    GoesNearer(s);
    FlightKept(s);
  }

  lemma SamePop(s: State, u: State, t: State, c: Command)
    requires Alike(s, u) && SameFlight(s, u) && (Grave(s) ==> u.device == s.device) && NextPop(u, t, c)
    ensures NextPop(s, t, c)
  {}

  predicate Heading(s: State, c: Command) {
    Going(s, c) && (Grave(s) ==> Rank(s) <= 2)
  }

  lemma TowardsPop(s: State, c: Command)
    requires Heading(s, c) && s.pc != Popping
    ensures var u := Step(s, Way(s)); Heading(u, c) && Shorter(u, s) && Spared(GlanceOf(s, Way(s)), c)
    ensures forall t :: NextPop(Step(s, Way(s)), t, c) ==> NextPop(s, t, c)
  {
    OnwardStep(s, c);
    forall t | NextPop(Step(s, Way(s)), t, c)
      ensures NextPop(s, t, c)
    {
      SamePop(s, Step(s, Way(s)), t, c);
    }
  }

  lemma HereIsPop(s: State, c: Command)
    requires Heading(s, c) && s.pc == Popping
    ensures NextPop(s, s, c)
  {}

  /** What can be brought about from the next pop can be brought about from anywhere on the way. */
  lemma {:induction false} AtTheNextPop(can: State -> bool, s: State, c: Command)
    requires BackWaiting(can, c) && Heading(s, c)
    requires forall t :: NextPop(s, t, c) ==> can(t)
    ensures can(s)
    decreases Rank(s), |s.hand|
  {
    if s.pc == Popping {
      HereIsPop(s, c);
    } else {
      TowardsPop(s, c);
      AtTheNextPop(can, Step(s, Way(s)), c);
      OneEarlier(can, s, Way(s), c);
    }
  }

  /** The pop takes the command ahead of `c` and leaves `c` queued. */
  lemma PopsAnother(s: State, c: Command)
    requires Going(s, c) && s.pc == Popping
    ensures var t := Step(s, Io(Fine));
            && Spared(GlanceOf(s, Io(Fine)), c) && CommandsOf(t) == CommandsOf(s)[1..]
            && t.pc.Writing? && t.pc.job.Queued? && t.pc.done == 0 && ValidPayload(t.pc.body)
            && t.sched == s.sched.(commands := CommandsOf(t))
            && t.management == s.management && t.past.issued == s.past.issued && t.device == s.device
            && t.now == s.now && t.cfg == s.cfg
  {}

  // ---- The watchdog -----------------------------------------------------------------------

  /** What the code makes of its options: the watchdog is enabled only with a positive timeout. */
  predicate Sane(cfg: Config) {
    cfg.watchdogEnabled ==> cfg.watchdogTimeout > 0
  }

  /** Every configuration made from the options of the public interface is sane. */
  lemma OptionsAreSane(o: ControlCommands.Options)
    ensures Sane(ControlCommands.ConfigOf(o))
  {}

  predicate WatchdogSane(s: State) {
    && (s.sched.watchdog.Some? ==> s.cfg.watchdogEnabled)
    && (s.pc.WatchdogLock? ==> s.pc.stamp <= s.now)
  }

  /** An ID that is none of the three. */
  function Fourth(a: Command, b: Command, c: Command): (id: Byte)
    requires a.body != [] && b.body != [] && c.body != []
    ensures id != a.body[0] && id != b.body[0] && id != c.body[0]
  {
    var used := {a.body[0], b.body[0], c.body[0]};
    if 0 !in used then 0 else if 1 !in used then 1 else if 2 !in used then 2 else 3
  }

  lemma HeadKept(q: seq<Command>, d: Command)
    requires q != [] && !SameId(q[0], d)
    ensures Replace(q, d) == [q[0]] + Replace(q[1..], d)
  {}

  lemma BehindKept(q: seq<Command>, d: Command, c: Command)
    requires Behind(q, c) && !SameId(q[0], d) && !SameId(c, d)
    ensures Behind(Replace(q, d), c)
  {
    HeadKept(q, d);
    WithoutHas(q[1..], d, c);
  }

  lemma BehindTwoKept(q: seq<Command>, d: Command, c: Command)
    requires BehindTwo(q, c) && !SameId(q[0], d) && !SameId(q[1], d) && !SameId(c, d)
    ensures BehindTwo(Replace(q, d), c)
  {
    HeadKept(q, d);
    assert q[1..][1..] == q[2..];
    BehindKept(q[1..], d, c);
    assert Replace(q, d)[2..] == Replace(q[1..], d)[1..];
  }

  /** A refresh that leaves `c` where it is in the queue. */
  function RefreshFor(s: State, c: Command): Event
    requires Ready(s, c)
  {
    var q := CommandsOf(s);
    assert q[0] in q && q[1] in q && c in q;
    Control([Fourth(q[0], q[1], c)], true)
  }

  lemma RefreshPushes(s: State, c: Command)
    requires Ready(s, c) && s.cfg.watchdogEnabled
    ensures var e := RefreshFor(s, c);
            var d := Command(e.body, |s.past.log|);
            var t := Step(s, e);
            && MoveOf(s, e) == Push(d)
            && t == s.(sched := t.sched, past := t.past) && t.past == s.past.(log := t.past.log)
            && t.sched == s.sched.(commands := Replace(CommandsOf(s), d),
                                   watchdog := Some(Watchdog(s.now + s.cfg.watchdogTimeout, |s.past.log|)))
  {}

  lemma ReplaceFits(q: seq<Command>, d: Command)
    requires AllValid(q) && ValidPayload(d.body)
    ensures AllValid(Replace(q, d))
  {
    forall x | x in Replace(q, d)
      ensures ValidPayload(x.body)
    {
      WithoutHas(q, d, x);
    }
  }

  /** The same but for the command queue, in which `c` is no further ahead, and the watchdog. */
  predicate Refreshed(s: State, t: State, c: Command) {
    && t == s.(sched := t.sched, past := t.past) && t.past == s.past.(log := t.past.log)
    && t.sched == s.sched.(commands := t.sched.commands, watchdog := t.sched.watchdog)
    && (BehindTwo(CommandsOf(s), c) ==> BehindTwo(CommandsOf(t), c))
  }

  lemma RefreshedGoes(s: State, t: State, c: Command)
    requires Ready(s, c) && Refreshed(s, t, c) && Behind(CommandsOf(t), c) && AllValid(CommandsOf(t))
    ensures Ready(t, c)
  {}

  lemma RefreshGoes(s: State, c: Command)
    requires Ready(s, c) && WatchdogSane(s) && Sane(s.cfg) && s.cfg.watchdogEnabled
    ensures var e := RefreshFor(s, c);
            Going(Step(s, e), c) && Spared(GlanceOf(s, e), c) && Refreshed(s, Step(s, e), c)
  {
    var e, q := RefreshFor(s, c), CommandsOf(s);
    var d := Command(e.body, |s.past.log|);
    assert q[0] in q && q[1] in q && c in q;
    RefreshPushes(s, c);
    BehindKept(q, d, c);
    if BehindTwo(q, c) {
      BehindTwoKept(q, d, c);
    }
    ReplaceFits(q, d);
    RefreshedGoes(s, Step(s, e), c);
  }

  /** What can be brought about with the watchdog out of the way can be brought about from here. */
  lemma FromHere(can: State -> bool, s: State, c: Command)
    requires BackWaiting(can, c) && Ready(s, c) && WatchdogSane(s) && Sane(s.cfg)
    requires forall t :: Going(t, c) && Refreshed(s, t, c) ==> can(t)
    ensures can(s)
  {
    if !NotDue(s) {
      RefreshGoes(s, c);
      OneEarlier(can, s, RefreshFor(s, c), c);
    }
  }

  predicate Stamped(s: State) {
    s.pc.WatchdogLock? ==> s.pc.stamp <= s.now
  }

  lemma StampedCaller(s: State, e: Event)
    requires Stamped(s) && !e.Io?
    ensures Stamped(Step(s, e))
  {}

  lemma StampedIo(s: State, e: Event)
    requires Stamped(s) && e.Io?
    ensures Stamped(Step(s, e))
  {}

  lemma WatchdogIsSane(s: State)
    requires Reachable(s)
    ensures WatchdogSane(s)
  {
    forall t, e | Stamped(t)
      ensures Stamped(Step(t, e))
    {
      if e.Io? {
        StampedIo(t, e);
      } else {
        StampedCaller(t, e);
      }
    }
    ReachableKeeps(Stamped, s);
    WatchdogLaws.WatchdogReachable(s);
  }

  /** The I/O loop goes on: it is running, not on its way out and not about to fail. */
  predicate CanPass(s: State) {
    s.sched.running && !Leaving(s.pc) && Unstuck(s.pc)
  }

  lemma IndexBehind(q: seq<Command>, k: nat)
    requires DistinctIds(q) && 0 < k < |q|
    ensures Behind(q, q[k]) && (k > 1 ==> BehindTwo(q, q[k]))
  {
    assert !SameId(q[0], q[k]) && q[k] == q[1..][k - 1];
    if k > 1 {
      assert !SameId(q[1], q[k]) && q[k] == q[2..][k - 2];
    }
  }

  /** Any run of the loop from here can go on to its next pop, if what is in flight and queued allows it. */
  lemma PassIsReady(s: State, k: nat)
    requires Reachable(s) && CanPass(s) && 0 < k < |CommandsOf(s)| && Mild(Flight(s), s) && ClearWay(s)
    ensures Ready(s, CommandsOf(s)[k]) && WatchdogSane(s)
  {
    ControlReachable(s);
    QueueReachable(s);
    PickedDueReachable(s);
    WatchdogIsSane(s);
    RequestReachable(s);
    IndexBehind(CommandsOf(s), k);
    var p := PlacesOf(s);
    assert s.pc.Finishing? && s.pc.after.ToSend? ==> p.held == [s.pc.after.request] && Fit(p.held[0]);
    assert forall i :: 0 <= i < |p.queued| ==> Fit(p.queued[i]);
  }

  // ---- Where nothing passes ---------------------------------------------------------------

  /** A command is queued and the loop will not go on. */
  lemma LeavingStays(s: State, e: Event, c: Command)
    requires ControlInv(s) && c in CommandsOf(s) && Leaving(s.pc) && !MoveOf(s, e).Clear?
    ensures Leaving(Step(s, e).pc)
  {}

  lemma StuckLeaves(s: State, e: Event)
    requires !Unstuck(s.pc)
    ensures !Unstuck(Step(s, e).pc) || Leaving(Step(s, e).pc)
  {}

  lemma StoppedStays(s: State, e: Event, c: Command)
    requires ControlInv(s) && c in CommandsOf(s) && !s.sched.running
    ensures !Step(s, e).sched.running
  {
    if e.Io? && s.pc.Finishing? {
      StoppedFinish(s, e, c);
    } else {
      RunningOnlyStops(s, e);
    }
  }

  lemma StoppedFinish(s: State, e: Event, c: Command)
    requires ControlInv(s) && c in CommandsOf(s) && !s.sched.running && e.Io? && s.pc.Finishing?
    ensures !Step(s, e).sched.running
  {}

  lemma RunningOnlyStops(s: State, e: Event)
    requires !s.sched.running && !(e.Io? && s.pc.Finishing?)
    ensures !Step(s, e).sched.running
  {}

  /** The head of the queue stays there until it is popped, replaced or cleared. */
  lemma HeadStays(s: State, e: Event, c: Command)
    requires CommandsOf(s) != [] && CommandsOf(s)[0] == c && Spared(GlanceOf(s, e), c)
    ensures !MoveOf(s, e).Pop? && CommandsOf(Step(s, e)) != [] && CommandsOf(Step(s, e))[0] == c
  {
    MovesStep(s, e);
    if MoveOf(s, e).Push? {
      HeadKept(CommandsOf(s), MoveOf(s, e).command);
    }
  }

  lemma StaysQueued(s: State, e: Event, c: Command)
    requires c in CommandsOf(s) && Spared(GlanceOf(s, e), c)
    ensures c in CommandsOf(Step(s, e))
  {
    MovesStep(s, e);
    SparedStays(CommandsOf(s), GlanceOf(s, e), c);
  }

  // ---- What can be brought about while a command waits ------------------------------------

  ghost predicate Can(mark: (State, Event) -> bool, c: Command, s: State) {
    Brings(Step, GlanceOf, SparedBy(c), mark, s)
  }

  lemma WaitingCan(mark: (State, Event) -> bool, c: Command, s: State)
    requires QueueInv(s) && c in CommandsOf(s)
    ensures Can(mark, c, s) <==> exists events :: Waits(s, events, c) && CountOf(Yes, Trace(Step, mark, s, events)) > 0
  {
    if Can(mark, c, s) {
      var events :| BringsBy(Step, GlanceOf, SparedBy(c), mark, s, events);
      SparedWaits(s, events, c);
    }
    if events :| Waits(s, events, c) && CountOf(Yes, Trace(Step, mark, s, events)) > 0 {
      WaitsSpared(s, events, c);
      assert BringsBy(Step, GlanceOf, SparedBy(c), mark, s, events);
    }
  }

  lemma CanEarlier(mark: (State, Event) -> bool, c: Command, s: State, e: Event)
    requires Spared(GlanceOf(s, e), c) && (mark(s, e) || Can(mark, c, Step(s, e)))
    ensures Can(mark, c, s)
  {
    BringsEarlier(Step, GlanceOf, SparedBy(c), mark, s, e);
  }

  /** Where every step that spares `c` leads to where the same holds, and none is marked, nothing can be
      brought about while `c` waits. */
  lemma JammedCannot(mark: (State, Event) -> bool, c: Command, jam: State -> bool, s: State)
    requires jam(s)
    requires forall t, e :: jam(t) && Spared(GlanceOf(t, e), c) ==> !mark(t, e) && jam(Step(t, e))
    ensures !Can(mark, c, s)
  {
    if Can(mark, c, s) {
      var events :| BringsBy(Step, GlanceOf, SparedBy(c), mark, s, events);
      NeverBrought(Step, GlanceOf, SparedBy(c), mark, jam, s, events);
    }
  }
}
