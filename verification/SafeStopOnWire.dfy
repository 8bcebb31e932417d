/**
 The watchdog's law on the wire: of the payloads written on a connection, a queued command that
 follows a safe stop was accepted after the watchdog fired for that safe stop.
 */
module SafeStopOnWire {
  import opened Framing
  import opened Wrappers
  import opened Scheduling
  import opened Client
  import opened WatchdogLaws

  datatype Work = Work(body: Payload, job: Job)

  /** The part of the state this is about. */
  datatype Wire = Wire(log: seq<Entry>, sent: seq<Payload>, jobs: seq<Job>, writing: Option<Work>)

  function WireOf(s: State): Wire {
    Wire(s.past.log, s.past.sent, s.past.jobs, if s.pc.Writing? then Some(Work(s.pc.body, s.pc.job)) else None)
  }

  /** The log shows why the payload is written. */
  predicate Justified(log: seq<Entry>, body: Payload, job: Job, safeStop: Payload) {
    match job
    case SafeStop(fired) => fired < |log| && log[fired].Fired? && body == safeStop
    case Queued(ticket) => ticket < |log| && log[ticket].Accepted? && log[ticket].body == body
    case Ask(_) => true
  }

  /** A command accepted after every safe stop among the jobs had been decided on. */
  predicate Later(jobs: seq<Job>, job: Job) {
    job.Queued? ==> forall i :: 0 <= i < |jobs| && jobs[i].SafeStop? ==> jobs[i].fired < job.ticket
  }

  ghost predicate WireInv(w: Wire, safeStop: Payload) {
    && |w.sent| == |w.jobs|
    && (forall i :: 0 <= i < |w.jobs| ==> Justified(w.log, w.sent[i], w.jobs[i], safeStop))
    && (forall j :: 0 <= j < |w.jobs| ==> Later(w.jobs[..j], w.jobs[j]))
    && (w.writing.Some? ==>
          Justified(w.log, w.writing.value.body, w.writing.value.job, safeStop) && Later(w.jobs, w.writing.value.job))
  }

  datatype WireChange =
    | Note(entry: Option<Entry>)
    | Begin(entry: Option<Entry>, work: Work)
    | Finish
    | GiveUp
    | Anew(entry: Option<Entry>)

  predicate Able(w: Wire, c: WireChange, safeStop: Payload) {
    match c
    case Begin(entry, work) => Justified(Extend(w.log, entry), work.body, work.job, safeStop) && Later(w.jobs, work.job)
    case Finish => w.writing.Some?
    case _ => true
  }

  function Apply(w: Wire, c: WireChange, safeStop: Payload): Wire
    requires Able(w, c, safeStop)
  {
    match c
    case Note(entry) => w.(log := Extend(w.log, entry))
    case Begin(entry, work) => w.(log := Extend(w.log, entry), writing := Some(work))
    case Finish => w.(sent := w.sent + [w.writing.value.body], jobs := w.jobs + [w.writing.value.job], writing := None)
    case GiveUp => w.(writing := None)
    case Anew(entry) => Wire(Extend(w.log, entry), [], [], None)
  }

  lemma JustifiedStill(log: seq<Entry>, entry: Option<Entry>, body: Payload, job: Job, safeStop: Payload)
    requires Justified(log, body, job, safeStop)
    ensures Justified(Extend(log, entry), body, job, safeStop)
  {}

  lemma LogKeeps(w: Wire, entry: Option<Entry>, safeStop: Payload)
    requires WireInv(w, safeStop)
    ensures WireInv(w.(log := Extend(w.log, entry)), safeStop)
  {
    forall i | 0 <= i < |w.jobs|
      ensures Justified(Extend(w.log, entry), w.sent[i], w.jobs[i], safeStop)
    {
      JustifiedStill(w.log, entry, w.sent[i], w.jobs[i], safeStop);
    }
  }

  lemma FinishKeeps(w: Wire, safeStop: Payload)
    requires WireInv(w, safeStop) && w.writing.Some?
    ensures WireInv(Apply(w, Finish, safeStop), safeStop)
  {
    var more := w.jobs + [w.writing.value.job];
    assert more[..|w.jobs|] == w.jobs;
    forall j | 0 <= j < |w.jobs|
      ensures Later(more[..j], more[j])
    {
      assert more[..j] == w.jobs[..j];
    }
  }

  lemma ApplyKeeps(w: Wire, c: WireChange, safeStop: Payload)
    requires WireInv(w, safeStop) && Able(w, c, safeStop)
    ensures WireInv(Apply(w, c, safeStop), safeStop)
  {
    match c
    case Note(entry) => LogKeeps(w, entry, safeStop);
    case Begin(entry, _) => LogKeeps(w, entry, safeStop);
    case Finish => FinishKeeps(w, safeStop);
    case GiveUp =>
    case Anew(_) =>
  }

  // ---- Each step is a change --------------------------------------------------------------

  lemma CallerWires(s: State, e: Event) returns (c: WireChange)
    requires !e.Io?
    ensures Able(WireOf(s), c, s.cfg.safeStop) && WireOf(Step(s, e)) == Apply(WireOf(s), c, s.cfg.safeStop)
  {
    c := if s.pc.Writing? && !Step(s, e).pc.Writing? then GiveUp else Note(Logged(s, e));
  }

  lemma PlainWires(s: State, e: Event) returns (c: WireChange)
    requires e.Io? && Plain(s.pc)
    ensures Able(WireOf(s), c, s.cfg.safeStop) && WireOf(Step(s, e)) == Apply(WireOf(s), c, s.cfg.safeStop)
  {
    c := Note(None);
  }

  lemma FinishWires(s: State, e: Event) returns (c: WireChange)
    requires e.Io? && s.pc.Finishing?
    ensures Able(WireOf(s), c, s.cfg.safeStop) && WireOf(Step(s, e)) == Apply(WireOf(s), c, s.cfg.safeStop)
  {
    var pc := Step(s, e).pc;
    c := if pc.Writing? then Begin(Logged(s, e), Work(pc.body, pc.job))
         else if pc.Starting? then Anew(Logged(s, e)) else Note(Logged(s, e));
  }

  lemma WriteWires(s: State, e: Event) returns (c: WireChange)
    requires e.Io? && s.pc.Writing?
    ensures Able(WireOf(s), c, s.cfg.safeStop) && WireOf(Step(s, e)) == Apply(WireOf(s), c, s.cfg.safeStop)
  {
    var t := Step(s, e);
    c := if |t.past.jobs| > |s.past.jobs| then Finish else if t.pc.Writing? then Note(None) else GiveUp;
  }

  /** A command popped now was accepted after every firing in the log. */
  lemma PopIsLater(log: seq<Entry>, jobs: seq<Job>, sent: seq<Payload>, safeStop: Payload, c: Command)
    requires Fresh(log, c) && |sent| == |jobs|
    requires forall i :: 0 <= i < |jobs| ==> Justified(log, sent[i], jobs[i], safeStop)
    ensures Later(jobs, Queued(c.ticket))
  {
    forall i | 0 <= i < |jobs| && jobs[i].SafeStop?
      ensures jobs[i].fired < c.ticket
    {
      assert Justified(log, sent[i], jobs[i], safeStop);
    }
  }

  /** What popping does to the wire. */
  function PopOf(q: seq<Command>): WireChange {
    if q == [] then Note(None)
    else Begin(Some(CommandOut(q[0].ticket)), Work(q[0].body, Queued(q[0].ticket)))
  }

  lemma PopAble(s: State)
    requires ViewInv(ViewOf(s), s.cfg) && WireInv(WireOf(s), s.cfg.safeStop)
    ensures Able(WireOf(s), PopOf(s.sched.commands), s.cfg.safeStop)
  {
    if s.sched.commands != [] {
      var d := s.sched.commands[0];
      assert Fresh(s.past.log, ViewOf(s).commands[0]);
      PopIsLater(s.past.log, s.past.jobs, s.past.sent, s.cfg.safeStop, d);
    }
  }

  lemma PopWires(s: State, e: Event)
    requires e.Io? && s.pc.Popping? && Able(WireOf(s), PopOf(s.sched.commands), s.cfg.safeStop)
    ensures WireOf(Step(s, e)) == Apply(WireOf(s), PopOf(s.sched.commands), s.cfg.safeStop)
  {}

  lemma QueueWires(s: State, e: Event) returns (c: WireChange)
    requires e.Io? && Queues(s.pc)
    ensures Able(WireOf(s), c, s.cfg.safeStop) && WireOf(Step(s, e)) == Apply(WireOf(s), c, s.cfg.safeStop)
  {
    c := Note(None);
  }

  lemma ScheduleWires(s: State, e: Event) returns (c: WireChange)
    requires e.Io? && Schedules(s.pc) && !s.pc.Popping?
    ensures Able(WireOf(s), c, s.cfg.safeStop) && WireOf(Step(s, e)) == Apply(WireOf(s), c, s.cfg.safeStop)
  {
    var pc := Step(s, e).pc;
    c := if pc.Writing? then Begin(Logged(s, e), Work(pc.body, pc.job)) else Note(Logged(s, e));
  }

  ghost predicate SafeStopInv(s: State) {
    WatchdogInv(s) && WireInv(WireOf(s), s.cfg.safeStop)
  }

  lemma ConfigKept(s: State, e: Event)
    ensures Step(s, e).cfg == s.cfg
  {}

  lemma SafeStopStep(s: State, e: Event)
    requires SafeStopInv(s)
    ensures SafeStopInv(Step(s, e))
  {
    WatchdogStep(s, e);
    ConfigKept(s, e);
    var c: WireChange;
    if !e.Io? {
      c := CallerWires(s, e);
    } else if Plain(s.pc) {
      c := PlainWires(s, e);
    } else if s.pc.Finishing? {
      c := FinishWires(s, e);
    } else if s.pc.Writing? {
      c := WriteWires(s, e);
    } else if s.pc.Popping? {
      PopAble(s);
      c := PopOf(s.sched.commands);
      PopWires(s, e);
    } else if Queues(s.pc) {
      c := QueueWires(s, e);
    } else {
      c := ScheduleWires(s, e);
    }
    ApplyKeeps(WireOf(s), c, s.cfg.safeStop);
  }

  lemma SafeStopReachable(s: State)
    requires Reachable(s)
    ensures WireInv(WireOf(s), s.cfg.safeStop)
  {
    forall t, e | SafeStopInv(t)
      ensures SafeStopInv(Step(t, e))
    {
      SafeStopStep(t, e);
    }
    ReachableKeeps(SafeStopInv, s);
  }

  /** Over every run, of the payloads written on a connection: a safe stop is the configured one and
      was written because the watchdog fired; a queued command that follows it is a command accepted
      after that firing, written as it was accepted. */
  lemma NoStaleCommandOnTheWire(s: State, i: nat, j: nat)
    requires Reachable(s) && i < j < |s.past.jobs| && s.past.jobs[i].SafeStop? && s.past.jobs[j].Queued?
    ensures var fired, ticket := s.past.jobs[i].fired, s.past.jobs[j].ticket;
            && |s.past.sent| == |s.past.jobs| && s.past.sent[i] == s.cfg.safeStop
            && fired < ticket < |s.past.log| && s.past.log[fired].Fired?
            && s.past.log[ticket].Accepted? && s.past.log[ticket].body == s.past.sent[j]
  {
    SafeStopReachable(s);
    assert Later(s.past.jobs[..j], s.past.jobs[j]) && s.past.jobs[..j][i] == s.past.jobs[i];
    assert Justified(s.past.log, s.past.sent[j], s.past.jobs[j], s.cfg.safeStop);
    assert Justified(s.past.log, s.past.sent[i], s.past.jobs[i], s.cfg.safeStop);
  }
}
