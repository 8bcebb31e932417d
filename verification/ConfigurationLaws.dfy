/**
 What a management operation sends. A configuration write reads first and then sends exactly the image
 its caller handed over when it took the lock; between the two stands the comparison of signatures.
 */
module ConfigurationLaws {
  import opened Checksums
  import opened Framing
  import opened Scheduling
  import opened Client
  import opened Runs
  import opened ExactlyOnce

  type Request = Scheduling.Request

  /** Event m of the run takes the lock for operation `op`, to do what `script` says. */
  predicate TakesLock(start: State, events: seq<Event>, m: nat, op: nat, script: Script) {
    && m < |events| && events[m] == Lock(script)
    && Run(start, events[..m]).management.Free? && Run(start, events[..m]).nextOp == op
  }

  ghost predicate TookLock(start: State, events: seq<Event>, op: nat, script: Script) {
    exists m: nat :: TakesLock(start, events, m, op, script)
  }

  /** What an operation may send: a configuration write sends its read and its image; any other
      operation sends management requests that are not configuration writes. */
  predicate Follows(script: Script, body: Payload) {
    match script
    case WriteConfig(id, image) =>
      (id == 13 || id == 16 || id == 149) && (body == [id] + image || body == [if id == 13 then 14 else 17])
    case Other => body != [] && body[0] in {14, 17, 58, 130, 131, 132, 133}
  }

  /** The request belongs to an operation that took the lock in the run, and does what it was asked. */
  ghost predicate Asked(start: State, events: seq<Event>, r: Request) {
    r.op != 0 ==> exists script :: TookLock(start, events, r.op, script) && Follows(script, r.body)
  }

  predicate Recorded(x: Entry, issued: seq<Request>) {
    x.RequestOut? && x.request.op != 0 ==> x.request in issued
  }

  ghost predicate ScriptInv(start: State, events: seq<Event>) {
    var s := Run(start, events);
    && RequestInv(s)
    && (s.management.Busy? ==> TookLock(start, events, s.management.op, s.management.script))
    && (forall i :: 0 <= i < |s.past.issued| ==> Asked(start, events, s.past.issued[i]))
    && (forall j :: 0 <= j < |s.past.log| ==> Recorded(s.past.log[j], s.past.issued))
  }

  lemma TakesLockMore(start: State, events: seq<Event>, e: Event, m: nat, op: nat, script: Script)
    requires TakesLock(start, events, m, op, script)
    ensures TakesLock(start, events + [e], m, op, script)
  {
    assert (events + [e])[..m] == events[..m];
  }

  lemma TookLockMore(start: State, events: seq<Event>, e: Event, op: nat, script: Script)
    requires TookLock(start, events, op, script)
    ensures TookLock(start, events + [e], op, script)
  {
    var m: nat :| TakesLock(start, events, m, op, script);
    TakesLockMore(start, events, e, m, op, script);
  }

  lemma AskedMore(start: State, events: seq<Event>, e: Event, r: Request)
    requires Asked(start, events, r)
    ensures Asked(start, events + [e], r)
  {
    if r.op != 0 {
      var script :| TookLock(start, events, r.op, script) && Follows(script, r.body);
      TookLockMore(start, events, e, r.op, script);
    }
  }

  // ---- Steps ------------------------------------------------------------------------------

  /** What a step does to the lock and to what has been issued. */
  ghost predicate Manages(s: State, e: Event) {
    var t := Step(s, e);
    && (t.management.Busy? ==>
          || (s.management.Busy? && t.management.op == s.management.op && t.management.script == s.management.script)
          || (s.management.Free? && e == Lock(t.management.script) && t.management.op == s.nextOp))
    && (t.past.issued == s.past.issued ||
        exists r :: t.past.issued == s.past.issued + [r] && Issues(s, r))
  }

  predicate Issues(s: State, r: Request) {
    r.op != 0 ==> s.management.Busy? && s.management.op == r.op && Follows(s.management.script, r.body)
  }

  lemma ManagesRequest(s: State, e: Event)
    requires e.Request? || e.AskVersion?
    ensures Manages(s, e)
  {
    var t := Step(s, e);
    if t.past.issued != s.past.issued {
      var r := t.past.issued[|s.past.issued|];
      assert t.past.issued == s.past.issued + [r] && Issues(s, r);
    }
  }

  lemma ManagesCaller(s: State, e: Event)
    requires !e.Io? && !e.Request? && !e.AskVersion?
    ensures Manages(s, e)
  {}

  lemma ManagesIo(s: State, e: Event)
    requires e.Io?
    ensures Step(s, e).management == s.management && Step(s, e).past.issued == s.past.issued
  {}

  lemma StepManages(s: State, e: Event)
    ensures Manages(s, e)
  {
    if e.Request? || e.AskVersion? {
      ManagesRequest(s, e);
    } else if !e.Io? {
      ManagesCaller(s, e);
    } else {
      ManagesIo(s, e);
    }
  }

  /** A management request that goes out is one that was issued. */
  lemma SentIsIssued(s: State, e: Event)
    requires RequestInv(s) && Logged(s, e).Some?
    ensures Recorded(Logged(s, e).value, s.past.issued)
  {
    var x := Logged(s, e).value;
    if x.RequestOut? && x.request.op != 0 {
      var p := PlacesOf(s);
      assert p.held == [x.request] && Fit(p.held[0]) && x.request in p.held;
      FoundIsIssued(p, x.request);
    }
  }

  lemma LogStep(s: State, e: Event)
    ensures Step(s, e).past.log == Extend(s.past.log, Logged(s, e))
  {}

  lemma RecordedLater(s: State, e: Event)
    requires RequestInv(s) && Manages(s, e)
    requires forall j :: 0 <= j < |s.past.log| ==> Recorded(s.past.log[j], s.past.issued)
    ensures var t := Step(s, e); forall j :: 0 <= j < |t.past.log| ==> Recorded(t.past.log[j], t.past.issued)
  {
    LogStep(s, e);
    if Logged(s, e).Some? {
      SentIsIssued(s, e);
    }
  }

  lemma LastLock(start: State, before: seq<Event>, e: Event)
    requires e.Lock? && Run(start, before).management.Free?
    ensures TookLock(start, before + [e], Run(start, before).nextOp, e.script)
  {
    assert (before + [e])[..|before|] == before;
    assert TakesLock(start, before + [e], |before|, Run(start, before).nextOp, e.script);
  }

  lemma NewIsAsked(start: State, before: seq<Event>, e: Event, r: Request)
    requires Issues(Run(start, before), r)
    requires var m := Run(start, before).management; m.Busy? ==> TookLock(start, before, m.op, m.script)
    ensures Asked(start, before + [e], r)
  {
    AskedMore(start, before, e, r);
  }

  lemma IssuedLater(start: State, before: seq<Event>, e: Event, issued: seq<Request>)
    requires ScriptInv(start, before)
    requires var s := Run(start, before);
             issued == s.past.issued || exists r :: issued == s.past.issued + [r] && Issues(s, r)
    ensures forall i :: 0 <= i < |issued| ==> Asked(start, before + [e], issued[i])
  {
    var s := Run(start, before);
    forall i | 0 <= i < |issued|
      ensures Asked(start, before + [e], issued[i])
    {
      if i < |s.past.issued| {
        assert issued[i] == s.past.issued[i];
        AskedMore(start, before, e, issued[i]);
      } else {
        NewIsAsked(start, before, e, issued[i]);
      }
    }
  }

  lemma ScriptStep(start: State, before: seq<Event>, e: Event)
    requires ScriptInv(start, before)
    ensures ScriptInv(start, before + [e])
  {
    var s := Run(start, before);
    var t := Step(s, e);
    assert (before + [e])[..|before|] == before;
    assert Run(start, before + [e]) == t;
    StepManages(s, e);
    RequestStep(s, e);
    RecordedLater(s, e);
    IssuedLater(start, before, e, t.past.issued);
    if t.management.Busy? {
      if s.management.Busy? && t.management.op == s.management.op && t.management.script == s.management.script {
        TookLockMore(start, before, e, s.management.op, s.management.script);
      } else {
        LastLock(start, before, e);
      }
    }
  }

  predicate Blank(start: State) {
    start.management.Free? && start.past.issued == [] && start.past.log == []
  }

  lemma ScriptFirst(start: State)
    requires Blank(start) && RequestInv(start)
    ensures ScriptInv(start, [])
  {
    assert Run(start, []) == start;
  }

  lemma ScriptRun(start: State, events: seq<Event>)
    requires Blank(start) && RequestInv(start)
    ensures ScriptInv(start, events)
  {
    var holds := (es: seq<Event>) => ScriptInv(start, es);
    ScriptFirst(start);
    forall before, e | holds(before)
      ensures holds(before + [e])
    {
      ScriptStep(start, before, e);
    }
    ByEvents(holds, events);
  }

  lemma ScriptHolds(cfg: Config, imu: nat, motor: nat, now: int, events: seq<Event>)
    ensures ScriptInv(Init(cfg, imu, motor, now), events)
  {
    InitRequests(cfg, imu, motor, now);
    ScriptRun(Init(cfg, imu, motor, now), events);
  }

  // ---- An operation takes the lock once ---------------------------------------------------

  lemma NextOpGrows(s: State, e: Event)
    ensures Step(s, e).nextOp >= s.nextOp
    ensures e.Lock? && s.management.Free? ==> Step(s, e).nextOp > s.nextOp
  {}

  lemma {:induction false} NextOpMonotone(start: State, events: seq<Event>, m: nat)
    requires m <= |events|
    ensures Run(start, events[..m]).nextOp <= Run(start, events).nextOp
    decreases |events|
  {
    if m == |events| {
      assert events[..m] == events;
    } else {
      var before := events[..|events| - 1];
      NextOpMonotone(start, before, m);
      assert before[..m] == events[..m];
      NextOpGrows(Run(start, before), events[|events| - 1]);
    }
  }

  lemma LaterLocksHaveLaterNumbers(start: State, events: seq<Event>, m: nat, n: nat, op: nat, script: Script)
    requires TakesLock(start, events, m, op, script) && m < n <= |events|
    ensures Run(start, events[..n]).nextOp > op
  {
    AfterNext(Step, start, events, m);
    NextOpGrows(Run(start, events[..m]), events[m]);
    NextOpMonotone(start, events[..n], m + 1);
    assert events[..n][..m + 1] == events[..m + 1];
  }

  lemma OneLock(start: State, events: seq<Event>, op: nat, a: Script, b: Script)
    requires TookLock(start, events, op, a) && TookLock(start, events, op, b)
    ensures a == b
  {
    var m: nat :| TakesLock(start, events, m, op, a);
    var n: nat :| TakesLock(start, events, n, op, b);
    SameLock(start, events, m, n, op, a, b);
  }

  lemma SameLock(start: State, events: seq<Event>, m: nat, n: nat, op: nat, a: Script, b: Script)
    requires TakesLock(start, events, m, op, a) && TakesLock(start, events, n, op, b)
    ensures a == b
  {
    if m < n {
      LaterLocksHaveLaterNumbers(start, events, m, n, op, a);
    }
    if n < m {
      LaterLocksHaveLaterNumbers(start, events, n, m, op, b);
    }
  }

  // ---- Theorems ---------------------------------------------------------------------------

  /** Over every run: a management request on the wire was sent by an operation that took the lock once, and
      it is what that operation was asked to send: a configuration write has the caller's image,
      byte for byte, and the read before it is the one of its kind. */
  lemma OperationsSendWhatWasAsked(
    cfg: Config, imu: nat, motor: nat, now: int, events: seq<Event>, j: nat, script: Script)
    requires var log := Run(Init(cfg, imu, motor, now), events).past.log;
             j < |log| && log[j].RequestOut? && log[j].request.op != 0
    ensures var r := Run(Init(cfg, imu, motor, now), events).past.log[j].request;
            && (exists x :: TookLock(Init(cfg, imu, motor, now), events, r.op, x))
            && (TookLock(Init(cfg, imu, motor, now), events, r.op, script) ==> Follows(script, r.body))
  {
    var start := Init(cfg, imu, motor, now);
    ScriptHolds(cfg, imu, motor, now, events);
    var s := Run(start, events);
    var r := s.past.log[j].request;
    assert Recorded(s.past.log[j], s.past.issued);
    var i :| 0 <= i < |s.past.issued| && s.past.issued[i] == r;
    assert Asked(start, events, s.past.issued[i]);
    var x :| TookLock(start, events, r.op, x) && Follows(x, r.body);
    if TookLock(start, events, r.op, script) {
      OneLock(start, events, r.op, script, x);
    }
  }

  /** In particular: what goes out as a configuration write is the ID and image of its caller. */
  lemma WritesCarryTheImage(
    cfg: Config, imu: nat, motor: nat, now: int, events: seq<Event>, j: nat, id: Byte, image: Payload)
    requires var log := Run(Init(cfg, imu, motor, now), events).past.log;
             && j < |log| && log[j].RequestOut?
             && log[j].request.op != 0 && log[j].request.body != [] && log[j].request.body[0] in {13, 16, 149}
             && TookLock(Init(cfg, imu, motor, now), events, log[j].request.op, WriteConfig(id, image))
    ensures Run(Init(cfg, imu, motor, now), events).past.log[j].request.body == [id] + image
  {
    OperationsSendWhatWasAsked(cfg, imu, motor, now, events, j, WriteConfig(id, image));
  }

  /** The operation that holds the lock makes its next request: first the read, then, once that was
      verified, the write. */
  lemma AsksInOrder(s: State, free: Payload, deadline: int, id: Byte, image: Payload)
    requires s.management.Busy? && s.management.script == WriteConfig(id, image) && s.management.phase.Ready?
    requires s.sched.running && (id == 13 || id == 16 || id == 149) && |image| < 512
    ensures var t := Step(s, Event.Request(free, deadline));
            && |t.past.issued| == |s.past.issued| + 1
            && var r := t.past.issued[|s.past.issued|];
               && r.body == (if s.management.verified then [id] + image else [if id == 13 then 14 else 17])
               && r.expected == r.body[0] && r.op == s.management.op && r.deadline == deadline && r.stopOnTimeout
               && t.sched.requests == s.sched.requests + [r]
               && t.management == s.management.(phase := Client.Phase.Waiting(r.id))
  {}

  /** Any other operation sends the requests of its choice, as long as they are management requests and not
      configuration writes. */
  lemma OthersSendTheirRequests(s: State, free: Payload, deadline: int)
    requires s.management.Busy? && s.management.script.Other? && s.management.phase.Ready? && s.sched.running
    ensures var t := Step(s, Event.Request(free, deadline));
            if 1 <= |free| <= 512 && free[0] in {14, 17, 58, 130, 131, 132, 133}
            then && |t.past.issued| == |s.past.issued| + 1
                 && var r := t.past.issued[|s.past.issued|];
                    && r.body == free && r.expected == free[0] && r.op == s.management.op
                    && r.deadline == deadline && r.stopOnTimeout
                    && t.sched.requests == s.sched.requests + [r]
                    && t.management == s.management.(phase := Client.Phase.Waiting(r.id))
            else t == s.(management := s.management.(phase := Over))
  {}

  /** A request that cannot be made, because the client has stopped or the image is too long for a payload,
      ends the operation, and nothing is sent. */
  lemma RefusedEndsTheOperation(s: State, free: Payload, deadline: int, id: Byte, image: Payload)
    requires s.management.Busy? && s.management.script == WriteConfig(id, image) && s.management.phase.Ready?
    requires !s.sched.running || (s.management.verified && |image| >= 512)
    ensures Step(s, Event.Request(free, deadline)) == s.(management := s.management.(phase := Over))
  {}

  /** The write is made after the read if and only if the reply is an image of its kind whose first four
      bytes are those of the image to be written. */
  lemma GateOpensExactlyWhen(s: State, k: nat, id: Byte, image: Payload)
    requires s.management.Busy? && s.management.script == WriteConfig(id, image) && !s.management.verified
    requires s.management.phase.Waiting? && k < |s.past.completions|
    requires s.past.completions[k].request.id == s.management.phase.id
    ensures var t, outcome := Step(s, Wake(k)), s.past.completions[k].outcome;
            if outcome.Reply? && 5 <= |outcome.packet.payload| <= 512
               && outcome.packet.payload[0] == (if id == 13 then 14 else 17)
               && |image| >= 4 && outcome.packet.payload[1..5] == image[..4]
            then t.management == Busy(s.management.op, WriteConfig(id, image), true, Ready)
            else t.management.Busy? && t.management.phase.Over?
  {
    var outcome := s.past.completions[k].outcome;
    if outcome.Reply? && |outcome.packet.payload| >= 5 {
      assert outcome.packet.payload[1..][..4] == outcome.packet.payload[1..5];
    }
  }

  /** Any other operation goes on to its next request if and only if it got a reply. */
  lemma OthersGoOnExactlyWhenAnswered(s: State, k: nat)
    requires s.management.Busy? && s.management.script.Other? && s.management.phase.Waiting?
    requires k < |s.past.completions| && s.past.completions[k].request.id == s.management.phase.id
    ensures var t := Step(s, Wake(k));
            t == s.(management := t.management) && t.management ==
            s.management.(phase := if s.past.completions[k].outcome.Reply? then Ready else Over)
  {}

  /** The lock is taken exactly when it is free, under a new number, and given up exactly when its holder is
      not waiting for a reply. */
  lemma LockIsExclusive(s: State, script: Script)
    ensures var t := Step(s, Lock(script));
            if s.management.Free?
            then t == s.(management := Busy(s.nextOp, script, false, Ready), nextOp := s.nextOp + 1) else t == s
    ensures var t := Step(s, Unlock);
            if s.management.Busy? && !s.management.phase.Waiting? then t == s.(management := Free) else t == s
  {}
}
