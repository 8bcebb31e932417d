/**
 Starvation. A refreshed command goes to the back of the queue, so a caller that keeps refreshing one
 command while another keeps queueing a second can keep the first from ever being written: there is
 such a run with any number of pops. Only refreshing does this: a command that is neither replaced nor
 cleared is among the next six popped.
 */
module Starvation {
  import opened Wrappers
  import opened Scheduling
  import opened Client
  import opened Runs
  import opened CommandLaws
  import opened Walks
  import opened Witnesses

  /** The pop takes a command while one with the given ID is queued, and takes another one. */
  predicate PassesOver(s: State, id: nat) {
    && (exists i :: 0 <= i < |CommandsOf(s)| && CommandsOf(s)[i].body != [] && CommandsOf(s)[i].body[0] == id)
    && CommandsOf(s)[0].body != [] && CommandsOf(s)[0].body[0] != id
  }

  /** Every pop of the events passes over the ID. */
  predicate Starves(s: State, events: seq<Event>, id: nat) {
    forall i :: 0 <= i < |events| && MovesOf(s, events)[i].Pop? ==> PassesOver(Run(s, events[..i]), id)
  }

  function Start(): State {
    Init(CONFIG, 0, 0, 0)
  }

  predicate StarvedBy(events: seq<Event>, n: nat, t: State) {
    Run(Start(), events) == t && Pops(MovesOf(Start(), events)) == n && Starves(Start(), events, 5)
  }

  /** Reached after n pops, all of which passed over the ID 5. */
  ghost predicate Starved(n: nat, t: State) {
    exists events :: StarvedBy(events, n, t)
  }

  lemma OneMore(s: State, events: seq<Event>, e: Event)
    ensures Run(s, events + [e]) == Step(Run(s, events), e)
    ensures MovesOf(s, events + [e]) == MovesOf(s, events) + [MoveOf(Run(s, events), e)]
    ensures Pops(MovesOf(s, events + [e])) == Pops(MovesOf(s, events)) + One(MoveOf(Run(s, events), e).Pop?)
  {
    assert (events + [e])[..|events|] == events;
    var moves := MovesOf(s, events + [e]);
    assert moves[..|moves| - 1] == MovesOf(s, events);
  }

  lemma StarvesMore(s: State, events: seq<Event>, e: Event, id: nat)
    requires Starves(s, events, id)
    requires MoveOf(Run(s, events), e).Pop? ==> PassesOver(Run(s, events), id)
    ensures Starves(s, events + [e], id)
  {
    OneMore(s, events, e);
    var more := events + [e];
    forall i | 0 <= i < |more| && MovesOf(s, more)[i].Pop?
      ensures PassesOver(Run(s, more[..i]), id)
    {
      assert more[..i] == if i < |events| then events[..i] else events;
    }
  }

  lemma StarvedStep(n: nat, s: State, e: Event)
    requires Starved(n, s) && (MoveOf(s, e).Pop? ==> PassesOver(s, 5))
    ensures Starved(n + One(MoveOf(s, e).Pop?), Step(s, e))
  {
    var events :| StarvedBy(events, n, s);
    OneMore(Start(), events, e);
    StarvesMore(Start(), events, e, 5);
    assert StarvedBy(events + [e], n + One(MoveOf(s, e).Pop?), Step(s, e));
  }

  // ---- One round --------------------------------------------------------------------------

  /** Whatever is reached is reached by way of steps other than pops. */
  ghost predicate ClosedBut(reach: State -> bool) {
    forall s, e :: reach(s) && s.pc != Popping ==> reach(Step(s, e))
  }

  /** Pops that pass over the ID 5 lead on. */
  ghost predicate Passing(reach: State -> bool, next: State -> bool) {
    forall s :: reach(s) && s.pc == Popping && PassesOver(s, 5) ==> next(Step(s, Io(Fine)))
  }

  lemma Hop(reach: State -> bool, s: State) returns (t: State)
    requires ClosedBut(reach) && reach(s) && s.pc != Popping && Quietly(s).Some?
    ensures reach(t) && t == Quietly(s).value
  {
    QuietlySteps(s);
    t := Quietly(s).value;
  }

  lemma HopCall(reach: State -> bool, s: State, e: Event) returns (t: State)
    requires ClosedBut(reach) && reach(s) && s.pc != Popping && Called(s, e).Some?
    ensures reach(t) && t == Called(s, e).value
  {
    CalledSteps(s, e);
    t := Called(s, e).value;
  }

  lemma HopPop(reach: State -> bool, next: State -> bool, s: State) returns (t: State)
    requires Passing(reach, next) && reach(s) && s.pc == Popping && CommandsOf(s) != [] && PassesOver(s, 5)
    ensures next(t) && t == HeadOut(s)
  {
    QuietlySteps(s);
    t := HeadOut(s);
  }

  lemma HopWrite(reach: State -> bool, s: State) returns (t: State)
    requires ClosedBut(reach) && reach(s) && Written(s).Some?
    ensures reach(t) && t == Written(s).value
  {
    WrittenSteps(s);
    t := Written(s).value;
  }

  lemma HopTake(reach: State -> bool, s: State) returns (t: State)
    requires ClosedBut(reach) && reach(s) && Taken(s).Some?
    ensures reach(t) && t == Taken(s).value
  {
    TakenSteps(s);
    t := Taken(s).value;
  }

  lemma HopStart(reach: State -> bool, s: State) returns (t: State)
    requires ClosedBut(reach) && reach(s) && s.pc == Finishing(ToStart) && s.hand == []
    ensures reach(t) && t == Started(s)
  {
    StartedSteps(s);
    t := Started(s);
  }

  /** Running at time 0, with polls disabled and no requests. */
  predicate Steady(s: State) {
    && s.cfg == CONFIG && s.now == 0
    && s.sched == Sched(true, s.sched.commands, [], None, None, Channel(0, false, 0), Channel(0, false, 0))
  }

  /** The I/O thread waits for input and only a command with ID 5 is queued. */
  predicate Resting(s: State) {
    s.pc == Selecting && Steady(s) && |s.sched.commands| == 1 && s.sched.commands[0].body == [5]
  }

  /** Now one with ID 6 is ahead of it. */
  predicate Pressed(s: State) {
    && Steady(s)
    && |s.sched.commands| == 2 && s.sched.commands[0].body == [6] && s.sched.commands[1].body == [5]
  }

  lemma Rotates(q: seq<Command>, c: Command, d: Command)
    requires |q| == 1 && q[0].body == [5] && c.body == [6] && d.body == [5]
    ensures Replace(q, c) == q + [c] && Replace(q + [c], d) == [c, d]
  {
    assert q[1..] == [] && (q + [c])[1..] == [c] && [c][1..] == [];
    assert Without(q, c) == [q[0]];
    assert Without(q + [c], d) == Without([c], d) == [c];
  }

  /** A command with ID 6 is queued, and the one with ID 5 is refreshed. */
  lemma WalkRefresh(reach: State -> bool, s: State) returns (t: State)
    requires ClosedBut(reach) && reach(s) && Resting(s)
    ensures reach(t) && t.pc == Selecting && Pressed(t)
  {
    var m := |s.past.log|;
    Rotates(s.sched.commands, Command([6], m), Command([5], m + 1));
    t := HopCall(reach, s, Control([6], true));
    t := HopCall(reach, t, Control([5], true));
  }

  lemma WalkOther(reach: State -> bool, next: State -> bool, s: State) returns (t: State)
    requires ClosedBut(reach) && ClosedBut(next) && Passing(reach, next) && reach(s) && s.pc == Selecting && Pressed(s)
    ensures next(t) && t.pc == Sweep(true) && Steady(t)
    ensures |t.sched.commands| == 1 && t.sched.commands[0].body == [5]
  {
    t := Hop(reach, s);
    t := Hop(reach, t);
    t := WalkPassed(reach, next, t);
  }

  lemma WalkPassed(reach: State -> bool, next: State -> bool, s: State) returns (t: State)
    requires ClosedBut(next) && Passing(reach, next) && reach(s) && s.pc == Popping && Pressed(s)
    ensures next(t) && t.pc == Sweep(true) && Steady(t)
    ensures |t.sched.commands| == 1 && t.sched.commands[0].body == [5]
  {
    assert CommandsOf(s)[1].body[0] == 5;
    t := HopPop(reach, next, s);
    t := HopWrite(next, t);
  }

  lemma WalkToTop(reach: State -> bool, s: State) returns (t: State)
    requires ClosedBut(reach) && reach(s) && s.pc == Sweep(true) && Steady(s)
    ensures reach(t) && t.pc == LoopTop && Steady(t) && t.sched == s.sched
  {
    t := WalkToTake(reach, s);
    t := HopTake(reach, t);
    t := Hop(reach, t);
  }

  lemma WalkToTake(reach: State -> bool, s: State) returns (t: State)
    requires ClosedBut(reach) && reach(s) && s.pc == Sweep(true) && Steady(s)
    ensures reach(t) && t.pc.QueryTake? && Steady(t) && t.sched == s.sched
  {
    t := Hop(reach, s);
    t := Hop(reach, t);
    t := Hop(reach, t);
    t := Hop(reach, t);
  }

  lemma WalkToRest(reach: State -> bool, s: State) returns (t: State)
    requires ClosedBut(reach) && reach(s) && s.pc == LoopTop && Steady(s)
    ensures reach(t) && t.pc == Selecting && Steady(t) && t.sched == s.sched
  {
    t := Hop(reach, s);
    t := Hop(reach, t);
    t := Hop(reach, t);
    t := Hop(reach, t);
  }

  lemma WalkRound(reach: State -> bool, next: State -> bool, s: State) returns (t: State)
    requires ClosedBut(reach) && ClosedBut(next) && Passing(reach, next) && reach(s) && Resting(s)
    ensures next(t) && Resting(t)
  {
    t := WalkRefresh(reach, s);
    t := WalkOther(reach, next, t);
    t := WalkToTop(next, t);
    t := WalkToRest(next, t);
  }

  lemma WalkToFirst(reach: State -> bool) returns (t: State)
    requires ClosedBut(reach) && reach(Start())
    ensures reach(t) && Resting(t)
  {
    t := HopCall(reach, Start(), Connect);
    t := HopStart(reach, t);
    t := Hop(reach, t);
    t := WalkToRest(reach, t);
    t := HopCall(reach, t, Control([5], true));
  }

  lemma StarvedIsClosed(reach: State -> bool, n: nat)
    requires forall t :: reach(t) <==> Starved(n, t)
    ensures ClosedBut(reach)
  {
    forall s, e | reach(s) && s.pc != Popping
      ensures reach(Step(s, e))
    {
      PopIsAtPopping(s, e);
      StarvedStep(n, s, e);
    }
  }

  lemma StarvedPasses(reach: State -> bool, next: State -> bool, n: nat)
    requires forall t :: (reach(t) <==> Starved(n, t)) && (next(t) <==> Starved(n + 1, t))
    ensures Passing(reach, next)
  {
    forall s | reach(s) && s.pc == Popping && PassesOver(s, 5)
      ensures next(Step(s, Io(Fine)))
    {
      StarvedStep(n, s, Io(Fine));
    }
  }

  lemma PopIsAtPopping(s: State, e: Event)
    ensures MoveOf(s, e).Pop? ==> s.pc == Popping
  {}

  lemma NoneYet(n: nat)
    requires n == 0
    ensures Starved(n, Start())
  {
    assert StarvedBy([], n, Start());
  }

  lemma FirstRest(reach: State -> bool, n: nat) returns (t: State)
    requires n == 0 && forall t :: reach(t) <==> Starved(n, t)
    ensures Starved(n, t) && Resting(t)
  {
    NoneYet(n);
    StarvedIsClosed(reach, n);
    t := WalkToFirst(reach);
  }

  lemma OneRound(reach: State -> bool, next: State -> bool, n: nat, s: State) returns (t: State)
    requires forall t :: (reach(t) <==> Starved(n, t)) && (next(t) <==> Starved(n + 1, t))
    requires Starved(n, s) && Resting(s)
    ensures Starved(n + 1, t) && Resting(t)
  {
    StarvedIsClosed(reach, n);
    StarvedIsClosed(next, n + 1);
    StarvedPasses(reach, next, n);
    t := WalkRound(reach, next, s);
  }

  ghost predicate Endures(n: nat) {
    exists t :: Starved(n, t) && Resting(t)
  }

  lemma EnduresFirst(n: nat)
    requires n == 0
    ensures Endures(n)
  {
    var t := FirstRest(u => Starved(n, u), n);
  }

  lemma EnduresNext(n: nat)
    requires Endures(n)
    ensures Endures(n + 1)
  {
    var s :| Starved(n, s) && Resting(s);
    var t := OneRound(u => Starved(n, u), u => Starved(n + 1, u), n, s);
  }

  lemma {:induction false} Climb(p: nat -> bool, n: nat)
    requires forall k: nat :: (k == 0 ==> p(k)) && (p(k) ==> p(k + 1))
    ensures p(n)
  {
    if n > 0 {
      Climb(p, n - 1);
    }
  }

  lemma EnduresAll(n: nat)
    ensures Endures(n)
  {
    forall k: nat
      ensures (k == 0 ==> Endures(k)) && (Endures(k) ==> Endures(k + 1))
    {
      if k == 0 {
        EnduresFirst(k);
      }
      if Endures(k) {
        EnduresNext(k);
      }
    }
    Climb(Endures, n);
  }

  // ---- Theorems ---------------------------------------------------------------------------

  /** For every n there is a run with n pops, at each of which a command with ID 5 is queued and another
      one is popped. */
  lemma RefreshingStarves(n: nat) returns (events: seq<Event>)
    ensures Pops(MovesOf(Init(CONFIG, 0, 0, 0), events)) == n
    ensures Starves(Init(CONFIG, 0, 0, 0), events, 5)
  {
    EnduresAll(n);
    var t :| Starved(n, t) && Resting(t);
    events :| StarvedBy(events, n, t);
  }

  /** Refreshing is the only way: in every run of public calls, a command that is queued and over six pops
      neither replaced nor cleared is one of those popped. */
  lemma SixPopsSuffice(cfg: Config, imu: nat, motor: nat, now: int, before: seq<Event>, c: Command, events: seq<Event>)
    returns (n: nat)
    requires ApiCommands(before) && c in CommandsOf(Run(Init(cfg, imu, motor, now), before))
    requires var s := Run(Init(cfg, imu, motor, now), before);
             Spares(MovesOf(s, events), c) && Pops(MovesOf(s, events)) >= 6
    ensures var s := Run(Init(cfg, imu, motor, now), before);
            n < |events| && PopsNext(Run(s, events[..n]), events[n], c)
  {
    var s := Run(Init(cfg, imu, motor, now), before);
    var at := CommandQueueOfRun(cfg, imu, motor, now, before);
    var k :| 0 <= k < |CommandsOf(s)| && CommandsOf(s)[k] == c;
    n := CommandWaitIsBounded(s, k, events);
  }
}
