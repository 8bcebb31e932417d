/**
 The command queue as a last-value map. `Queue` replays what the code does to the queue; `Live`
 says, without a queue, which accepted commands are still to be written: the newest of their ID
 that neither a clear nor a pop has taken. The queue lists exactly those, oldest first.
 */
module CommandLaws {
  import opened Checksums
  import opened Scheduling
  import opened Client
  import opened Runs

  datatype Move = Keep | Push(command: Command) | Pop | Clear

  function AfterMove(q: seq<Command>, m: Move): seq<Command> {
    match m
    case Keep => q
    case Push(c) => Replace(q, c)
    case Pop => if q == [] then [] else q[1..]
    case Clear => []
  }

  function Replay(q: seq<Command>, moves: seq<Move>): seq<Command> {
    AfterAll(AfterMove, q, moves)
  }

  function Queue(moves: seq<Move>): seq<Command> {
    Replay([], moves)
  }

  /** Whether the command accepted at `i` is still to be written after all `moves`. */
  ghost predicate Live(moves: seq<Move>, i: nat)
    decreases |moves|, 0
  {
    && i < |moves|
    && moves[i].Push?
    && (i < |moves| - 1 ==>
        var before, last := moves[..|moves| - 1], moves[|moves| - 1];
        && Live(before, i)
        && !last.Clear?
        && (last.Push? ==> !SameId(moves[i].command, last.command))
        && (last.Pop? ==> OlderLive(before, i)))
  }

  /** Something accepted before `i` is still to be written, so a pop does not take `i`. */
  ghost predicate OlderLive(moves: seq<Move>, i: nat)
    decreases |moves|, 1
  {
    exists j :: 0 <= j < i && Live(moves, j)
  }

  /** Every accepted command has an ID. */
  predicate HaveIds(moves: seq<Move>) {
    forall i :: 0 <= i < |moves| && moves[i].Push? ==> moves[i].command.body != []
  }

  // ---- The queue lists the live commands --------------------------------------------------

  predicate Ascending(at: seq<nat>) {
    forall k, l :: 0 <= k < l < |at| ==> at[k] < at[l]
  }

  predicate Picks(q: seq<Command>, moves: seq<Move>, at: seq<nat>) {
    && |at| == |q|
    && forall k :: 0 <= k < |at| ==> at[k] < |moves| && moves[at[k]] == Push(q[k])
  }

  /** `q` is the list of the live commands in the order of acceptance; `at` says when. */
  ghost predicate Lists(q: seq<Command>, moves: seq<Move>, at: seq<nat>) {
    Ascending(at) && Picks(q, moves, at) && forall i: nat :: i in at <==> Live(moves, i)
  }

  /** The places kept when commands with the ID of `c` are taken out. */
  function Filtered(q: seq<Command>, at: seq<nat>, c: Command): seq<nat>
    requires |q| == |at|
  {
    if q == [] then []
    else if SameId(q[0], c) then Filtered(q[1..], at[1..], c)
    else [at[0]] + Filtered(q[1..], at[1..], c)
  }

  lemma {:induction false} FilteredIn(q: seq<Command>, at: seq<nat>, c: Command, i: nat)
    requires |q| == |at|
    ensures i in Filtered(q, at, c) <==> exists k :: 0 <= k < |at| && at[k] == i && !SameId(q[k], c)
  {
    if q != [] {
      FilteredIn(q[1..], at[1..], c, i);
      if exists k :: 0 <= k < |at| && at[k] == i && !SameId(q[k], c) {
        var k :| 0 <= k < |at| && at[k] == i && !SameId(q[k], c);
        if k > 0 {
          assert at[1..][k - 1] == i && !SameId(q[1..][k - 1], c);
        }
      }
    }
  }

  lemma {:induction false} FilteredPicks(q: seq<Command>, moves: seq<Move>, at: seq<nat>, c: Command)
    requires Picks(q, moves, at)
    ensures Picks(Without(q, c), moves, Filtered(q, at, c))
  {
    if q != [] {
      FilteredPicks(q[1..], moves, at[1..], c);
    }
  }

  lemma {:induction false} FilteredSubset(q: seq<Command>, at: seq<nat>, c: Command, i: nat)
    requires |q| == |at| && i in Filtered(q, at, c)
    ensures i in at
  {
    FilteredIn(q, at, c, i);
  }

  lemma AscendingFrom(first: nat, rest: seq<nat>)
    requires Ascending(rest) && forall i :: i in rest ==> first < i
    ensures Ascending([first] + rest)
  {
    assert forall k :: 0 <= k < |rest| ==> rest[k] in rest;
  }

  lemma AscendingRest(at: seq<nat>)
    requires Ascending(at) && at != []
    ensures Ascending(at[1..]) && forall i :: i in at[1..] ==> at[0] < i
  {}

  lemma {:induction false} FilteredAscends(q: seq<Command>, at: seq<nat>, c: Command)
    requires |q| == |at| && Ascending(at)
    ensures Ascending(Filtered(q, at, c))
  {
    if q != [] {
      AscendingRest(at);
      FilteredAscends(q[1..], at[1..], c);
      var rest := Filtered(q[1..], at[1..], c);
      forall i | i in rest
        ensures at[0] < i
      {
        FilteredSubset(q[1..], at[1..], c, i);
      }
      AscendingFrom(at[0], rest);
    }
  }

  /** One more move, for a command that is not the new one. */
  lemma LiveStep(moves: seq<Move>, m: Move, i: nat)
    requires i < |moves|
    ensures Live(moves + [m], i) <==>
            && Live(moves, i) && !m.Clear?
            && (m.Push? ==> !SameId(moves[i].command, m.command))
            && (m.Pop? ==> OlderLive(moves, i))
  {
    var all := moves + [m];
    assert all[..|all| - 1] == moves && all[|all| - 1] == m && all[i] == moves[i];
  }

  lemma LiveNew(moves: seq<Move>, m: Move)
    ensures Live(moves + [m], |moves|) <==> m.Push?
  {}

  lemma PicksMore(q: seq<Command>, moves: seq<Move>, at: seq<nat>, m: Move)
    requires Picks(q, moves, at)
    ensures Picks(q, moves + [m], at)
  {}

  lemma PushLists(q: seq<Command>, moves: seq<Move>, at: seq<nat>, c: Command) returns (after: seq<nat>)
    requires Lists(q, moves, at)
    ensures Lists(Replace(q, c), moves + [Push(c)], after)
  {
    var kept := Filtered(q, at, c);
    after := kept + [|moves|];
    FilteredPicks(q, moves, at, c);
    FilteredAscends(q, at, c);
    PicksMore(Without(q, c), moves, kept, Push(c));
    forall i: nat
      ensures i in after <==> Live(moves + [Push(c)], i)
    {
      PushLive(q, moves, at, c, i);
    }
  }

  lemma PushLive(q: seq<Command>, moves: seq<Move>, at: seq<nat>, c: Command, i: nat)
    requires Lists(q, moves, at)
    ensures i in Filtered(q, at, c) + [|moves|] <==> Live(moves + [Push(c)], i)
  {
    FilteredIn(q, at, c, i);
    if i < |moves| {
      LiveStep(moves, Push(c), i);
      if i in at {
        var k :| 0 <= k < |at| && at[k] == i;
        assert moves[at[k]] == Push(q[k]);
        assert forall l :: 0 <= l < |at| && at[l] == i ==> l == k;
      }
    } else {
      LiveNew(moves, Push(c));
      assert forall k :: 0 <= k < |at| ==> at[k] < |moves|;
    }
  }

  lemma PopLists(q: seq<Command>, moves: seq<Move>, at: seq<nat>) returns (after: seq<nat>)
    requires Lists(q, moves, at)
    ensures Lists(AfterMove(q, Pop), moves + [Pop], after)
  {
    after := if at == [] then [] else at[1..];
    PicksMore(q, moves, at, Pop);
    forall i: nat
      ensures i in after <==> Live(moves + [Pop], i)
    {
      PopLive(q, moves, at, i);
    }
  }

  lemma PopLive(q: seq<Command>, moves: seq<Move>, at: seq<nat>, i: nat)
    requires Lists(q, moves, at)
    ensures i in (if at == [] then [] else at[1..]) <==> Live(moves + [Pop], i)
  {
    if i >= |moves| {
      LiveNew(moves, Pop);
      assert forall k :: 0 <= k < |at| ==> at[k] < |moves|;
    } else {
      LiveStep(moves, Pop, i);
      if at != [] {
        assert at == [at[0]] + at[1..];
        assert at[0] in at;
        if i in at[1..] {
          assert Live(moves, at[0]) && at[0] < i;
        } else if Live(moves, i) {
          assert i == at[0];
          assert forall j: nat :: j < i ==> j !in at;
        }
      }
    }
  }

  lemma MoveLists(q: seq<Command>, moves: seq<Move>, at: seq<nat>, m: Move) returns (after: seq<nat>)
    requires Lists(q, moves, at)
    ensures Lists(AfterMove(q, m), moves + [m], after)
  {
    match m
    case Push(c) => after := PushLists(q, moves, at, c);
    case Pop => after := PopLists(q, moves, at);
    case _ =>
      after := if m.Keep? then at else [];
      PicksMore(q, moves, at, m);
      forall i: nat
        ensures i in after <==> Live(moves + [m], i)
      {
        if i < |moves| {
          LiveStep(moves, m, i);
        } else {
          LiveNew(moves, m);
          assert forall k :: 0 <= k < |at| ==> at[k] < |moves|;
        }
      }
  }

  /** Over every history: the queue holds exactly the live commands, oldest first. */
  lemma {:induction false} QueueIsLastValueMap(moves: seq<Move>) returns (at: seq<nat>)
    ensures Lists(Queue(moves), moves, at)
    decreases |moves|
  {
    if moves == [] {
      at := [];
    } else {
      var before, last := moves[..|moves| - 1], moves[|moves| - 1];
      assert moves == before + [last];
      at := QueueIsLastValueMap(before);
      at := MoveLists(Queue(before), before, at, last);
    }
  }

  // ---- IDs are distinct and few -----------------------------------------------------------

  predicate DistinctIds(q: seq<Command>) {
    && (forall i :: 0 <= i < |q| ==> q[i].body != [])
    && (forall i, j :: 0 <= i < j < |q| ==> !SameId(q[i], q[j]))
  }

  lemma {:induction false} WithoutDistinct(q: seq<Command>, c: Command)
    requires DistinctIds(q)
    ensures DistinctIds(Without(q, c))
    ensures forall d :: d in Without(q, c) <==> d in q && !SameId(d, c)
  {
    if q != [] {
      assert DistinctIds(q[1..]);
      WithoutDistinct(q[1..], c);
      var rest := Without(q[1..], c);
      assert q == [q[0]] + q[1..];
      assert forall d :: d in rest ==> d in q[1..];
      assert forall d :: d in q[1..] ==> !SameId(q[0], d);
      assert forall i :: 0 <= i < |rest| ==> rest[i] in rest;
    }
  }

  lemma {:induction false} QueueDistinct(moves: seq<Move>)
    requires HaveIds(moves)
    ensures DistinctIds(Queue(moves))
    decreases |moves|
  {
    if moves != [] {
      var before, last := moves[..|moves| - 1], moves[|moves| - 1];
      QueueDistinct(before);
      if last.Push? {
        var q := Queue(before);
        WithoutDistinct(q, last.command);
        assert forall i :: 0 <= i < |Without(q, last.command)| ==>
            Without(q, last.command)[i] in Without(q, last.command);
      }
    }
  }

  function Ids(q: seq<Command>): set<Byte> {
    set i | 0 <= i < |q| && q[i].body != [] :: q[i].body[0]
  }

  lemma {:induction false} DistinctCount(q: seq<Command>)
    requires DistinctIds(q)
    ensures |Ids(q)| == |q|
  {
    if q != [] {
      var n := |q| - 1;
      DistinctCount(q[..n]);
      assert Ids(q) == Ids(q[..n]) + {q[n].body[0]};
      assert q[n].body[0] !in Ids(q[..n]) by {
        assert forall i :: 0 <= i < n ==> !SameId(q[i], q[n]);
      }
    } else {
      assert Ids(q) == {};
    }
  }

  /** Duty, current, brake current, speed, servo position and output suppression. */
  const COMMAND_IDS: set<Byte> := {5, 6, 7, 8, 12, 63}

  predicate FromApi(moves: seq<Move>) {
    forall i :: 0 <= i < |moves| && moves[i].Push? ==>
        moves[i].command.body != [] && moves[i].command.body[0] in COMMAND_IDS
  }

  lemma SubsetSize(a: set<Byte>, b: set<Byte>)
    requires a <= b
    ensures |a| <= |b|
  {
    assert b == a + (b - a);
  }

  /** At most one queued command per ID, so never more than six. */
  lemma QueueIsShort(moves: seq<Move>)
    requires FromApi(moves)
    ensures DistinctIds(Queue(moves)) && Ids(Queue(moves)) <= COMMAND_IDS && |Queue(moves)| <= 6
  {
    QueueDistinct(moves);
    var q := Queue(moves);
    DistinctCount(q);
    var at := QueueIsLastValueMap(moves);
    forall id | id in Ids(q)
      ensures id in COMMAND_IDS
    {
      var i :| 0 <= i < |q| && q[i].body != [] && q[i].body[0] == id;
      assert moves[at[i]] == Push(q[i]);
    }
    SubsetSize(Ids(q), COMMAND_IDS);
    assert |COMMAND_IDS| == 6;
  }

  // ---- Waiting ----------------------------------------------------------------------------

  predicate IsPop(m: Move) {
    m.Pop?
  }

  function Pops(moves: seq<Move>): nat {
    CountOf(IsPop, moves)
  }

  /** No move replaces `c` or clears the queue. */
  predicate Spares(moves: seq<Move>, c: Command) {
    forall i :: 0 <= i < |moves| ==> !moves[i].Clear? && (moves[i].Push? ==> !SameId(c, moves[i].command))
  }

  lemma {:induction false} WithoutKeepsPlace(q: seq<Command>, k: nat, c: Command) returns (l: nat)
    requires k < |q| && !SameId(q[k], c)
    ensures l <= k && l < |Without(q, c)| && Without(q, c)[l] == q[k]
  {
    if k == 0 {
      l := 0;
    } else {
      l := WithoutKeepsPlace(q[1..], k - 1, c);
      if !SameId(q[0], c) {
        l := l + 1;
      }
    }
  }

  /** The moves up to `n` pop at most `others` commands and leave `c` at the head for the next one. */
  ghost predicate PoppedAt(q: seq<Command>, moves: seq<Move>, n: nat, c: Command, others: nat) {
    && n < |moves| && moves[n].Pop?
    && Pops(moves[..n]) <= others
    && Replay(q, moves[..n]) != [] && Replay(q, moves[..n])[0] == c
  }

  /** Either `c` has been popped already, or it has moved forward by at least the pops so far. */
  lemma {:induction false} MovesForward(q: seq<Command>, k: nat, moves: seq<Move>) returns (n: nat)
    requires k < |q| && Spares(moves, q[k])
    ensures PoppedAt(q, moves, n, q[k], k) ||
            (Pops(moves) <= k && n <= k - Pops(moves) && n < |Replay(q, moves)| && Replay(q, moves)[n] == q[k])
    decreases |moves|
  {
    if moves == [] {
      n := k;
    } else {
      var before, last := moves[..|moves| - 1], moves[|moves| - 1];
      n := MovesForward(q, k, before);
      if PoppedAt(q, before, n, q[k], k) {
        assert moves[..n] == before[..n];
      } else {
        match last
        case Keep =>
        case Push(c) => n := WithoutKeepsPlace(Replay(q, before), n, c);
        case Pop =>
          if n == 0 {
            n := |before|;
          } else {
            n := n - 1;
          }
        case Clear =>
      }
    }
  }

  /** Bounded bypass: unless it is replaced or cleared, a command at index k is popped after at most
      k others. */
  lemma BoundedBypass(q: seq<Command>, k: nat, moves: seq<Move>) returns (n: nat)
    requires k < |q| && Spares(moves, q[k]) && Pops(moves) > k
    ensures PoppedAt(q, moves, n, q[k], k)
  {
    n := MovesForward(q, k, moves);
  }

  // ---- Runs of the client -----------------------------------------------------------------

  /** What a step of the client does to the command queue. */
  function MoveOf(s: State, e: Event): Move {
    match e
    case Control(body, _) => if Accepts(s.sched, body) then Push(Command(body, |s.past.log|)) else Keep
    case Connect => if s.pc == Stopped && !s.sched.running then Clear else Keep
    case Io(_) =>
      if s.pc == Popping then Pop
      else if s.pc == Clearing || (s.pc.WatchdogLock? && WatchdogDue(s.sched, s.pc.stamp)) then Clear
      else Keep
    case _ => Keep
  }

  lemma MovesCaller(s: State, e: Event)
    requires !e.Io?
    ensures Step(s, e).sched.commands == AfterMove(s.sched.commands, MoveOf(s, e))
  {}

  lemma MovesPlain(s: State, e: Event)
    requires e.Io? && Plain(s.pc)
    ensures Step(s, e).sched.commands == AfterMove(s.sched.commands, MoveOf(s, e))
  {}

  lemma MovesWrite(s: State, e: Event)
    requires e.Io? && s.pc.Writing?
    ensures Step(s, e).sched.commands == AfterMove(s.sched.commands, MoveOf(s, e))
  {}

  lemma MovesQueues(s: State, e: Event)
    requires e.Io? && Queues(s.pc)
    ensures Step(s, e).sched.commands == AfterMove(s.sched.commands, MoveOf(s, e))
  {}

  lemma MovesSchedules(s: State, e: Event)
    requires e.Io? && Schedules(s.pc)
    ensures Step(s, e).sched.commands == AfterMove(s.sched.commands, MoveOf(s, e))
  {}

  lemma MovesFinish(s: State, e: Event)
    requires e.Io? && s.pc.Finishing?
    ensures Step(s, e).sched.commands == AfterMove(s.sched.commands, MoveOf(s, e))
  {}

  lemma MovesStep(s: State, e: Event)
    ensures Step(s, e).sched.commands == AfterMove(s.sched.commands, MoveOf(s, e))
  {
    if !e.Io? {
      MovesCaller(s, e);
    } else if Plain(s.pc) {
      MovesPlain(s, e);
    } else if s.pc.Finishing? {
      MovesFinish(s, e);
    } else if s.pc.Writing? {
      MovesWrite(s, e);
    } else if Queues(s.pc) {
      MovesQueues(s, e);
    } else {
      MovesSchedules(s, e);
    }
  }

  function MovesOf(s: State, events: seq<Event>): seq<Move> {
    Trace(Step, MoveOf, s, events)
  }

  function CommandsOf(s: State): seq<Command> {
    s.sched.commands
  }

  lemma RunReplays(s: State, events: seq<Event>)
    ensures CommandsOf(Run(s, events)) == Replay(CommandsOf(s), MovesOf(s, events))
  {
    forall t, e
      ensures CommandsOf(Step(t, e)) == AfterMove(CommandsOf(t), MoveOf(t, e))
    {
      MovesStep(t, e);
    }
    Replays(Step, MoveOf, CommandsOf, AfterMove, s, events);
  }

  predicate ApiCommands(events: seq<Event>) {
    forall i :: 0 <= i < |events| && events[i].Control? && events[i].body != [] ==> events[i].body[0] in COMMAND_IDS
  }

  lemma PushIsControl(s: State, e: Event)
    requires MoveOf(s, e).Push?
    ensures e.Control? && e.body != [] && MoveOf(s, e).command.body == e.body
  {}

  lemma MovesFromApi(s: State, events: seq<Event>)
    requires ApiCommands(events)
    ensures FromApi(MovesOf(s, events))
  {
    var moves := MovesOf(s, events);
    forall i | 0 <= i < |moves| && moves[i].Push?
      ensures moves[i].command.body != [] && moves[i].command.body[0] in COMMAND_IDS
    {
      TraceAt(Step, MoveOf, s, events, i);
      PushIsControl(Run(s, events[..i]), events[i]);
    }
  }

  /** Over every run: the client's command queue lists the live commands of its own history, oldest
      first, one per ID and at most six. */
  lemma CommandQueueOfRun(cfg: Config, imu: nat, motor: nat, now: int, events: seq<Event>) returns (at: seq<nat>)
    requires ApiCommands(events)
    ensures var s := Init(cfg, imu, motor, now);
            var q := CommandsOf(Run(s, events));
            Lists(q, MovesOf(s, events), at) && DistinctIds(q) && |q| <= 6
  {
    var s := Init(cfg, imu, motor, now);
    var moves := MovesOf(s, events);
    RunReplays(s, events);
    MovesFromApi(s, events);
    at := QueueIsLastValueMap(moves);
    QueueIsShort(moves);
  }

  /** Over every run: a command queued at index k is handed to the writer after at most k others,
      once enough pops have happened and unless it was replaced or cleared first. */
  lemma CommandWaitIsBounded(s: State, k: nat, events: seq<Event>) returns (n: nat)
    requires k < |CommandsOf(s)|
    requires Spares(MovesOf(s, events), CommandsOf(s)[k]) && Pops(MovesOf(s, events)) > k
    ensures n < |events| && PopsNext(Run(s, events[..n]), events[n], CommandsOf(s)[k])
    ensures Pops(MovesOf(s, events[..n])) <= k
  {
    var q, moves := CommandsOf(s), MovesOf(s, events);
    n := BoundedBypass(q, k, moves);
    TraceAt(Step, MoveOf, s, events, n);
    RunReplays(s, events[..n]);
    PopIsPopping(Run(s, events[..n]), events[n]);
  }

  /** The step hands `c` to the writer. */
  predicate PopsNext(s: State, e: Event, c: Command) {
    e.Io? && s.pc == Popping && CommandsOf(s) != [] && CommandsOf(s)[0] == c
  }

  lemma PopIsPopping(s: State, e: Event)
    requires MoveOf(s, e).Pop?
    ensures e.Io? && s.pc == Popping
  {}
}
