/**
 The command watchdog. When it fires it discards the queued commands; no command accepted before
 the safe stop is written after it. It fires only when the last accepted control command is at
 least the timeout old, and once per such command.
 */
module WatchdogLaws {
  import opened Framing
  import opened Wrappers
  import opened Scheduling
  import opened Client

  predicate Refreshes(e: Entry) {
    e.Accepted? && e.refresh
  }

  /** Nothing that ends or renews a watchdog period lies strictly between the two positions. */
  predicate QuietBetween(log: seq<Entry>, from: nat, to: nat)
    requires to <= |log|
  {
    forall k :: from < k < to ==> !log[k].Fired? && !log[k].Connected? && !Refreshes(log[k])
  }

  predicate NoFiringBetween(log: seq<Entry>, from: nat, to: nat)
    requires to <= |log|
  {
    forall k :: from < k < to ==> !log[k].Fired?
  }

  predicate Fresh(log: seq<Entry>, c: Command) {
    && c.ticket < |log| && log[c.ticket].Accepted? && log[c.ticket].body == c.body
    && NoFiringBetween(log, c.ticket, |log|)
  }

  /** The safety law of one log entry. */
  predicate Sound(log: seq<Entry>, j: nat, timeout: int)
    requires j < |log|
  {
    match log[j]
    case CommandOut(ticket) => ticket < j && log[ticket].Accepted? && NoFiringBetween(log, ticket, j)
    case Fired(cause, at) =>
      cause < j && Refreshes(log[cause]) && at >= log[cause].at + timeout && QuietBetween(log, cause, j)
    case _ => true
  }

  predicate Safe(log: seq<Entry>, timeout: int) {
    forall j :: 0 <= j < |log| ==> Sound(log, j, timeout)
  }

  predicate Guarded(log: seq<Entry>, w: Watchdog, timeout: int) {
    && w.ticket < |log| && Refreshes(log[w.ticket])
    && w.deadline == log[w.ticket].at + timeout
    && QuietBetween(log, w.ticket, |log|)
  }

  /** The part of the state the watchdog is about. */
  datatype View = View(log: seq<Entry>, commands: seq<Command>, watchdog: Option<Watchdog>)

  function ViewOf(s: State): View {
    View(s.past.log, s.sched.commands, s.sched.watchdog)
  }

  predicate ViewInv(v: View, cfg: Config) {
    && Safe(v.log, cfg.watchdogTimeout)
    && (forall i :: 0 <= i < |v.commands| ==> Fresh(v.log, v.commands[i]))
    && (v.watchdog.Some? ==> cfg.watchdogEnabled && Guarded(v.log, v.watchdog.value, cfg.watchdogTimeout))
  }

  /** How a step changes the view: a command is accepted, the watchdog fires, a command is popped, or
      something else is logged and perhaps everything dropped. */
  datatype Change =
    | Accepting(body: Payload, refresh: bool, at: int)
    | Firing(at: int)
    | Taking
    | Aside(entry: Option<Entry>, drop: bool)

  predicate Possible(v: View, c: Change) {
    match c
    case Accepting(_, _, _) => true
    case Firing(at) => v.watchdog.Some? && v.watchdog.value.deadline <= at
    case Taking => v.commands != []
    case Aside(x, drop) => x.Some? ==>
      && !x.value.Accepted? && !x.value.Fired? && !x.value.CommandOut?
      && (x.value.Connected? ==> v.watchdog.None?)
  }

  function Changed(v: View, c: Change, cfg: Config): View
    requires Possible(v, c)
  {
    match c
    case Accepting(body, refresh, at) =>
      View(v.log + [Accepted(body, refresh, at)], Replace(v.commands, Command(body, |v.log|)),
           if refresh && cfg.watchdogEnabled then Some(Watchdog(at + cfg.watchdogTimeout, |v.log|)) else v.watchdog)
    case Firing(at) => View(v.log + [Fired(v.watchdog.value.ticket, at)], [], None)
    case Taking => View(v.log + [CommandOut(v.commands[0].ticket)], v.commands[1..], v.watchdog)
    case Aside(x, drop) => View(Extend(v.log, x), if drop then [] else v.commands, if drop then None else v.watchdog)
  }

  // ---- Laws of the log --------------------------------------------------------------------

  lemma BetweenPrefix(log: seq<Entry>, x: Entry, from: nat, to: nat)
    requires to <= |log|
    ensures QuietBetween(log, from, to) ==> QuietBetween(log + [x], from, to)
    ensures NoFiringBetween(log, from, to) ==> NoFiringBetween(log + [x], from, to)
  {
    assert forall j :: 0 <= j < to ==> (log + [x])[j] == log[j];
  }

  lemma SoundPrefix(log: seq<Entry>, x: Entry, j: nat, timeout: int)
    requires j < |log| && Sound(log, j, timeout)
    ensures Sound(log + [x], j, timeout)
  {
    assert (log + [x])[j] == log[j];
    match log[j]
    case CommandOut(ticket) =>
      assert (log + [x])[ticket] == log[ticket];
      BetweenPrefix(log, x, ticket, j);
    case Fired(cause, _) =>
      assert (log + [x])[cause] == log[cause];
      BetweenPrefix(log, x, cause, j);
    case _ =>
  }

  lemma SafeAppend(log: seq<Entry>, x: Entry, timeout: int)
    requires Safe(log, timeout) && Sound(log + [x], |log|, timeout)
    ensures Safe(log + [x], timeout)
  {
    forall j | 0 <= j < |log| + 1
      ensures Sound(log + [x], j, timeout)
    {
      if j < |log| {
        SoundPrefix(log, x, j, timeout);
      }
    }
  }

  lemma FreshAppend(log: seq<Entry>, x: Entry, q: seq<Command>)
    requires !x.Fired? && forall i :: 0 <= i < |q| ==> Fresh(log, q[i])
    ensures forall i :: 0 <= i < |q| ==> Fresh(log + [x], q[i])
  {
    forall i | 0 <= i < |q|
      ensures Fresh(log + [x], q[i])
    {
      assert Fresh(log, q[i]);
    }
  }

  lemma GuardedAppend(log: seq<Entry>, x: Entry, w: Watchdog, timeout: int)
    requires Guarded(log, w, timeout) && !x.Fired? && !x.Connected? && !Refreshes(x)
    ensures Guarded(log + [x], w, timeout)
  {}

  lemma {:induction false} WithoutIsFresh(log: seq<Entry>, q: seq<Command>, c: Command)
    requires forall i :: 0 <= i < |q| ==> Fresh(log, q[i])
    ensures forall i :: 0 <= i < |Without(q, c)| ==> Fresh(log, Without(q, c)[i])
  {
    if q != [] {
      WithoutIsFresh(log, q[1..], c);
    }
  }

  lemma ChangeKeeps(v: View, c: Change, cfg: Config)
    requires ViewInv(v, cfg) && Possible(v, c)
    ensures ViewInv(Changed(v, c, cfg), cfg)
  {
    match c
    case Accepting(body, refresh, at) => AcceptingKeeps(v, c, cfg);
    case Firing(_) => FiringKeeps(v, c, cfg);
    case Taking => TakingKeeps(v, cfg);
    case Aside(_, _) => AsideKeeps(v, c, cfg);
  }

  lemma FiringKeeps(v: View, c: Change, cfg: Config)
    requires ViewInv(v, cfg) && c.Firing? && Possible(v, c)
    ensures ViewInv(Changed(v, c, cfg), cfg)
  {
    var x := Fired(v.watchdog.value.ticket, c.at);
    assert (v.log + [x])[|v.log|] == x && (v.log + [x])[x.cause] == v.log[x.cause];
    BetweenPrefix(v.log, x, x.cause, |v.log|);
    SafeAppend(v.log, x, cfg.watchdogTimeout);
  }

  lemma NoteKeeps(v: View, x: Entry, cfg: Config)
    requires ViewInv(v, cfg) && Possible(v, Aside(Some(x), false))
    ensures ViewInv(v.(log := v.log + [x]), cfg)
  {
    SafeAppend(v.log, x, cfg.watchdogTimeout);
    FreshAppend(v.log, x, v.commands);
    if v.watchdog.Some? {
      GuardedAppend(v.log, x, v.watchdog.value, cfg.watchdogTimeout);
    }
  }

  lemma DropKeeps(v: View, cfg: Config)
    requires ViewInv(v, cfg)
    ensures ViewInv(v.(commands := [], watchdog := None), cfg)
  {}

  lemma AsideKeeps(v: View, c: Change, cfg: Config)
    requires ViewInv(v, cfg) && c.Aside? && Possible(v, c)
    ensures ViewInv(Changed(v, c, cfg), cfg)
  {
    var w := v;
    if c.entry.Some? {
      w := v.(log := v.log + [c.entry.value]);
      NoteKeeps(v, c.entry.value, cfg);
    }
    DropKeeps(w, cfg);
    assert Changed(v, c, cfg) == if c.drop then w.(commands := [], watchdog := None) else w;
  }

  lemma AcceptingKeeps(v: View, c: Change, cfg: Config)
    requires ViewInv(v, cfg) && c.Accepting?
    ensures ViewInv(Changed(v, c, cfg), cfg)
  {
    var x, d := Accepted(c.body, c.refresh, c.at), Command(c.body, |v.log|);
    SafeAppend(v.log, x, cfg.watchdogTimeout);
    FreshAppend(v.log, x, v.commands);
    WithoutIsFresh(v.log + [x], v.commands, d);
    assert Fresh(v.log + [x], d);
    if v.watchdog.Some? && !c.refresh {
      GuardedAppend(v.log, x, v.watchdog.value, cfg.watchdogTimeout);
    }
  }

  lemma TakingKeeps(v: View, cfg: Config)
    requires ViewInv(v, cfg) && v.commands != []
    ensures ViewInv(Changed(v, Taking, cfg), cfg)
  {
    var x := CommandOut(v.commands[0].ticket);
    assert Fresh(v.log, v.commands[0]);
    BetweenPrefix(v.log, x, x.ticket, |v.log|);
    assert (v.log + [x])[|v.log|] == x && (v.log + [x])[x.ticket] == v.log[x.ticket];
    SafeAppend(v.log, x, cfg.watchdogTimeout);
    FreshAppend(v.log, x, v.commands[1..]);
    if v.watchdog.Some? {
      GuardedAppend(v.log, x, v.watchdog.value, cfg.watchdogTimeout);
    }
  }

  // ---- Each step is a change --------------------------------------------------------------

  lemma ControlChanges(s: State, e: Event) returns (c: Change)
    requires e.Control?
    ensures Possible(ViewOf(s), c) && ViewOf(Step(s, e)) == Changed(ViewOf(s), c, s.cfg) && Step(s, e).cfg == s.cfg
  {
    c := if Accepts(s.sched, e.body) then Accepting(e.body, e.refresh, s.now) else Aside(None, false);
  }

  lemma CallerChanges(s: State, e: Event) returns (c: Change)
    requires !e.Io? && !e.Control?
    ensures Possible(ViewOf(s), c) && ViewOf(Step(s, e)) == Changed(ViewOf(s), c, s.cfg) && Step(s, e).cfg == s.cfg
  {
    c := Aside(Logged(s, e), e.Connect? && s.pc == Stopped && !s.sched.running);
  }

  lemma PlainChanges(s: State, e: Event) returns (c: Change)
    requires ControlInv(s) && e.Io? && Plain(s.pc)
    ensures Possible(ViewOf(s), c) && ViewOf(Step(s, e)) == Changed(ViewOf(s), c, s.cfg) && Step(s, e).cfg == s.cfg
  {
    c := Aside(None, false);
  }

  lemma QueueChanges(s: State, e: Event) returns (c: Change)
    requires e.Io? && Queues(s.pc)
    ensures Possible(ViewOf(s), c) && ViewOf(Step(s, e)) == Changed(ViewOf(s), c, s.cfg) && Step(s, e).cfg == s.cfg
  {
    c := Aside(None, s.pc.Clearing?);
  }

  lemma FireChanges(s: State, e: Event) returns (c: Change)
    requires e.Io? && s.pc.WatchdogLock?
    ensures Possible(ViewOf(s), c) && ViewOf(Step(s, e)) == Changed(ViewOf(s), c, s.cfg) && Step(s, e).cfg == s.cfg
  {
    c := if WatchdogDue(s.sched, s.pc.stamp) then Firing(s.pc.stamp) else Aside(None, false);
  }

  lemma PopChanges(s: State, e: Event) returns (c: Change)
    requires e.Io? && s.pc.Popping?
    ensures Possible(ViewOf(s), c) && ViewOf(Step(s, e)) == Changed(ViewOf(s), c, s.cfg) && Step(s, e).cfg == s.cfg
  {
    c := if s.sched.commands != [] then Taking else Aside(None, false);
  }

  lemma PollChanges(s: State, e: Event) returns (c: Change)
    requires e.Io? && (s.pc.Reschedule? || s.pc.PollMake?)
    ensures Possible(ViewOf(s), c) && ViewOf(Step(s, e)) == Changed(ViewOf(s), c, s.cfg) && Step(s, e).cfg == s.cfg
  {
    c := Aside(Logged(s, e), false);
  }

  lemma FinishChanges(s: State, e: Event) returns (c: Change)
    requires ControlInv(s) && e.Io? && s.pc.Finishing?
    ensures Possible(ViewOf(s), c) && ViewOf(Step(s, e)) == Changed(ViewOf(s), c, s.cfg) && Step(s, e).cfg == s.cfg
  {
    c := Aside(Logged(s, e), false);
  }

  lemma WriteChanges(s: State, e: Event) returns (c: Change)
    requires e.Io? && s.pc.Writing?
    ensures Possible(ViewOf(s), c) && ViewOf(Step(s, e)) == Changed(ViewOf(s), c, s.cfg) && Step(s, e).cfg == s.cfg
  {
    c := Aside(None, false);
  }

  predicate WatchdogInv(s: State) {
    ControlInv(s) && ViewInv(ViewOf(s), s.cfg)
  }

  lemma WatchdogStep(s: State, e: Event)
    requires WatchdogInv(s)
    ensures WatchdogInv(Step(s, e))
  {
    ControlStep(s, e);
    var c: Change;
    if e.Control? {
      c := ControlChanges(s, e);
    } else if !e.Io? {
      c := CallerChanges(s, e);
    } else if Plain(s.pc) {
      c := PlainChanges(s, e);
    } else if s.pc.Finishing? {
      c := FinishChanges(s, e);
    } else if s.pc.Writing? {
      c := WriteChanges(s, e);
    } else if Queues(s.pc) {
      c := QueueChanges(s, e);
    } else if s.pc.WatchdogLock? {
      c := FireChanges(s, e);
    } else if s.pc.Popping? {
      c := PopChanges(s, e);
    } else {
      c := PollChanges(s, e);
    }
    ChangeKeeps(ViewOf(s), c, s.cfg);
  }

  lemma WatchdogReachable(s: State)
    requires Reachable(s)
    ensures WatchdogInv(s)
  {
    forall t, e | WatchdogInv(t)
      ensures WatchdogInv(Step(t, e))
    {
      WatchdogStep(t, e);
    }
    ReachableKeeps(WatchdogInv, s);
  }

  // ---- Theorems ---------------------------------------------------------------------------

  lemma EntrySound(s: State, j: nat)
    requires Reachable(s) && j < |s.past.log|
    ensures Sound(s.past.log, j, s.cfg.watchdogTimeout)
  {
    WatchdogReachable(s);
  }

  /** Over every run: a queued command that goes out after a safe stop was accepted after it. */
  lemma NoStaleCommandAfterSafeStop(s: State, i: nat, j: nat)
    requires Reachable(s) && i < j < |s.past.log| && s.past.log[i].Fired? && s.past.log[j].CommandOut?
    ensures i < s.past.log[j].ticket < j && s.past.log[s.past.log[j].ticket].Accepted?
  {
    EntrySound(s, j);
  }

  /** Over every run: when the watchdog fires, the last control command accepted on this connection
      is at least the timeout old, and the watchdog has not fired since it was accepted. */
  lemma FiresOnlyWhenOverdue(s: State, j: nat)
    requires Reachable(s) && j < |s.past.log| && s.past.log[j].Fired?
    ensures var c := s.past.log[j].cause;
            && c < j && Refreshes(s.past.log[c]) && QuietBetween(s.past.log, c, j)
            && s.past.log[j].at >= s.past.log[c].at + s.cfg.watchdogTimeout
  {
    EntrySound(s, j);
  }

  /** Over every run: between two firings a control command was accepted. */
  lemma FiresOncePerRefresh(s: State, i: nat, j: nat)
    requires Reachable(s) && i < j < |s.past.log| && s.past.log[i].Fired? && s.past.log[j].Fired?
    ensures exists k :: i < k < j && Refreshes(s.past.log[k])
  {
    FiresOnlyWhenOverdue(s, j);
    assert Refreshes(s.past.log[s.past.log[j].cause]);
  }
}
