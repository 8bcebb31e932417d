/**
 Periodic polls. Two polls of one channel are at least its interval apart, and a channel that is
 due waits for at most one poll of the other, as long as no interval is changed.
 */
module PollLaws {
  import opened Wrappers
  import opened Scheduling
  import opened Client

  /** Entries that restart the schedule of channel `k`. */
  predicate Disturbs(x: Entry, k: Source) {
    match x
    case Connected => true
    case IntervalSet(source) => source == k
    case Rescheduled(imu, motor) => if k.Imu? then imu else motor
    case _ => false
  }

  predicate Undisturbed(log: seq<Entry>, k: Source, from: nat, to: nat)
    requires to <= |log|
  {
    forall j :: from < j < to ==> !Disturbs(log[j], k)
  }

  predicate PollOf(x: Entry, k: Source) {
    x.Polled? && x.source == k
  }

  /** Two polls of one channel are an interval apart. */
  predicate Spaced(log: seq<Entry>) {
    forall i, j, k :: 0 <= i < j < |log| && PollOf(log[i], k) && PollOf(log[j], k) && Undisturbed(log, k, i, j) ==>
      log[j].at >= log[i].at + log[i].interval && log[j].interval == log[i].interval
  }

  /** A poll of `k` at position `i` passed over the other channel, which was due and still waits. */
  predicate PassedOver(log: seq<Entry>, k: Source, i: nat, to: nat)
    requires to <= |log|
  {
    && i < to && PollOf(log[i], k) && log[i].otherWaiting
    && Undisturbed(log, k, i, to) && Undisturbed(log, Scheduling.Other(k), i, to)
    && forall j :: i < j < to ==> !PollOf(log[j], Scheduling.Other(k))
  }

  /** A waiting channel is not passed over twice. */
  predicate Fair(log: seq<Entry>) {
    forall i, j, k :: 0 <= i < j < |log| && PassedOver(log, k, i, j) ==> !PollOf(log[j], k)
  }

  // ---- The part of the state polls are about ----------------------------------------------

  datatype Picking = Idle | Looking(stamp: int) | Picked(source: Source, stamp: int)

  datatype View = View(log: seq<Entry>, now: int, imu: Channel, motor: Channel, picking: Picking) {
    function Of(k: Source): Channel {
      if k.Imu? then imu else motor
    }
  }

  function PickingOf(pc: Pc): Picking {
    match pc
    case PollSelect(stamp) => Looking(stamp)
    case PollMake(k, stamp) => Picked(k, stamp)
    case _ => Idle
  }

  function ViewOf(s: State): View {
    View(s.past.log, s.now, s.sched.imu, s.sched.motor, PickingOf(s.pc))
  }

  predicate LastPolls(v: View) {
    forall i, k :: 0 <= i < |v.log| && PollOf(v.log[i], k) && Undisturbed(v.log, k, i, |v.log|) ==>
      v.Of(k).nextDue >= v.log[i].at + v.log[i].interval && v.Of(k).interval == v.log[i].interval
  }

  predicate StillWaiting(v: View) {
    forall i, k :: 0 <= i < |v.log| && PassedOver(v.log, k, i, |v.log|) ==>
      v.Of(Scheduling.Other(k)).interval > 0 && v.Of(Scheduling.Other(k)).nextDue <= v.log[i].at
  }

  predicate Timely(v: View) {
    && (forall i :: 0 <= i < |v.log| && v.log[i].Polled? ==> v.log[i].at <= v.now && v.log[i].interval > 0)
    && (!v.picking.Idle? ==>
          && v.picking.stamp <= v.now
          && forall i :: 0 <= i < |v.log| && v.log[i].Polled? ==> v.log[i].at <= v.picking.stamp)
  }

  predicate PickIsFair(v: View) {
    v.picking.Picked? ==> forall i :: 0 <= i < |v.log| ==> !PassedOver(v.log, v.picking.source, i, |v.log|)
  }

  predicate ViewInv(v: View) {
    Spaced(v.log) && Fair(v.log) && LastPolls(v) && StillWaiting(v) && Timely(v) && PickIsFair(v)
  }

  // ---- Changes ----------------------------------------------------------------------------

  datatype Change =
    | Pass(now: int, entry: Option<Entry>, picking: Picking)
    | Set(source: Source, interval: int)
    | Renew(imu: bool, motor: bool)
    | Restart
    | Send

  predicate Ordinary(x: Entry) {
    !x.Connected? && !x.IntervalSet? && !x.Rescheduled? && !x.Polled?
  }

  predicate Possible(v: View, c: Change) {
    match c
    case Pass(now, x, picking) =>
      && now >= v.now
      && (x.Some? ==> Ordinary(x.value))
      && (picking == v.picking || picking.Idle? || picking == Looking(now)
          || (v.picking.Looking? && picking.Picked? && picking.stamp == v.picking.stamp &&
              SelectDue(v.imu, v.motor, v.picking.stamp) == Some(picking.source)))
    case Renew(imu, motor) => (imu || motor) && v.picking.Idle?
    case Send => v.picking.Picked? && Due(v.Of(v.picking.source), v.picking.stamp)
    case Set(_, _) | Restart => true
  }

  function Changed(v: View, c: Change): View
    requires Possible(v, c)
  {
    match c
    case Pass(now, x, picking) => v.(now := now, log := Extend(v.log, x), picking := picking)
    case Set(k, interval) =>
      var ch := v.Of(k).(interval := if interval > 0 then interval else 0, reschedule := true);
      v.(log := v.log + [IntervalSet(k)],
         imu := if k.Imu? then ch else v.imu, motor := if k.Motor? then ch else v.motor)
    case Renew(imu, motor) =>
      v.(log := v.log + [Rescheduled(imu, motor)],
         imu := if imu then v.imu.(reschedule := false, nextDue := v.now) else v.imu,
         motor := if motor then v.motor.(reschedule := false, nextDue := v.now) else v.motor)
    case Restart =>
      v.(log := v.log + [Connected],
         imu := v.imu.(nextDue := v.now), motor := v.motor.(nextDue := v.now), picking := Idle)
    case Send =>
      var k, stamp := v.picking.source, v.picking.stamp;
      var ch := v.Of(k);
      var x := Polled(k, stamp, ch.interval, Due(v.Of(Scheduling.Other(k)), stamp));
      var next := ch.(nextDue := stamp + ch.interval);
      v.(log := v.log + [x],
         imu := if k.Imu? then next else v.imu, motor := if k.Motor? then next else v.motor, picking := Idle)
  }

  // ---- A new entry ------------------------------------------------------------------------

  lemma UndisturbedPrefix(log: seq<Entry>, x: Entry, k: Source, from: nat, to: nat)
    requires to <= |log|
    ensures Undisturbed(log + [x], k, from, to) <==> Undisturbed(log, k, from, to)
  {
    assert forall j :: 0 <= j < to ==> (log + [x])[j] == log[j];
  }

  lemma PassedOverPrefix(log: seq<Entry>, x: Entry, k: Source, i: nat, to: nat)
    requires to <= |log|
    ensures PassedOver(log + [x], k, i, to) <==> PassedOver(log, k, i, to)
  {
    UndisturbedPrefix(log, x, k, i, to);
    UndisturbedPrefix(log, x, Scheduling.Other(k), i, to);
    assert forall j :: 0 <= j < to ==> (log + [x])[j] == log[j];
  }

  /** Seen from the end of the extended log: undisturbed before, and the entry does not disturb. */
  lemma UndisturbedToEnd(log: seq<Entry>, x: Entry, k: Source, i: nat)
    requires i < |log|
    ensures Undisturbed(log + [x], k, i, |log| + 1) <==> Undisturbed(log, k, i, |log|) && !Disturbs(x, k)
  {
    UndisturbedPrefix(log, x, k, i, |log|);
    assert (log + [x])[|log|] == x;
  }

  lemma PassedOverToEnd(log: seq<Entry>, x: Entry, k: Source, i: nat)
    requires i < |log|
    ensures PassedOver(log + [x], k, i, |log| + 1) <==>
            && PassedOver(log, k, i, |log|) && !Disturbs(x, k)
            && !Disturbs(x, Scheduling.Other(k)) && !PollOf(x, Scheduling.Other(k))
  {
    UndisturbedToEnd(log, x, k, i);
    UndisturbedToEnd(log, x, Scheduling.Other(k), i);
    var more := log + [x];
    assert more[|log|] == x && forall j :: 0 <= j < |log| ==> more[j] == log[j];
  }

  lemma SpacedAppend(log: seq<Entry>, x: Entry)
    requires Spaced(log)
    requires forall i, k :: 0 <= i < |log| && PollOf(log[i], k) && PollOf(x, k) && Undisturbed(log, k, i, |log|) ==>
               x.at >= log[i].at + log[i].interval && x.interval == log[i].interval
    ensures Spaced(log + [x])
  {
    var more := log + [x];
    forall i, j, k | 0 <= i < j < |more| && PollOf(more[i], k) && PollOf(more[j], k) && Undisturbed(more, k, i, j)
      ensures more[j].at >= more[i].at + more[i].interval && more[j].interval == more[i].interval
    {
      UndisturbedPrefix(log, x, k, i, j);
    }
  }

  lemma FairAppend(log: seq<Entry>, x: Entry)
    requires Fair(log)
    requires forall i, k :: 0 <= i < |log| && PassedOver(log, k, i, |log|) ==> !PollOf(x, k)
    ensures Fair(log + [x])
  {
    var more := log + [x];
    forall i, j, k | 0 <= i < j < |more| && PassedOver(more, k, i, j)
      ensures !PollOf(more[j], k)
    {
      PassedOverPrefix(log, x, k, i, j);
    }
  }

  // ---- Each change keeps the invariant ----------------------------------------------------

  lemma ClockKeeps(v: View, now: int)
    requires ViewInv(v) && now >= v.now
    ensures ViewInv(v.(now := now))
  {}

  lemma NoteKeeps(v: View, x: Entry)
    requires ViewInv(v) && Ordinary(x)
    ensures ViewInv(v.(log := v.log + [x]))
  {
    SpacedAppend(v.log, x);
    FairAppend(v.log, x);
    var more := v.log + [x];
    forall i, k | 0 <= i < |more| && PollOf(more[i], k) && Undisturbed(more, k, i, |more|)
      ensures v.Of(k).nextDue >= more[i].at + more[i].interval && v.Of(k).interval == more[i].interval
    {
      UndisturbedToEnd(v.log, x, k, i);
    }
    forall i, k | 0 <= i < |more| && PassedOver(more, k, i, |more|)
      ensures i < |v.log| && PassedOver(v.log, k, i, |v.log|)
    {
      PassedOverToEnd(v.log, x, k, i);
    }
  }

  lemma PickKeeps(v: View, picking: Picking)
    requires ViewInv(v) && Possible(v, Pass(v.now, None, picking))
    ensures ViewInv(v.(picking := picking))
  {
    if picking.Picked? && picking != v.picking {
      forall i | 0 <= i < |v.log|
        ensures !PassedOver(v.log, picking.source, i, |v.log|)
      {
        SelectionIsFair(v, picking.source, picking.stamp, i);
      }
    }
  }

  /** The channel selected has not already passed over a waiting one. */
  lemma SelectionIsFair(v: View, k: Source, stamp: int, i: nat)
    requires ViewInv(v) && v.picking == Looking(stamp) && SelectDue(v.imu, v.motor, stamp) == Some(k) && i < |v.log|
    ensures !PassedOver(v.log, k, i, |v.log|)
  {
    assert PollOf(v.log[i], k) && Undisturbed(v.log, k, i, |v.log|) ==> v.Of(k).nextDue > v.log[i].at;
  }

  lemma PassKeeps(v: View, c: Change)
    requires ViewInv(v) && c.Pass? && Possible(v, c)
    ensures ViewInv(Changed(v, c))
  {
    var w := v.(now := c.now);
    ClockKeeps(v, c.now);
    PickKeeps(w, c.picking);
    w := w.(picking := c.picking);
    if c.entry.Some? {
      NoteKeeps(w, c.entry.value);
      w := w.(log := w.log + [c.entry.value]);
    }
    assert Changed(v, c) == w;
  }

  /** An entry that disturbs some channels: what is known of the others stays. */
  lemma DisturbKeeps(v: View, w: View, x: Entry)
    requires ViewInv(v) && !x.Polled? && w.log == v.log + [x] && w.now == v.now
    requires w.picking == v.picking || w.picking.Idle?
    requires forall k :: Disturbs(x, k) || w.Of(k) == v.Of(k)
    ensures ViewInv(w)
  {
    SpacedAppend(v.log, x);
    FairAppend(v.log, x);
    forall i, k | 0 <= i < |w.log| && PollOf(w.log[i], k) && Undisturbed(w.log, k, i, |w.log|)
      ensures w.Of(k).nextDue >= w.log[i].at + w.log[i].interval && w.Of(k).interval == w.log[i].interval
    {
      UndisturbedToEnd(v.log, x, k, i);
    }
    forall i, k | 0 <= i < |w.log| && PassedOver(w.log, k, i, |w.log|)
      ensures i < |v.log| && PassedOver(v.log, k, i, |v.log|) && !Disturbs(x, Scheduling.Other(k))
    {
      PassedOverToEnd(v.log, x, k, i);
    }
  }

  lemma SendKeeps(v: View)
    requires ViewInv(v) && Possible(v, Send)
    ensures ViewInv(Changed(v, Send))
  {
    var w := Changed(v, Send);
    var x := w.log[|v.log|];
    var k0 := v.picking.source;
    assert w.log == v.log + [x];
    SpacedAppend(v.log, x);
    FairAppend(v.log, x);
    forall i, k | 0 <= i < |w.log| && PollOf(w.log[i], k) && Undisturbed(w.log, k, i, |w.log|)
      ensures w.Of(k).nextDue >= w.log[i].at + w.log[i].interval && w.Of(k).interval == w.log[i].interval
    {
      if i < |v.log| {
        UndisturbedToEnd(v.log, x, k, i);
      }
    }
    forall i, k | 0 <= i < |w.log| && PassedOver(w.log, k, i, |w.log|)
      ensures w.Of(Scheduling.Other(k)).interval > 0 && w.Of(Scheduling.Other(k)).nextDue <= w.log[i].at
    {
      if i < |v.log| {
        PassedOverToEnd(v.log, x, k, i);
      }
    }
  }

  lemma ChangeKeeps(v: View, c: Change)
    requires ViewInv(v) && Possible(v, c)
    ensures ViewInv(Changed(v, c))
  {
    match c
    case Pass(_, _, _) => PassKeeps(v, c);
    case Set(k, _) => DisturbKeeps(v, Changed(v, c), IntervalSet(k));
    case Renew(imu, motor) => DisturbKeeps(v, Changed(v, c), Rescheduled(imu, motor));
    case Restart => DisturbKeeps(v, Changed(v, c), Connected);
    case Send => SendKeeps(v);
  }

  // ---- Each step is a change --------------------------------------------------------------

  lemma IntervalChanges(s: State, e: Event) returns (c: Change)
    requires e.SetInterval?
    ensures Possible(ViewOf(s), c) && ViewOf(Step(s, e)) == Changed(ViewOf(s), c)
  {
    c := Set(e.source, e.interval);
  }

  lemma CallerChanges(s: State, e: Event) returns (c: Change)
    requires !e.Io? && !e.SetInterval?
    ensures Possible(ViewOf(s), c) && ViewOf(Step(s, e)) == Changed(ViewOf(s), c)
  {
    c := Pass(if e.Tick? then s.now + e.dt else s.now, Logged(s, e), PickingOf(s.pc));
  }

  lemma PlainChanges(s: State, e: Event) returns (c: Change)
    requires ControlInv(s) && e.Io? && Plain(s.pc)
    ensures Possible(ViewOf(s), c) && ViewOf(Step(s, e)) == Changed(ViewOf(s), c)
  {
    c := Pass(s.now, None, PickingOf(Step(s, e).pc));
  }

  lemma RenewChanges(s: State, e: Event) returns (c: Change)
    requires e.Io? && s.pc.Reschedule?
    ensures Possible(ViewOf(s), c) && ViewOf(Step(s, e)) == Changed(ViewOf(s), c)
  {
    var imu, motor := s.sched.imu.reschedule, s.sched.motor.reschedule;
    c := if imu || motor then Renew(imu, motor) else Pass(s.now, None, Idle);
  }

  lemma SendChanges(s: State, e: Event) returns (c: Change)
    requires e.Io? && s.pc.PollMake?
    ensures Possible(ViewOf(s), c) && ViewOf(Step(s, e)) == Changed(ViewOf(s), c)
  {
    c := if Due(ChannelOf(s.sched, s.pc.source), s.pc.stamp) then Send else Pass(s.now, None, Idle);
  }

  lemma QueueChanges(s: State, e: Event) returns (c: Change)
    requires e.Io? && Queues(s.pc)
    ensures Possible(ViewOf(s), c) && ViewOf(Step(s, e)) == Changed(ViewOf(s), c)
  {
    c := Pass(s.now, None, Idle);
  }

  lemma CommandChanges(s: State, e: Event) returns (c: Change)
    requires e.Io? && (s.pc.WatchdogLock? || s.pc.Popping?)
    ensures Possible(ViewOf(s), c) && ViewOf(Step(s, e)) == Changed(ViewOf(s), c)
  {
    c := Pass(s.now, Logged(s, e), Idle);
  }

  lemma StartChanges(s: State, e: Event)
    requires e.Io? && s.pc == Finishing(ToStart) && s.hand == []
    ensures Possible(ViewOf(s), Restart) && ViewOf(Step(s, e)) == Changed(ViewOf(s), Restart)
  {}

  lemma FinishChanges(s: State, e: Event) returns (c: Change)
    requires e.Io? && s.pc.Finishing? && (s.pc.after.ToStart? ==> s.hand != [])
    ensures Possible(ViewOf(s), c) && ViewOf(Step(s, e)) == Changed(ViewOf(s), c)
  {
    c := Pass(s.now, Logged(s, e), Idle);
  }

  lemma WriteChanges(s: State, e: Event) returns (c: Change)
    requires ControlInv(s) && e.Io? && s.pc.Writing?
    ensures Possible(ViewOf(s), c) && ViewOf(Step(s, e)) == Changed(ViewOf(s), c)
  {
    c := Pass(s.now, None, Idle);
  }

  predicate PollInv(s: State) {
    ControlInv(s) && ViewInv(ViewOf(s))
  }

  /** Every step changes what polls are about in one of five ways: the clock and the log go on and a channel
      is picked, an interval is set, schedules are restarted by the loop or by a connection, or a poll
      is sent and the next one is due one interval later. */
  lemma StepChanges(s: State, e: Event) returns (c: Change)
    requires ControlInv(s)
    ensures Possible(ViewOf(s), c) && ViewOf(Step(s, e)) == Changed(ViewOf(s), c)
  {
    if e.SetInterval? {
      c := IntervalChanges(s, e);
    } else if !e.Io? {
      c := CallerChanges(s, e);
    } else if Plain(s.pc) {
      c := PlainChanges(s, e);
    } else if s.pc == Finishing(ToStart) && s.hand == [] {
      c := Restart;
      StartChanges(s, e);
    } else if s.pc.Finishing? {
      c := FinishChanges(s, e);
    } else if s.pc.Writing? {
      c := WriteChanges(s, e);
    } else if s.pc.Reschedule? {
      c := RenewChanges(s, e);
    } else if s.pc.PollMake? {
      c := SendChanges(s, e);
    } else if Queues(s.pc) {
      c := QueueChanges(s, e);
    } else {
      c := CommandChanges(s, e);
    }
  }

  lemma PollStep(s: State, e: Event)
    requires PollInv(s)
    ensures PollInv(Step(s, e))
  {
    ControlStep(s, e);
    var c := StepChanges(s, e);
    ChangeKeeps(ViewOf(s), c);
  }

  lemma PollReachable(s: State)
    requires Reachable(s)
    ensures Spaced(s.past.log) && Fair(s.past.log)
  {
    forall t, e | PollInv(t)
      ensures PollInv(Step(t, e))
    {
      PollStep(t, e);
    }
    ReachableKeeps(PollInv, s);
  }

  // ---- Theorems ---------------------------------------------------------------------------

  function Time(x: Entry): int {
    if x.Polled? then x.at else 0
  }

  function Interval(x: Entry): int {
    if x.Polled? then x.interval else 0
  }

  lemma {:induction false} SpacedMany(log: seq<Entry>, k: Source, polls: seq<nat>)
    requires Spaced(log) && polls != []
    requires forall n :: 0 <= n < |polls| ==> polls[n] < |log| && PollOf(log[polls[n]], k)
    requires forall m, n :: 0 <= m < n < |polls| ==> polls[m] < polls[n]
    requires Undisturbed(log, k, polls[0], polls[|polls| - 1])
    ensures Interval(log[polls[|polls| - 1]]) == Interval(log[polls[0]])
    ensures Time(log[polls[|polls| - 1]]) - Time(log[polls[0]]) >= (|polls| - 1) * Interval(log[polls[0]])
    decreases |polls|
  {
    var n := |polls| - 1;
    if n > 0 {
      SpacedMany(log, k, polls[..n]);
      var i, j, d := polls[n - 1], polls[n], Interval(log[polls[0]]);
      assert PollOf(log[i], k) && PollOf(log[j], k) && Undisturbed(log, k, i, j);
      assert Time(log[j]) >= Time(log[i]) + d;
      assert n * d == (n - 1) * d + d;
    }
  }

  /** Over every run: n polls of one channel span at least n - 1 of its intervals, over every
      schedule of replies, timeouts and clock advances, unless its schedule is restarted. */
  lemma PollsKeepTheirRate(s: State, k: Source, polls: seq<nat>)
    requires Reachable(s) && polls != []
    requires forall n :: 0 <= n < |polls| ==> polls[n] < |s.past.log| && PollOf(s.past.log[polls[n]], k)
    requires forall m, n :: 0 <= m < n < |polls| ==> polls[m] < polls[n]
    requires Undisturbed(s.past.log, k, polls[0], polls[|polls| - 1])
    ensures Time(s.past.log[polls[|polls| - 1]]) - Time(s.past.log[polls[0]]) >=
            (|polls| - 1) * Interval(s.past.log[polls[0]])
  {
    PollReachable(s);
    SpacedMany(s.past.log, k, polls);
  }

  /** Over every run: a channel that was due when the other was polled is polled before the other is
      polled again, unless a schedule is restarted. */
  lemma WaitingChannelIsNext(s: State, k: Source, i: nat, j: nat)
    requires Reachable(s) && i < j < |s.past.log| && PollOf(s.past.log[i], k) && PollOf(s.past.log[j], k)
    requires s.past.log[i].otherWaiting
    requires Undisturbed(s.past.log, k, i, j) && Undisturbed(s.past.log, Scheduling.Other(k), i, j)
    ensures exists m :: i < m < j && PollOf(s.past.log[m], Scheduling.Other(k))
  {
    PollReachable(s);
    assert !PassedOver(s.past.log, k, i, j);
  }

  // ---- A poll that is not made ------------------------------------------------------------

  /** The channel picked for a poll has come due by the time it was looked at. */
  predicate PickedDue(s: State) {
    s.pc.PollMake? ==> ChannelOf(s.sched, s.pc.source).nextDue <= s.pc.stamp
  }

  lemma PickedDueCaller(s: State, e: Event)
    requires PickedDue(s) && !e.Io?
    ensures PickedDue(Step(s, e))
  {}

  lemma PickedDueIo(s: State, e: Event)
    requires e.Io?
    ensures PickedDue(Step(s, e))
  {}

  lemma PickedDueReachable(s: State)
    requires Reachable(s)
    ensures PickedDue(s)
  {
    forall t, e | PickedDue(t)
      ensures PickedDue(Step(t, e))
    {
      if e.Io? {
        PickedDueIo(t, e);
      } else {
        PickedDueCaller(t, e);
      }
    }
    ReachableKeeps(PickedDue, s);
  }

  /** Over every run: making the selected poll stops the transport if and only if its channel has been
      disabled since it was selected. */
  lemma PollFailsExactlyWhenDisabled(s: State, result: Result)
    requires Reachable(s) && s.pc.PollMake?
    ensures Step(s, Io(result)).pc == Halting <==> ChannelOf(s.sched, s.pc.source).interval <= 0
  {
    PickedDueReachable(s);
  }
}
