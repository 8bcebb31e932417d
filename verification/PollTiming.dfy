/**
 When a poll is due. A channel that was polled is due exactly one of its intervals later; one whose
 schedule was restarted is due at the restart. A due channel is selected whenever the loop looks, the
 one due earlier first, and what is then sent is the request of its kind.
 */
module PollTiming {
  import opened Scheduling
  import opened Client
  import opened PollLaws

  /** The last entry of the log that says when channel `k` is due. */
  predicate LastPoll(log: seq<Entry>, k: Source, i: nat) {
    && i < |log| && PollOf(log[i], k)
    && forall j :: i < j < |log| ==> !Disturbs(log[j], k) && !PollOf(log[j], k)
  }

  /** The channel is due one interval after its last poll. */
  predicate Exact(v: View) {
    forall i: nat, k :: i < |v.log| && LastPoll(v.log, k, i) ==>
      v.Of(k).nextDue == v.log[i].at + v.log[i].interval && v.Of(k).interval == v.log[i].interval
  }

  lemma LastPollBefore(log: seq<Entry>, x: Entry, k: Source, i: nat)
    requires LastPoll(log + [x], k, i) && i < |log|
    ensures LastPoll(log, k, i) && !Disturbs(x, k) && !PollOf(x, k)
  {
    assert (log + [x])[|log|] == x;
    assert forall j :: 0 <= j < |log| ==> (log + [x])[j] == log[j];
  }

  lemma ExactAppend(v: View, w: View, x: Entry)
    requires Exact(v) && w.log == v.log + [x]
    requires forall k :: Disturbs(x, k) || PollOf(x, k) || w.Of(k) == v.Of(k)
    requires x.Polled? ==> w.Of(x.source).nextDue == x.at + x.interval && w.Of(x.source).interval == x.interval
    ensures Exact(w)
  {
    forall i: nat, k | i < |w.log| && LastPoll(w.log, k, i)
      ensures w.Of(k).nextDue == w.log[i].at + w.log[i].interval && w.Of(k).interval == w.log[i].interval
    {
      assert w.log[|v.log|] == x;
      if i < |v.log| {
        LastPollBefore(v.log, x, k, i);
      }
    }
  }

  lemma ExactKeeps(v: View, c: Change)
    requires Exact(v) && Possible(v, c)
    ensures Exact(Changed(v, c))
  {
    var w := Changed(v, c);
    match c
    case Pass(_, x, _) =>
      if x.Some? {
        ExactAppend(v, w, x.value);
      }
    case Set(k, _) => ExactAppend(v, w, IntervalSet(k));
    case Renew(imu, motor) => ExactAppend(v, w, Rescheduled(imu, motor));
    case Restart => ExactAppend(v, w, Connected);
    case Send => ExactAppend(v, w, w.log[|v.log|]);
  }

  predicate TimingInv(s: State) {
    ControlInv(s) && Exact(ViewOf(s))
  }

  lemma TimingStep(s: State, e: Event)
    requires TimingInv(s)
    ensures TimingInv(Step(s, e))
  {
    ControlStep(s, e);
    var c := StepChanges(s, e);
    ExactKeeps(ViewOf(s), c);
  }

  lemma TimingReachable(s: State)
    requires Reachable(s)
    ensures TimingInv(s)
  {
    forall cfg, imu: nat, motor: nat, now
      ensures TimingInv(Init(cfg, imu, motor, now))
    {
      InitControl(cfg, imu, motor, now);
    }
    forall t, e | TimingInv(t)
      ensures TimingInv(Step(t, e))
    {
      TimingStep(t, e);
    }
    ReachableKeeps(TimingInv, s);
  }

  // ---- Theorems ---------------------------------------------------------------------------

  /** Over every run: when the loop looks, a channel polled last at a certain time is not selected before its
      interval has passed; once it has, it is selected, or the other one is that has been due as long. */
  lemma PolledAgainWhenDue(s: State, k: Source, i: nat, result: Result)
    requires Reachable(s) && s.pc.PollSelect? && LastPoll(s.past.log, k, i)
    ensures var t, due := Step(s, Io(result)), s.past.log[i].at + s.past.log[i].interval;
            && (s.pc.stamp < due ==> t.pc != PollMake(k, s.pc.stamp))
            && (s.pc.stamp >= due && s.past.log[i].interval > 0 ==>
                  || t.pc == PollMake(k, s.pc.stamp)
                  || (t.pc == PollMake(Scheduling.Other(k), s.pc.stamp) &&
                      (if k.Imu? then s.sched.motor.nextDue < due else s.sched.imu.nextDue <= due)))
  {
    DueAfterLast(s, k, i);
    SelectsExactlyTheDue(s, result);
  }

  lemma DueAfterLast(s: State, k: Source, i: nat)
    requires Reachable(s) && LastPoll(s.past.log, k, i)
    ensures var c := if k.Imu? then s.sched.imu else s.sched.motor;
            c.nextDue == s.past.log[i].at + s.past.log[i].interval && c.interval == s.past.log[i].interval
  {
    TimingReachable(s);
    assert ViewOf(s).Of(k).nextDue == s.past.log[i].at + s.past.log[i].interval;
  }

  /** The loop selects a channel exactly when it is enabled and due and the other one has not been due longer,
      and looks for a query exactly when neither is. */
  lemma SelectsExactlyTheDue(s: State, result: Result)
    requires s.pc.PollSelect?
    ensures var pc, imu, motor, stamp := Step(s, Io(result)).pc, s.sched.imu, s.sched.motor, s.pc.stamp;
            && (pc == PollMake(Imu, stamp) <==>
                && imu.interval > 0 && imu.nextDue <= stamp
                && (motor.interval > 0 && motor.nextDue <= stamp ==> imu.nextDue <= motor.nextDue))
            && (pc == PollMake(Motor, stamp) <==>
                && motor.interval > 0 && motor.nextDue <= stamp
                && (imu.interval > 0 && imu.nextDue <= stamp ==> motor.nextDue < imu.nextDue))
            && (pc == QueryTake(stamp) <==>
                && (imu.interval > 0 ==> imu.nextDue > stamp) && (motor.interval > 0 ==> motor.nextDue > stamp))
  {}

  /** Over every run: a selected channel that is still enabled gets its poll written, with its deadline, and
      the poll of the IMU asks for every field. */
  lemma PollIsSent(s: State, k: Source, result: Result)
    requires Reachable(s) && s.pc.PollMake? && s.pc.source == k && ChannelOf(s.sched, k).interval > 0
    ensures var body := if k.Imu? then [65, 255, 255] else [4];
            var r := Scheduling.Request(Poll(k), 0, 0, body[0], body, s.pc.stamp + s.cfg.pollTimeout, false);
            var t := Step(s, Io(result));
            && t.pc == Writing(body, 0, Ask(r))
            && t.past.log[..|s.past.log|] == s.past.log && |t.past.log| == |s.past.log| + 1
            && t.past.log[|s.past.log|].Polled? && t.past.log[|s.past.log|].source == k
            && t.past.log[|s.past.log|].at == s.pc.stamp
            && t.past.log[|s.past.log|].interval == (if k.Imu? then s.sched.imu.interval else s.sched.motor.interval)
  {
    PickedDueReachable(s);
  }

  /** A new interval takes effect at the next pass: the channel is then due at once. */
  lemma IntervalTakesEffect(s: State, k: Source, interval: int, result: Result)
    requires s.pc == Reschedule
    ensures var t := Step(Step(s, SetInterval(k, interval)), Io(result));
            var c := if k.Imu? then t.sched.imu else t.sched.motor;
            c == Channel(if interval > 0 then interval else 0, false, s.now)
  {}
}
