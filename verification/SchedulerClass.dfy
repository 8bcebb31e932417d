/**
 The scheduler object: the fields behind `scheduler_mutex_` and the code of each locked region,
 updating them in place. Every method is proved to compute the region of `Scheduling` it stands
 for, so what `Client` and the laws over whole runs say about regions holds of this code.
 */
module SchedulerClass {
  import opened Checksums
  import opened Framing
  import opened Wrappers
  import opened Scheduling

  /** The frames the client queues as commands are short: their third byte is the command ID. */
  predicate IsShort(body: Payload) {
    1 <= |body| <= 255
  }

  lemma ShortFrame(body: Payload)
    requires IsShort(body)
    ensures |Frame(body)| == |body| + 5 && Frame(body)[2] == body[0]
  {
    assert Frame(body)[2] == Checked(body)[0];
  }

  /** The queued packets stand, one by one, for the commands. */
  ghost predicate Stand(rel: (seq<Byte>, Command) -> bool, packets: seq<seq<Byte>>, commands: seq<Command>) {
    |packets| == |commands| && forall i :: 0 <= i < |packets| ==> rel(packets[i], commands[i])
  }

  predicate FrameOf(packet: seq<Byte>, c: Command) {
    IsShort(c.body) && packet == Frame(c.body)
  }

  /** All that replacing a command asks of its frame. */
  ghost predicate ShowsId(rel: (seq<Byte>, Command) -> bool) {
    forall p, c :: rel(p, c) ==> |p| >= 3 && IsShort(c.body) && p[2] == c.body[0]
  }

  lemma FrameShowsId()
    ensures ShowsId(FrameOf)
  {
    forall p, c | FrameOf(p, c)
      ensures |p| >= 3 && IsShort(c.body) && p[2] == c.body[0]
    {
      ShortFrame(c.body);
    }
  }

  /** What a command builder hands over: a frame, or nothing when it refused its argument. */
  predicate FromBuilder(rel: (seq<Byte>, Command) -> bool, packet: seq<Byte>, c: Command) {
    if c.body == [] then packet == [] else rel(packet, c)
  }

  lemma BuildersFrame(c: Command)
    requires |c.body| <= 255
    ensures FromBuilder(FrameOf, Frame(c.body), c)
  {}

  lemma StandAppend(
    rel: (seq<Byte>, Command) -> bool, packets: seq<seq<Byte>>, commands: seq<Command>, p: seq<Byte>, c: Command)
    requires Stand(rel, packets, commands) && rel(p, c)
    ensures Stand(rel, packets + [p], commands + [c])
  {}

  lemma {:induction false} WithoutAppend(q: seq<Command>, d: Command, c: Command)
    ensures Without(q + [d], c) == Without(q, c) + if SameId(d, c) then [] else [d]
  {
    if q != [] {
      assert (q + [d])[1..] == q[1..] + [d];
      WithoutAppend(q[1..], d, c);
    }
  }

  lemma {:induction false} ExpiredAppend(q: seq<Request>, r: Request, now: int)
    ensures Expired(q + [r], now) == Expired(q, now) + if r.deadline <= now then [r] else []
    ensures Unexpired(q + [r], now) == Unexpired(q, now) + if r.deadline <= now then [] else [r]
  {
    if q != [] {
      assert (q + [r])[1..] == q[1..] + [r];
      ExpiredAppend(q[1..], r, now);
    }
  }

  /** `r` is the oldest request of `q` that has not expired. */
  predicate OldestLive(q: seq<Request>, r: Request, now: int) {
    r.deadline > now && exists i :: 0 <= i < |q| && q[i] == r && AllExpired(q[..i], now)
  }

  predicate AllExpired(q: seq<Request>, now: int) {
    forall j :: 0 <= j < |q| ==> q[j].deadline <= now
  }

  lemma {:induction false} FirstUnexpired(q: seq<Request>, now: int)
    requires Unexpired(q, now) != []
    ensures OldestLive(q, Unexpired(q, now)[0], now)
  {
    if q[0].deadline <= now {
      FirstUnexpired(q[1..], now);
      var r := Unexpired(q, now)[0];
      var i :| 0 <= i < |q[1..]| && q[1..][i] == r && AllExpired(q[1..][..i], now);
      assert q[..i + 1] == [q[0]] + q[1..][..i];
      assert q[i + 1] == r;
    } else {
      assert q[..0] == [];
    }
  }

  lemma EarlierExpired(q: seq<Request>, r: Request, now: int)
    requires OldestLive(q, r, now)
    ensures exists i :: 0 <= i < |q| && q[i] == r && forall j :: 0 <= j < i ==> q[j].deadline <= now
  {
    var i :| 0 <= i < |q| && q[i] == r && AllExpired(q[..i], now);
    assert forall j :: 0 <= j < i ==> q[j] == q[..i][j];
  }

  /** A sweep takes out exactly what has expired, and nothing more is left to sweep. */
  lemma {:induction false} SweepSorts(q: seq<Request>, now: int)
    ensures AllExpired(Expired(q, now), now)
    ensures forall r :: r in Unexpired(q, now) <==> r in q && r.deadline > now
    ensures forall r :: r in Expired(q, now) <==> r in q && r.deadline <= now
    ensures Unexpired(Unexpired(q, now), now) == Unexpired(q, now)
  {
    if q != [] {
      SweepSorts(q[1..], now);
      assert Unexpired(q, now) == Unexpired(q[1..], now) || Unexpired(q, now)[1..] == Unexpired(q[1..], now);
    }
  }

  /** What one attempt of `write_packet` met: the stop flag, or the outcome of a system call. A call
      that writes nothing without an error ends the attempts. */
  datatype Attempt = StopSeen | Wrote(count: nat) | Retry | Refused

  /** Keeps the queued packets whose ID differs from that of `packet`. */
  method RemoveId(
    packets: seq<seq<Byte>>, packet: seq<Byte>,
    ghost rel: (seq<Byte>, Command) -> bool, ghost commands: seq<Command>, ghost c: Command)
    returns (kept: seq<seq<Byte>>)
    requires ShowsId(rel) && Stand(rel, packets, commands) && rel(packet, c)
    ensures Stand(rel, kept, Without(commands, c))
  {
    kept := [];
    for i := 0 to |packets|
      invariant Stand(rel, kept, Without(commands[..i], c))
    {
      assert commands[..i + 1] == commands[..i] + [commands[i]];
      WithoutAppend(commands[..i], commands[i], c);
      if !(|packets[i]| >= 3 && packets[i][2] == packet[2]) {
        StandAppend(rel, kept, Without(commands[..i], c), packets[i], commands[i]);
        kept := kept + [packets[i]];
      }
    }
    assert commands[..|packets|] == commands;
  }

  /** Erases expired requests from the queue one by one. */
  method EraseExpired(queue: seq<Request>, now: int) returns (live: seq<Request>, expired: seq<Request>)
    ensures expired == Expired(queue, now) && live == Unexpired(queue, now)
  {
    live, expired := queue, [];
    var i := 0;
    ghost var done := 0;
    assert queue[..0] == [];
    while i < |live|
      invariant done <= |queue|
      invariant expired == Expired(queue[..done], now)
      invariant live == Unexpired(queue[..done], now) + queue[done..]
      invariant i == |Unexpired(queue[..done], now)|
      decreases |live| - i
    {
      EraseStep(queue, done, now);
      EraseAt(Unexpired(queue[..done], now), queue[done..]);
      NextOf(queue, done);
      if live[i].deadline <= now {
        expired := expired + [live[i]];
        live := live[..i] + live[i + 1..];
      } else {
        i := i + 1;
      }
      done := done + 1;
    }
    assert queue[..done] == queue;
  }

  /** Taking out or passing over the first of the requests still to be looked at. */
  lemma EraseAt(kept: seq<Request>, rest: seq<Request>)
    requires rest != []
    ensures var live, i := kept + rest, |kept|;
            live[i] == rest[0] && live[..i] + live[i + 1..] == kept + rest[1..] && live == kept + [rest[0]] + rest[1..]
  {}

  lemma NextOf(queue: seq<Request>, done: nat)
    requires done < |queue|
    ensures queue[done..][0] == queue[done] && queue[done..][1..] == queue[done + 1..]
  {}

  lemma EraseStep(queue: seq<Request>, done: nat, now: int)
    requires done < |queue|
    ensures var live, r := Unexpired(queue[..done], now), queue[done];
            if r.deadline <= now
            then && Unexpired(queue[..done + 1], now) == live
                 && Expired(queue[..done + 1], now) == Expired(queue[..done], now) + [r]
            else && Unexpired(queue[..done + 1], now) == live + [r]
                 && Expired(queue[..done + 1], now) == Expired(queue[..done], now)
  {
    assert queue[..done + 1] == queue[..done] + [queue[done]];
    ExpiredAppend(queue[..done], queue[done], now);
  }

  class Scheduler {
    const cfg: Config
    var running: bool
    var commandQueue: seq<seq<Byte>>
    var requestQueue: seq<Request>
    var inFlight: Option<Request>
    var watchdogArmed: bool
    var watchdogDeadline: int
    var imu: Channel
    var motor: Channel

    // The commands behind the queued frames, and the command that last refreshed the watchdog.
    // `stands` relates the two; the constructor makes it `FrameOf`.
    ghost var commands: seq<Command>
    ghost var refreshedBy: nat
    ghost const stands: (seq<Byte>, Command) -> bool

    ghost predicate Valid()
      reads this
    {
      ShowsId(stands) && Stand(stands, commandQueue, commands)
    }

    ghost function Abs(): Sched
      reads this
    {
      Sched(running, commands, requestQueue, inFlight,
            if watchdogArmed then Some(Watchdog(watchdogDeadline, refreshedBy)) else None, imu, motor)
    }

    constructor (cfg: Config, imuInterval: nat, motorInterval: nat, now: int)
      ensures Valid() && this.cfg == cfg && stands == FrameOf
      ensures Abs() ==
              Sched(false, [], [], None, None, Channel(imuInterval, false, now), Channel(motorInterval, false, now))
    {
      this.cfg := cfg;
      running := false;
      commandQueue, requestQueue, inFlight := [], [], None;
      watchdogArmed, watchdogDeadline := false, 0;
      imu, motor := Channel(imuInterval, false, now), Channel(motorInterval, false, now);
      commands, refreshedBy := [], 0;
      stands := FrameOf;
      FrameShowsId();
    }

    method EnqueueCommand(packet: seq<Byte>, refresh: bool, now: int, ghost command: Command) returns (accepted: bool)
      requires Valid() && FromBuilder(stands, packet, command)
      modifies this
      ensures Valid()
      ensures accepted <==> old(running) && |packet| >= 3
      ensures accepted == Accepts(old(Abs()), command.body)
      ensures accepted && refresh && cfg.watchdogEnabled ==>
                watchdogArmed && watchdogDeadline == now + cfg.watchdogTimeout
      ensures !(accepted && refresh && cfg.watchdogEnabled) ==>
                watchdogArmed == old(watchdogArmed) && watchdogDeadline == old(watchdogDeadline)
      ensures accepted ==> commandQueue != [] && commandQueue[|commandQueue| - 1] == packet
      ensures Abs() == if accepted then Accept(cfg, old(Abs()), command, refresh, now) else old(Abs())
    {
      if !running || |packet| < 3 {
        return false;
      }
      if refresh && cfg.watchdogEnabled {
        watchdogDeadline := now + cfg.watchdogTimeout;
        watchdogArmed := true;
        refreshedBy := command.ticket;
      }
      var kept := RemoveId(commandQueue, packet, stands, commands, command);
      StandAppend(stands, kept, Without(commands, command), packet, command);
      commandQueue := kept + [packet];
      commands := Without(commands, command) + [command];
      accepted := true;
    }

    method DequeueCommand() returns (packet: Option<seq<Byte>>)
      requires Valid()
      modifies this
      ensures Valid()
      ensures packet == if old(commandQueue) == [] then None else Some(old(commandQueue)[0])
      ensures commandQueue == if old(commandQueue) == [] then [] else old(commandQueue)[1..]
      ensures packet.Some? ==> stands(packet.value, old(commands)[0])
      ensures Abs() == old(Abs()).(commands := if old(commands) == [] then [] else old(commands)[1..])
    {
      if commandQueue == [] {
        return None;
      }
      packet := Some(commandQueue[0]);
      commandQueue := commandQueue[1..];
      commands := commands[1..];
    }

    /** The locked region of the watchdog check; `due` tells the caller to send the safe stop. */
    method DequeueDueWatchdog(now: int) returns (due: bool)
      requires Valid()
      modifies this
      ensures Valid()
      ensures due <==> old(watchdogArmed) && old(watchdogDeadline) <= now
      ensures due ==> !watchdogArmed && commandQueue == []
      ensures !due ==> watchdogArmed == old(watchdogArmed) && commandQueue == old(commandQueue)
      ensures due == WatchdogDue(old(Abs()), now)
      ensures Abs() == if due then Fire(old(Abs())) else old(Abs())
    {
      if !watchdogArmed || watchdogDeadline > now {
        return false;
      }
      watchdogArmed, watchdogDeadline := false, 0;
      commandQueue := [];
      commands := [];
      due := true;
    }

    /** The sweep hands out the expired in-flight request and the expired queued ones. */
    method HandleRequestTimeout(now: int) returns (timedOut: Option<Request>, expired: seq<Request>, stop: bool)
      requires Valid()
      modifies this
      ensures Valid()
      ensures timedOut == if old(inFlight).Some? && old(inFlight).value.deadline <= now then old(inFlight) else None
      ensures inFlight == if timedOut.Some? then None else old(inFlight)
      ensures forall r :: r in expired <==> r in old(requestQueue) && r.deadline <= now
      ensures forall r :: r in requestQueue <==> r in old(requestQueue) && r.deadline > now
      ensures stop <==> timedOut.Some? && timedOut.value.stopOnTimeout
      ensures (if timedOut.Some? then [timedOut.value] else []) + expired == Swept(old(Abs()), now)
      ensures stop == SweepStops(old(Abs()), now)
      ensures Abs() == AfterSweep(old(Abs()), now)
    {
      timedOut := None;
      if inFlight.Some? && inFlight.value.deadline <= now {
        timedOut := inFlight;
        inFlight := None;
      }
      SweepSorts(requestQueue, now);
      requestQueue, expired := EraseExpired(requestQueue, now);
      stop := timedOut.Some? && timedOut.value.stopOnTimeout;
    }

    method Dispatch(payload: Payload) returns (completed: Option<Request>)
      requires Valid()
      modifies this
      ensures Valid()
      ensures completed.Some? <==>
              payload != [] && old(inFlight).Some? && old(inFlight).value.expected == payload[0]
      ensures completed.Some? ==> completed == old(inFlight) && inFlight.None?
      ensures completed.None? ==> inFlight == old(inFlight)
      ensures completed == if Matches(old(Abs()), payload) then old(inFlight) else None
      ensures Abs() == if completed.Some? then old(Abs()).(inFlight := None) else old(Abs())
    {
      completed := None;
      if payload == [] {
        return;
      }
      if inFlight.Some? && inFlight.value.expected == payload[0] {
        completed := inFlight;
        inFlight := None;
      }
    }

    method ClearPendingWork() returns (queued: seq<Request>, flying: Option<Request>)
      requires Valid()
      modifies this
      ensures Valid()
      ensures queued == old(requestQueue) && flying == old(inFlight)
      ensures commandQueue == [] && requestQueue == [] && inFlight.None? && !watchdogArmed
      ensures queued + (if flying.Some? then [flying.value] else []) == Pending(old(Abs()))
      ensures Abs() == Cleared(old(Abs()))
    {
      commandQueue := [];
      commands := [];
      queued, requestQueue := requestQueue, [];
      flying := inFlight;
      inFlight := None;
      watchdogArmed, watchdogDeadline := false, 0;
    }

    method SelectDuePollChannel(now: int) returns (selected: Option<Source>)
      ensures selected == Some(Imu) <==>
              && imu.interval > 0 && imu.nextDue <= now
              && (motor.interval > 0 && motor.nextDue <= now ==> imu.nextDue <= motor.nextDue)
      ensures selected == Some(Motor) <==>
              && motor.interval > 0 && motor.nextDue <= now
              && (imu.interval > 0 && imu.nextDue <= now ==> motor.nextDue < imu.nextDue)
      ensures selected == SelectPoll(Abs(), now)
    {
      selected := None;
      var selectedDue := 0;
      var channels := [Imu, Motor];
      for i := 0 to |channels|
        invariant selected.Some? ==> selectedDue == ChannelOf(Abs(), selected.value).nextDue
        invariant i == 0 ==> selected.None?
        invariant i == 1 ==> selected == if Due(imu, now) then Some(Imu) else None
        invariant i == 2 ==> selected == SelectPoll(Abs(), now)
      {
        var channel := if channels[i].Imu? then imu else motor;
        if channel.interval > 0 && channel.nextDue <= now {
          if selected.None? || channel.nextDue < selectedDue || (channel.nextDue == selectedDue && channels[i].Imu?) {
            selected := Some(channels[i]);
            selectedDue := channel.nextDue;
          }
        }
      }
    }

    method MakeDuePollRequest(k: Source, now: int) returns (request: Option<Request>)
      requires Valid()
      modifies this
      ensures Valid()
      ensures request.Some? <==>
              && (k.Imu? ==> old(imu).interval > 0 && old(imu).nextDue <= now)
              && (k.Motor? ==> old(motor).interval > 0 && old(motor).nextDue <= now)
      ensures request.Some? ==> request.value.purpose == Poll(k) && request.value.op == 0
      ensures request.Some? ==> request.value.body == (if k.Imu? then [65, 255, 255] else [4])
      ensures request.Some? ==> request.value.expected == if k.Imu? then 65 else 4
      ensures request.Some? ==> request.value.deadline == now + cfg.pollTimeout && !request.value.stopOnTimeout
      ensures request.Some? && k.Imu? ==>
                imu == old(imu).(nextDue := now + old(imu).interval) && motor == old(motor)
      ensures request.Some? && k.Motor? ==>
                motor == old(motor).(nextDue := now + old(motor).interval) && imu == old(imu)
      ensures request == if Due(ChannelOf(old(Abs()), k), now) then Some(PollRequest(cfg, k, now)) else None
      ensures Abs() == if request.Some? then AfterPoll(old(Abs()), k, now) else old(Abs())
    {
      var channel := if k.Imu? then imu else motor;
      if channel.interval <= 0 || channel.nextDue > now {
        return None;
      }
      channel := channel.(nextDue := now + channel.interval);
      if k.Imu? {
        imu := channel;
      } else {
        motor := channel;
      }
      request := Some(Request(Poll(k), 0, 0, PollBody(k)[0], PollBody(k), now + cfg.pollTimeout, false));
    }

    /** A query is taken only when it is the oldest one still live and every enabled poll is
        further away than the guard window. */
    method DequeueReadyQuery(now: int) returns (ready: Option<Request>, expired: seq<Request>)
      requires Valid()
      modifies this
      ensures Valid()
      ensures expired == Expired(old(requestQueue), now)
      ensures forall r :: r in expired <==> r in old(requestQueue) && r.deadline <= now
      ensures ready.Some? <==>
              && (exists r :: r in old(requestQueue) && r.deadline > now)
              && (old(imu).interval > 0 ==> old(imu).nextDue - now > cfg.guardWindow)
              && (old(motor).interval > 0 ==> old(motor).nextDue - now > cfg.guardWindow)
      ensures imu == old(imu) && motor == old(motor)
      ensures ready.Some? ==>
                ready.value.deadline > now &&
                exists i :: 0 <= i < |old(requestQueue)| && old(requestQueue)[i] == ready.value &&
                            forall j :: 0 <= j < i ==> old(requestQueue)[j].deadline <= now
      ensures forall r :: r in requestQueue ==> r in old(requestQueue) && r.deadline > now
      ensures ready.Some? <==> QueryReady(cfg, old(Abs()), now)
      ensures Abs() == AfterTake(cfg, old(Abs()), now)
    {
      ready := None;
      SweepSorts(requestQueue, now);
      requestQueue, expired := EraseExpired(requestQueue, now);
      assert requestQueue != [] ==> requestQueue[0] in requestQueue;
      if requestQueue != [] {
        var imuFar := imu.interval <= 0 || imu.nextDue - now > cfg.guardWindow;
        var motorFar := motor.interval <= 0 || motor.nextDue - now > cfg.guardWindow;
        if imuFar && motorFar {
          FirstUnexpired(old(requestQueue), now);
          EarlierExpired(old(requestQueue), requestQueue[0], now);
          ready := Some(requestQueue[0]);
          requestQueue := requestQueue[1..];
        }
      }
    }
  }

  predicate GivesUp(a: Attempt) {
    a.StopSeen? || a.Refused? || a == Wrote(0)
  }

  /**
   `write_packet` against any sequence of attempts: what reaches the wire is always a prefix of the
   packet, and the call reports success exactly when the whole packet is out. A call that has not
   finished when the attempts end reports nothing yet.
   */
  method WritePacket(packet: seq<Byte>, attempts: seq<Attempt>) returns (ok: Option<bool>, written: seq<Byte>)
    ensures written <= packet
    ensures ok == Some(true) <==> packet != [] && written == packet
    ensures packet != [] && ok == Some(false) ==> exists i :: 0 <= i < |attempts| && GivesUp(attempts[i])
    ensures ok == None ==> packet != [] && forall i :: 0 <= i < |attempts| ==> !GivesUp(attempts[i])
  {
    written := [];
    if packet == [] {
      return Some(false), [];
    }
    var remaining := |packet|;
    for i := 0 to |attempts|
      invariant 0 < remaining <= |packet|
      invariant written == packet[..|packet| - remaining]
      invariant forall j :: 0 <= j < i ==> !GivesUp(attempts[j])
    {
      match attempts[i] {
        case StopSeen => return Some(false), written;
        case Refused => return Some(false), written;
        case Retry =>
        case Wrote(count) =>
          if count == 0 {
            return Some(false), written;
          }
          var n := if count < remaining then count else remaining;
          remaining := remaining - n;
          written := packet[..|packet| - remaining];
          if remaining == 0 {
            return Some(true), written;
          }
      }
    }
    ok := None;
  }
}
