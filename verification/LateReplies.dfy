/**
 Replies that outlive their connection. Nothing is flushed when a connection is made, so a reply to
 a management request of an earlier connection can complete a new request with the same command
 ID, and can even license a configuration write. A connection is safe from this exactly when it is
 made with the line safe: every earlier request answered, and only noise on its way, or acknowledgements
 of writes that cannot be taken for those of another.
 */
module LateReplies {
  import opened Checksums
  import opened Framing
  import opened Wrappers
  import opened Scheduling
  import opened Client
  import opened Runs
  import opened ExactlyOnce
  import opened DeviceLaws
  import opened Correlation
  import opened Walks

  /** A management caller was handed something other than the reply to its request. */
  predicate IsStale(c: Completion) {
    c.request.op != 0 && c.outcome.Reply? && c.outcome.packet.origin != ReplyTo(c.request.id)
  }

  /** Between `s` and `t` a stale payload was handed out, without a new connection. */
  ghost predicate Misdelivered(s: State, t: State) {
    && SameConnection(s.past.log, t.past.log)
    && exists k :: |s.past.completions| <= k < |t.past.completions| && IsStale(t.past.completions[k])
  }

  ghost predicate CanMisdeliver(s: State) {
    exists t :: Leads(Step, s, t) && Misdelivered(s, t)
  }

  // ---- A safe line ------------------------------------------------------------------------

  /** As long as the connection lasts, completions carry what was known when it was made. */
  ghost predicate Lasting(s: State, t: State) {
    && s.past.log <= t.past.log
    && (SameConnection(s.past.log, t.past.log) ==>
          && t.past.safe == s.past.safe
          && |s.past.completions| <= |t.past.completions|
          && forall k :: |s.past.completions| <= k < |t.past.completions| ==>
               t.past.completions[k].safe == s.past.safe)
  }

  lemma SafeChanges(s: State, e: Event)
    ensures Step(s, e).past.log == Extend(s.past.log, Logged(s, e))
    ensures Step(s, e).past.safe == s.past.safe || Logged(s, e) == Some(Connected)
  {}

  lemma CompletionsChange(s: State, e: Event)
    ensures Step(s, e).past.completions == s.past.completions ||
            exists c: Completion ::
              c.safe == s.past.safe && Step(s, e).past.completions == s.past.completions + [c]
  {
    CompletesFromHand(s, e);
  }

  lemma SamePrefix(log: seq<Entry>, more: seq<Entry>, entry: Option<Entry>)
    requires log <= more && SameConnection(log, Extend(more, entry))
    ensures SameConnection(log, more) && entry != Some(Connected)
  {
    var all := Extend(more, entry);
    assert forall i :: 0 <= i < |more| ==> all[i] == more[i];
    if entry.Some? {
      assert all[|more|] == entry.value;
    }
  }

  lemma LastingStep(s: State, t: State, e: Event)
    requires Lasting(s, t)
    ensures Lasting(s, Step(t, e))
  {
    SafeChanges(t, e);
    CompletionsChange(t, e);
    if SameConnection(s.past.log, Step(t, e).past.log) {
      SamePrefix(s.past.log, t.past.log, Logged(t, e));
    }
  }

  lemma LastingReached(s: State, t: State)
    requires Leads(Step, s, t)
    ensures Lasting(s, t)
  {
    var events :| AfterAll(Step, s, events) == t;
    forall u, e | Lasting(s, u)
      ensures Lasting(s, Step(u, e))
    {
      LastingStep(s, u, e);
    }
    Keeps(Step, (u: State) => Lasting(s, u), (e: Event) => true, s, events);
  }

  lemma ReachableOn(s: State, t: State)
    requires Reachable(s) && Leads(Step, s, t)
    ensures Reachable(t)
  {
    var events :| AfterAll(Step, s, events) == t;
    forall u, e | Reachable(u)
      ensures Reachable(Step(u, e))
    {
      ReachableStep(u, e);
    }
    Keeps(Step, (u: State) => Reachable(u), (e: Event) => true, s, events);
  }

  /** A connection made with the line safe hands out nothing stale. */
  lemma SafeIsKept(s: State)
    requires Reachable(s) && s.past.safe
    ensures !CanMisdeliver(s)
  {
    forall t | Leads(Step, s, t)
      ensures !Misdelivered(s, t)
    {
      LastingReached(s, t);
      ReachableOn(s, t);
      forall k | 0 <= k < |t.past.completions| && t.past.completions[k].safe
        ensures !IsStale(t.past.completions[k])
      {
        if t.past.completions[k].outcome.Reply? {
          RepliesAnswerTheirRequests(t, k);
        }
      }
    }
  }

  // ---- From a new connection to a stale reply ---------------------------------------------

  /** The channel is brought down to the packet at `i`, or to nothing. */
  lemma {:induction false} WalkDrop(reach: State -> bool, s: State, keep: Option<nat>) returns (t: State)
    requires Closed(reach) && reach(s) && (keep.Some? ==> keep.value < |s.device.channel|)
    ensures reach(t)
    ensures t == s.(device := s.device.(channel := if keep.Some? then [s.device.channel[keep.value]] else []))
    decreases |s.device.channel|
  {
    var c := s.device.channel;
    if c == [] {
      t := s;
    } else if keep == Some(0) {
      if |c| == 1 {
        assert c == [c[0]];
        t := s;
      } else {
        t := GoCall(reach, s, ChannelDrops(1));
        assert t.device.channel[0] == c[0];
        t := WalkDrop(reach, t, keep);
      }
    } else {
      t := GoCall(reach, s, ChannelDrops(0));
      assert t.device.channel == c[1..];
      t := WalkDrop(reach, t, if keep.Some? then Some(keep.value - 1) else None);
    }
  }

  /** What ended with an earlier connection gives the management lock back. */
  lemma WalkUnlock(reach: State -> bool, s: State) returns (t: State)
    requires Closed(reach) && reach(s)
    requires s.management.Busy? && s.management.phase.Waiting? ==>
               exists k :: 0 <= k < |s.past.completions| && s.past.completions[k].request.id == s.management.phase.id
    ensures reach(t) && t == s.(management := Free)
  {
    t := s;
    if s.management.Busy? && s.management.phase.Waiting? {
      var k :| 0 <= k < |s.past.completions| && s.past.completions[k].request.id == s.management.phase.id;
      t := GoCall(reach, t, Wake(k));
    }
    if t.management.Busy? {
      t := GoCall(reach, t, Unlock);
    }
  }

  /** A connection has just been made, and everything of the earlier ones is over. */
  predicate Fresh(s: State) {
    && s.pc == Starting && s.hand == [] && s.sched.running && s.sched.commands == [] && s.sched.requests == []
    && s.sched.inFlight.None? && s.sched.watchdog.None? && s.nextOp > 0
    && DeviceKnown(s.device, s.past.issued) && (s.management.Busy? ==> s.management.op != 0)
    && (s.management.Busy? && s.management.phase.Waiting? ==>
          exists k :: 0 <= k < |s.past.completions| && s.past.completions[k].request.id == s.management.phase.id)
  }

  /** Connected, with polls disabled and the lock held for `script`. */
  predicate Prepared(s: State, t: State, script: Script) {
    && t.pc == LoopTop && t.hand == [] && Calm(t) && t.sched.requests == [] && t.sched.inFlight.None?
    && t.management == Busy(s.nextOp, script, false, Ready)
    && t.past.issued == s.past.issued && t.past.completions == s.past.completions
    && SameConnection(s.past.log, t.past.log)
  }

  lemma WalkQuieten(reach: State -> bool, s: State) returns (t: State)
    requires Closed(reach) && reach(s) && Fresh(s)
    ensures reach(t) && t.pc == LoopTop && t.hand == [] && Calm(t) && t.sched.requests == [] && t.sched.inFlight.None?
    ensures t.management == s.management && t.nextOp == s.nextOp && t.device == s.device
    ensures t.past.issued == s.past.issued && t.past.completions == s.past.completions
    ensures SameConnection(s.past.log, t.past.log)
  {
    t := Go(reach, s);
    t := GoCall(reach, t, SetInterval(Imu, 0));
    t := GoCall(reach, t, SetInterval(Motor, 0));
  }

  lemma WalkPrepare(reach: State -> bool, s: State, script: Script, keep: Option<nat>) returns (t: State)
    requires Closed(reach) && reach(s) && Fresh(s) && (keep.Some? ==> keep.value < |s.device.channel|)
    ensures reach(t) && Prepared(s, t, script)
    ensures t.device == s.device.(channel := if keep.Some? then [s.device.channel[keep.value]] else [])
  {
    t := WalkQuieten(reach, s);
    t := WalkDrop(reach, t, keep);
    t := WalkUnlock(reach, t);
    t := GoCall(reach, t, Lock(script));
  }

  /** The device answers request `y` and the packet arrives. */
  lemma WalkReply(reach: State -> bool, s: State, y: nat, payload: Payload) returns (t: State)
    requires Closed(reach) && reach(s) && s.device.channel == []
    requires y in s.device.arrived && y !in s.device.served && payload != [] && payload[0] == s.device.arrived[y]
    ensures reach(t)
    ensures t == s.(device := s.device.(
                  served := s.device.served + {y}, channel := [Packet(payload, ReplyTo(y))]))
  {
    t := GoCall(reach, s, DeviceReplies(y, payload));
  }

  /** The holder's request is sent and completed by a packet that was there before. */
  lemma WalkStalePacket(reach: State -> bool, s: State, free: Payload) returns (t: State)
    requires Closed(reach) && reach(s) && MayAsk(s, free) && |s.device.channel| == 1
    requires var p := s.device.channel[0];
             p.payload != [] && p.payload[0] == NextBody(s.management, free)[0] && !p.origin.Noise?
                 && p.origin.id < |s.past.issued|
    ensures reach(t) && Misdelivered(s, t)
  {
    var u := WalkAsk(reach, s, free);
    assert u.device.channel == s.device.channel;
    t := WalkAnswer(reach, u);
    assert t.past.completions == s.past.completions + [AnswerOf(u)];
    assert IsStale(t.past.completions[|s.past.completions|]);
  }

  /** The holder's request is sent and completed by the late reply to request `y`. */
  lemma WalkLateReply(reach: State -> bool, s: State, free: Payload, y: nat) returns (t: State)
    requires Closed(reach) && reach(s) && MayAsk(s, free) && s.device.channel == []
    requires y < |s.past.issued| && y in s.device.arrived && y !in s.device.served
    requires s.device.arrived[y] == NextBody(s.management, free)[0]
    ensures reach(t) && Misdelivered(s, t)
  {
    var u := WalkAsk(reach, s, free);
    var v := WalkReply(reach, u, y, [s.device.arrived[y]]);
    t := WalkAnswer(reach, v);
    assert t.past.completions == s.past.completions + [AnswerOf(v)];
    assert IsStale(t.past.completions[|s.past.completions|]);
  }

  /** A configuration write gets as far as its write: the device answers the read. */
  lemma WalkVerified(reach: State -> bool, s: State, setId: Byte) returns (t: State)
    requires Closed(reach) && reach(s) && IsConfigWrite(setId) && s.device.channel == []
    requires s.management.Busy? && s.management.script == WriteConfig(setId, [0, 0, 0, 0]) && !s.management.verified
    requires MayAsk(s, []) && |s.past.issued| !in s.device.served
    ensures reach(t) && t.pc == LoopTop && t.hand == [] && Calm(t) && t.sched.requests == [] && t.sched.inFlight.None?
    ensures t.management == s.management.(verified := true, phase := Ready)
    ensures t.device.channel == [] && t.device.served == s.device.served + {|s.past.issued|}
    ensures t.device.arrived == s.device.arrived[|s.past.issued| := ReadIdFor(setId)]
    ensures |t.past.issued| == |s.past.issued| + 1 && |s.past.completions| <= |t.past.completions|
    ensures SameConnection(s.past.log, t.past.log)
  {
    t := WalkRead(reach, s, setId);
    t := WalkWake(reach, t, |t.past.completions| - 1);
  }

  /** The read of a configuration write is answered. */
  lemma WalkRead(reach: State -> bool, s: State, setId: Byte) returns (t: State)
    requires Closed(reach) && reach(s) && IsConfigWrite(setId) && s.device.channel == []
    requires s.management.Busy? && s.management.script == WriteConfig(setId, [0, 0, 0, 0]) && !s.management.verified
    requires MayAsk(s, []) && |s.past.issued| !in s.device.served
    ensures reach(t) && t.pc == LoopTop && t.hand == [] && Calm(t) && t.sched.requests == [] && t.sched.inFlight.None?
    ensures t.management == s.management.(phase := Phase.Waiting(|s.past.issued|))
    ensures t.device.channel == [] && t.device.served == s.device.served + {|s.past.issued|}
    ensures t.device.arrived == s.device.arrived[|s.past.issued| := ReadIdFor(setId)]
    ensures |t.past.issued| == |s.past.issued| + 1 && |t.past.completions| == |s.past.completions| + 1
    ensures Verifies(t.past.completions[|s.past.completions|], |s.past.issued|, setId)
    ensures SameConnection(s.past.log, t.past.log)
  {
    t := WalkAsk(reach, s, []);
    t := WalkReply(reach, t, |s.past.issued|, [ReadIdFor(setId), 0, 0, 0, 0]);
    t := WalkAnswer(reach, t);
    t := WalkBack(reach, t);
  }

  /** The completion of request `id` with an image that begins with four zeros. */
  predicate Verifies(c: Completion, id: nat, setId: Byte) {
    c.request.id == id && c.outcome.Reply? && c.outcome.packet.payload == [ReadIdFor(setId), 0, 0, 0, 0]
  }

  lemma WalkWake(reach: State -> bool, s: State, k: nat) returns (t: State)
    requires Closed(reach) && reach(s) && k < |s.past.completions|
    requires s.management.Busy? && s.management.phase.Waiting? && !s.management.verified
    requires s.management.script.WriteConfig? && s.management.script.image == [0, 0, 0, 0]
    requires Verifies(s.past.completions[k], s.management.phase.id, s.management.script.setId)
    ensures reach(t) && t == s.(management := s.management.(verified := true, phase := Ready))
  {
    var p := s.past.completions[k].outcome.packet.payload;
    assert p[1..] == [0, 0, 0, 0];
    t := GoCall(reach, s, Wake(k));
  }

  lemma Relayed(s: State, u: State, t: State)
    requires SameConnection(s.past.log, u.past.log) && |s.past.completions| <= |u.past.completions|
             && Misdelivered(u, t)
    ensures Misdelivered(s, t)
  {
    var a, b, c := s.past.log, u.past.log, t.past.log;
    assert forall i :: 0 <= i < |b| ==> c[i] == b[i];
  }

  /** An unanswered request of an earlier connection can be answered on this one. */
  lemma UnservedMisdelivers(reach: State -> bool, s: State, y: nat) returns (t: State)
    requires Closed(reach) && reach(s) && Fresh(s) && y in s.device.arrived && y !in s.device.served
    ensures reach(t) && Misdelivered(s, t)
  {
    var command := s.device.arrived[y];
    assert ArrivalKnown(y, command, s.past.issued);
    if IsConfigWrite(command) {
      var u := WalkPrepare(reach, s, WriteConfig(command, [0, 0, 0, 0]), None);
      var v := WalkVerified(reach, u, command);
      t := WalkLateReply(reach, v, [], y);
      Relayed(u, v, t);
      Relayed(s, u, t);
    } else {
      var u := WalkPrepare(reach, s, Script.Other, None);
      t := WalkLateReply(reach, u, [command], y);
      Relayed(s, u, t);
    }
  }

  /** A packet left over from an earlier connection can be read on this one. */
  lemma LeftoverMisdelivers(reach: State -> bool, s: State, i: nat) returns (t: State)
    requires Closed(reach) && reach(s) && Fresh(s) && i < |s.device.channel|
    requires var p := s.device.channel[i]; !p.origin.Noise? && p.payload != [] && !IsConfigWrite(p.payload[0])
    ensures reach(t) && Misdelivered(s, t)
  {
    assert PacketKnown(s.device.channel[i], s.past.issued);
    var u := WalkPrepare(reach, s, Script.Other, Some(i));
    t := WalkStalePacket(reach, u, [s.device.channel[i].payload[0]]);
    Relayed(s, u, t);
  }

  /** The holder of the lock comes to its write without a read, if it may. */
  lemma WalkToWrite(reach: State -> bool, s: State, c: Byte) returns (t: State)
    requires Closed(reach) && reach(s) && MayWrite(s, c)
    ensures reach(t) && t == s.(management := t.management) && AtWrite(t.management)
    ensures t.management == s.management.(verified := true, phase := Ready)
  {
    t := s;
    if !AtWrite(s.management) {
      var k :| 0 <= k < |s.past.completions| && WakesTo(s.management, s.past.completions[k]);
      t := GoCall(reach, s, Wake(k));
    }
  }

  /** An acknowledgement left over from an earlier connection can be taken for that of a write the
      holder of the lock may make without a read. */
  lemma AckMisdelivers(reach: State -> bool, s: State, i: nat) returns (t: State)
    requires Closed(reach) && reach(s) && Fresh(s) && i < |s.device.channel|
    requires var p := s.device.channel[i];
             !p.origin.Noise? && p.payload != [] && IsConfigWrite(p.payload[0]) && MayWrite(s, p.payload[0])
    ensures reach(t) && Misdelivered(s, t)
  {
    var c := s.device.channel[i].payload[0];
    assert PacketKnown(s.device.channel[i], s.past.issued);
    var u := WalkQuieten(reach, s);
    u := WalkDrop(reach, u, Some(i));
    assert MayWrite(u, c);
    u := WalkToWrite(reach, u, c);
    t := WalkStalePacket(reach, u, []);
    Relayed(s, u, t);
  }

  // ---- Theorem ----------------------------------------------------------------------------

  /** The I/O thread is about to start on a new connection. */
  predicate Connecting(s: State) {
    s.pc == Finishing(ToStart) && s.hand == []
  }

  lemma AllCompleted(s: State, y: nat)
    requires RequestInv(s) && Connecting(s) && y < |s.past.issued|
    ensures exists k :: 0 <= k < |s.past.completions| && s.past.completions[k].request == s.past.issued[y]
  {
    var p := PlacesOf(s);
    OnePlace(p, y);
    assert s.past.issued[y] in p.completed;
    var k :| 0 <= k < |p.completed| && p.completed[k] == s.past.issued[y];
    assert s.past.completions[k].request == s.past.issued[y];
  }

  lemma ConnectedIsFresh(s: State)
    requires Reachable(s) && Connecting(s)
    ensures Fresh(Started(s)) && Started(s).past.safe == Safe(s)
  {
    KnownReachable(s);
    if s.management.Busy? && s.management.phase.Waiting? {
      HolderIsTold(s);
    }
  }

  lemma HolderIsTold(s: State)
    requires Reachable(s) && Connecting(s) && s.management.Busy? && s.management.phase.Waiting?
    ensures exists k :: 0 <= k < |s.past.completions| && s.past.completions[k].request.id == s.management.phase.id
  {
    ReplyReachable(s);
    AllCompleted(s, s.management.phase.id);
    var k :| 0 <= k < |s.past.completions| && s.past.completions[k].request == s.past.issued[s.management.phase.id];
    assert s.past.completions[k].request.id == s.management.phase.id;
  }

  lemma LeadsClosed(s: State, reach: State -> bool)
    requires forall t :: reach(t) <==> Leads(Step, s, t)
    ensures Closed(reach) && reach(s)
  {
    LeadsHere(Step, s);
    forall t, e | reach(t)
      ensures reach(Step(t, e))
    {
      LeadsOn(Step, s, t, e);
    }
  }

  /** What was not safe when the connection was made is still not safe right after. */
  lemma StartedIsAsSafe(s: State)
    requires Connecting(s)
    ensures Safe(Started(s)) <==> Safe(s)
  {
    assert forall c :: MayWrite(Started(s), c) <==> MayWrite(s, c);
    assert forall p :: Harmless(Started(s), p) <==> Harmless(s, p);
  }

  lemma UnsafeMisdelivers(s: State, reach: State -> bool) returns (t: State)
    requires Closed(reach) && reach(s) && Fresh(s) && !Safe(s)
    ensures reach(t) && Misdelivered(s, t)
  {
    if y :| y in s.device.arrived && y !in s.device.served {
      t := UnservedMisdelivers(reach, s, y);
    } else {
      assert s.device.arrived.Keys <= s.device.served;
      var i :| 0 <= i < |s.device.channel| && !Harmless(s, s.device.channel[i]);
      assert PacketKnown(s.device.channel[i], s.past.issued);
      if IsConfigWrite(s.device.channel[i].payload[0]) {
        t := AckMisdelivers(reach, s, i);
      } else {
        t := LeftoverMisdelivers(reach, s, i);
      }
    }
  }

  /** The exact condition: a connection can hand a stale payload to a management caller if and only if
      the line was not safe when it was made. */
  lemma MisdeliversExactlyWhenUnsafe(s: State)
    requires Reachable(s) && Connecting(s)
    ensures CanMisdeliver(Step(s, Io(Fine))) <==> !Safe(s)
  {
    var t := Started(s);
    StartedSteps(s);
    ConnectedIsFresh(s);
    if Safe(s) {
      ReachableStep(s, Io(Fine));
      SafeIsKept(t);
    } else {
      StartedIsAsSafe(s);
      var reach := (u: State) => Leads(Step, t, u);
      LeadsClosed(t, reach);
      var u := UnsafeMisdelivers(t, reach);
      assert Leads(Step, t, u);
    }
  }

  // ---- What a caller can know -------------------------------------------------------------

  lemma SettledIsSafe(s: State)
    requires Settled(s.device)
    ensures Safe(s)
  {}

  /** Nothing about request `y` is or will be on the line. */
  predicate Gone(d: Device, y: nat) {
    y in d.served && forall i :: 0 <= i < |d.channel| ==> !Concerns(d.channel[i], y)
  }

  lemma GoneDevice(s: State, e: Event, y: nat)
    requires Gone(s.device, y) && !e.Io?
    ensures Gone(Step(s, e).device, y)
  {}

  lemma GoneIo(s: State, e: Event, y: nat)
    requires Gone(s.device, y) && e.Io?
    ensures Gone(Step(s, e).device, y)
  {
    ChannelChanges(s, e);
    DeviceChanges(s, e);
  }

  /** Whoever was told of a reply has the only one, and nothing about that request follows. */
  ghost predicate TakenInv(s: State) {
    forall r, p :: Told(s, r, p) && p.origin.ReplyTo? ==> Gone(s.device, p.origin.id)
  }

  lemma ReadTakes(s: State, e: Event, r: Request, p: Packet)
    requires Told(Step(s, e), r, p) && !Told(s, r, p) && Arrives(s, r, p)
    ensures Step(s, e).device == s.device.(channel := s.device.channel[1..])
  {
    if !e.Io? {
      ToldCaller(s, e, r, p);
    } else {
      ReadingTakes(s, e, r, p);
    }
  }

  lemma ReadingTakes(s: State, e: Event, r: Request, p: Packet)
    requires e.Io? && Told(Step(s, e), r, p) && !Told(s, r, p) && s.pc == Reading && s.device.channel != []
    ensures Step(s, e).device == s.device.(channel := s.device.channel[1..])
  {
    CompletesIo(s, e);
  }

  lemma HeadGone(d: Device)
    requires InOrder(d) && d.channel != [] && d.channel[0].origin.ReplyTo?
    ensures Gone(d.(channel := d.channel[1..]), d.channel[0].origin.id)
  {
    assert forall i :: 0 <= i < |d.channel[1..]| ==> d.channel[1..][i] == d.channel[i + 1];
  }

  lemma TakenStep(s: State, e: Event)
    requires TakenInv(s) && InOrder(s.device)
    ensures TakenInv(Step(s, e))
  {
    forall r, p | Told(Step(s, e), r, p) && p.origin.ReplyTo?
      ensures Gone(Step(s, e).device, p.origin.id)
    {
      ToldStep(s, e, r, p);
      if Told(s, r, p) {
        if e.Io? {
          GoneIo(s, e, p.origin.id);
        } else {
          GoneDevice(s, e, p.origin.id);
        }
      } else {
        ReadTakes(s, e, r, p);
        HeadGone(s.device);
      }
    }
  }

  /** Request `y` was completed by its own reply. */
  ghost predicate OwnReplied(s: State, y: nat) {
    exists k :: 0 <= k < |s.past.completions| && HasOwnReply(s.past.completions[k], y)
  }

  predicate HasOwnReply(c: Completion, y: nat) {
    c.request.id == y && c.outcome.Reply? && c.outcome.packet.origin == ReplyTo(y)
  }

  /** If every management request that reached the device was completed by its own reply, the line is
      settled. */
  lemma OwnRepliesSettle(s: State)
    requires TakenInv(s) && InOrder(s.device) && forall y :: y in s.device.arrived ==> OwnReplied(s, y)
    ensures Settled(s.device)
  {
    forall y | y in s.device.arrived
      ensures Gone(s.device, y)
    {
      assert OwnReplied(s, y);
      var k :| 0 <= k < |s.past.completions| && HasOwnReply(s.past.completions[k], y);
      var c := s.past.completions[k];
      assert Correlation.Tells(c, c.request, c.outcome.packet);
      assert Told(s, c.request, c.outcome.packet);
    }
    AllGoneIsNoise(s.device);
  }

  lemma AllGoneIsNoise(d: Device)
    requires InOrder(d) && forall y :: y in d.arrived ==> Gone(d, y)
    ensures Settled(d)
  {
    assert forall i :: 0 <= i < |d.channel| ==>
        d.channel[i].origin.Noise? || Concerns(d.channel[i], d.channel[i].origin.id);
  }

  predicate Reached(s: State, c: Completion) {
    c.request.op != 0 && c.request.id in s.device.arrived
  }

  /** Every management call whose request reached the device came back with a payload. */
  predicate AllAnswered(s: State) {
    forall k :: 0 <= k < |s.past.completions| && Reached(s, s.past.completions[k]) ==>
      s.past.completions[k].outcome.Reply?
  }

  ghost predicate CallerInv(s: State) {
    AllAnswered(s) ==> s.past.safe && forall k :: 0 <= k < |s.past.completions| ==> s.past.completions[k].safe
  }

  lemma ArrivedGrows(s: State, e: Event)
    ensures s.device.arrived.Keys <= Step(s, e).device.arrived.Keys
  {
    if e.Io? {
      DeviceChanges(s, e);
    }
  }

  lemma AnsweredBefore(s: State, e: Event)
    requires AllAnswered(Step(s, e))
    ensures AllAnswered(s)
  {
    CompletionsChange(s, e);
    ArrivedGrows(s, e);
    assert forall y :: y in s.device.arrived ==> y in s.device.arrived.Keys && y in Step(s, e).device.arrived.Keys;
    assert forall k :: 0 <= k < |s.past.completions| ==> Step(s, e).past.completions[k] == s.past.completions[k];
  }

  /** If all calls were answered on safe connections, each by its own reply, the next one is settled. */
  lemma AnsweredSettles(s: State)
    requires ReplyInv(s) && TakenInv(s) && Connecting(s) && AllAnswered(s) && CallerInv(s)
    ensures Settled(s.device)
  {
    forall y | y in s.device.arrived
      ensures OwnReplied(s, y)
    {
      assert ArrivalKnown(y, s.device.arrived[y], s.past.issued);
      AllCompleted(s, y);
      var k :| 0 <= k < |s.past.completions| && s.past.completions[k].request == s.past.issued[y];
      var c := s.past.completions[k];
      assert c.request.id == y && c.outcome.Reply?;
      assert Good(c.request, c.outcome, c.safe);
      assert HasOwnReply(c, y);
    }
    OwnRepliesSettle(s);
  }

  lemma CallerStep(s: State, e: Event)
    requires ReplyInv(s) && TakenInv(s) && CallerInv(s)
    ensures CallerInv(Step(s, e))
  {
    var t := Step(s, e);
    if AllAnswered(t) {
      AnsweredBefore(s, e);
      CompletionsChange(s, e);
      if e.Io? && Connecting(s) {
        AnsweredSettles(s);
        SettledIsSafe(s);
        StartSetsFlag(s, e);
      } else {
        FlagKept(s, e);
      }
    }
  }

  ghost predicate AnsweredInv(s: State) {
    ReplyAll(s) && TakenInv(s) && CallerInv(s)
  }

  lemma InitAnswered(cfg: Config, imu: nat, motor: nat, now: int)
    ensures AnsweredInv(Init(cfg, imu, motor, now))
  {
    InitReplies(cfg, imu, motor, now);
  }

  lemma AnsweredReachable(s: State)
    requires Reachable(s)
    ensures AnsweredInv(s)
  {
    forall cfg, imu: nat, motor: nat, now
      ensures AnsweredInv(Init(cfg, imu, motor, now))
    {
      InitAnswered(cfg, imu, motor, now);
    }
    forall t, e | AnsweredInv(t)
      ensures AnsweredInv(Step(t, e))
    {
      ReplyStep(t, e);
      TakenStep(t, e);
      CallerStep(t, e);
    }
    ReachableKeeps(AnsweredInv, s);
  }

  /** The caller's condition: if every management call whose request reached the device came back with a
      payload, on this connection and all earlier ones, then every connection so far was made with the
      line safe, each of those payloads answers its own request, and the next connection is made with
      the line settled. */
  lemma AnsweredCallersAreSafe(s: State)
    requires Reachable(s) && AllAnswered(s)
    ensures s.past.safe && forall k :: 0 <= k < |s.past.completions| ==> !IsStale(s.past.completions[k])
    ensures Connecting(s) ==> Settled(s.device) && Safe(s)
  {
    AnsweredReachable(s);
    forall k | 0 <= k < |s.past.completions|
      ensures !IsStale(s.past.completions[k])
    {
      assert Good(s.past.completions[k].request, s.past.completions[k].outcome, s.past.completions[k].safe);
    }
    if Connecting(s) {
      AnsweredSettles(s);
      SettledIsSafe(s);
    }
  }
}
