/**
 Replies and the requests they answer. The device answers a management request at most once, with
 the request's command ID, and a calibration may report configurations before its result; the
 channel keeps order and may drop. Then on a connection that was made with the line safe, every
 payload handed to a management caller answers the very request of that caller. What protects it
 is that a management request which times out in flight ends the connection before anything else
 is read. Nothing protects a connection from replies to requests of an earlier one: see `LateReplies`.
 */
module Correlation {
  import opened Framing
  import opened Wrappers
  import opened Scheduling
  import opened Client
  import opened Runs
  import opened ExactlyOnce
  import opened DeviceLaws
  import opened Leftovers

  predicate AwaitedArrived(s: State) {
    AwaitedId(s).Some? ==> AwaitedId(s).value in s.device.arrived
  }

  /** A reply is good for a request: right command ID, and for management the right request, if the
      connection was made with the line safe. */
  predicate Good(r: Request, o: Outcome, safe: bool) {
    o.Reply? ==>
      && o.packet.payload != []
      && o.packet.payload[0] == r.expected
      && (safe && r.op != 0 ==> o.packet.origin == ReplyTo(r.id))
  }

  predicate LineInv(s: State) {
    Leaving(s.pc) || !s.past.safe || (Tidy(s.device, AwaitedId(s)) && AwaitedArrived(s))
  }

  /** Nothing can be taken for an acknowledgement that is left over on the line. */
  ghost predicate Bars(s: State) {
    forall i :: 0 <= i < |s.device.channel| && Spent(s.device.channel[i], AwaitedId(s)) ==>
      s.device.channel[i].payload != [] && Barred(s, s.device.channel[i].payload[0])
  }

  ghost predicate BarInv(s: State) {
    Leaving(s.pc) || !s.past.safe || Bars(s)
  }

  predicate Answers(s: State) {
    s.hand != [] && s.verdict.Reply? && s.hand[0].op != 0
  }

  predicate OnlyNoise(d: Device) {
    forall i :: 0 <= i < |d.channel| ==> d.channel[i].origin.Noise?
  }

  /** By the time a management caller is told of a reply, nothing else is on the line. */
  predicate HandInv(s: State) {
    Leaving(s.pc) || !s.past.safe || (Answers(s) ==> OnlyNoise(s.device) && s.sched.inFlight.None? && s.pc.Finishing?)
  }

  predicate OutcomeInv(s: State) {
    && (forall i :: 0 <= i < |s.hand| ==> Good(s.hand[i], s.verdict, s.past.safe))
    && (forall i :: 0 <= i < |s.past.completions| ==>
          Good(s.past.completions[i].request, s.past.completions[i].outcome, s.past.completions[i].safe))
  }

  ghost predicate ReplyInv(s: State) {
    && KnownInv(s) && OnlyQueriesComplete(s) && AwaitsOwn(s)
    && LineInv(s) && BarInv(s) && HandInv(s) && OutcomeInv(s)
  }

  // ---- Device -----------------------------------------------------------------------------

  lemma LineReplies(s: State, y: nat, payload: Payload)
    requires LineInv(s)
    ensures LineInv(OnDeviceReplies(s, y, payload))
  {
    if !Leaving(s.pc) && s.past.safe && OnDeviceReplies(s, y, payload) != s {
      TidyDelivers(s.device.(served := s.device.served + {y}), AwaitedId(s), Packet(payload, ReplyTo(y)));
    }
  }

  lemma LineReports(s: State, y: nat, payload: Payload)
    requires LineInv(s)
    ensures LineInv(OnDeviceReports(s, y, payload))
  {
    if !Leaving(s.pc) && s.past.safe && OnDeviceReports(s, y, payload) != s {
      TidyDelivers(s.device, AwaitedId(s), Packet(payload, Unsolicited(y)));
    }
  }

  lemma LineNoise(s: State, payload: Payload)
    requires LineInv(s)
    ensures LineInv(OnDeviceNoise(s, payload))
  {
    if !Leaving(s.pc) && s.past.safe && OnDeviceNoise(s, payload) != s {
      TidyDelivers(s.device, AwaitedId(s), Packet(payload, Noise));
    }
  }

  lemma LineDrops(s: State, k: nat)
    requires LineInv(s)
    ensures LineInv(OnChannelDrops(s, k))
  {
    if !Leaving(s.pc) && s.past.safe && k < |s.device.channel| {
      TidyDrops(s.device, AwaitedId(s), k);
    }
  }

  lemma LineDevice(s: State, e: Event)
    requires LineInv(s) && FromDevice(e)
    ensures LineInv(Act(s, e))
  {
    match e
    case DeviceReplies(y, payload) => LineReplies(s, y, payload);
    case DeviceReports(y, payload) => LineReports(s, y, payload);
    case DeviceNoise(payload) => LineNoise(s, payload);
    case ChannelDrops(k) => LineDrops(s, k);
  }

  /** The log is no part of what is said about replies. */
  lemma LogDoesNotMatter(s: State, e: Event)
    ensures LineInv(Step(s, e)) <==> LineInv(Act(s, e))
    ensures OutcomeInv(Step(s, e)) <==> OutcomeInv(Act(s, e))
    ensures HandInv(Step(s, e)) <==> HandInv(Act(s, e))
  {}

  // ---- Reading ----------------------------------------------------------------------------

  /** The awaited management request can only be completed by its own reply, and afterwards only noise
      is under way. */
  lemma OwnReply(d: Device, issued: seq<Request>, r: Request)
    requires DeviceKnown(d, issued) && InOrder(d) && Tidy(d, Some(r.id)) && d.channel != []
    requires r.op != 0 && Fit(r) && r.id < |issued| && issued[r.id] == r
    requires !Spent(d.channel[0], Some(r.id)) && d.channel[0].payload[0] == r.expected
    ensures d.channel[0].origin == ReplyTo(r.id)
    ensures OnlyNoise(d.(channel := d.channel[1..])) && Tidy(d.(channel := d.channel[1..]), None)
  {
    assert PacketKnown(d.channel[0], issued);
    var rest := d.channel[1..];
    forall i | 0 <= i < |rest|
      ensures rest[i].origin.Noise?
    {
      assert rest[i] == d.channel[i + 1];
    }
  }

  /** What a management request in flight expects is barred to nothing on the line. */
  lemma NotSpent(s: State, r: Request)
    requires RequestInv(s) && Bars(s) && s.sched.inFlight == Some(r) && s.device.channel != []
    requires s.device.channel[0].payload != [] && s.device.channel[0].payload[0] == r.expected
    ensures !Spent(s.device.channel[0], AwaitedId(s))
  {
    FlyingIsNotBarred(s, r);
  }

  lemma ReadingAnswers(s: State, r: Request)
    requires KnownInv(s) && Tidy(s.device, Some(r.id)) && Bars(s) && !s.pc.Installing?
    requires s.sched.inFlight == Some(r) && r.op != 0 && s.device.channel != []
    requires s.device.channel[0].payload != [] && s.device.channel[0].payload[0] == r.expected
    ensures var rest := s.device.(channel := s.device.channel[1..]);
            s.device.channel[0].origin == ReplyTo(r.id) && OnlyNoise(rest) && Tidy(rest, None)
  {
    assert PlacesOf(s).flying == [r] && Fit(PlacesOf(s).flying[0]);
    FoundIsIssued(PlacesOf(s), r);
    NotSpent(s, r);
    OwnReply(s.device, s.past.issued, r);
  }

  /** What is in flight is completed. */
  lemma ReadsReply(s: State, result: Result)
    requires ReplyInv(s) && s.pc.Reading? && result.Moved? && s.device.channel != []
    requires Matches(s.sched, s.device.channel[0].payload)
    ensures LineInv(IoStep(s, result)) && OutcomeInv(IoStep(s, result)) && HandInv(IoStep(s, result))
  {
    var r := s.sched.inFlight.value;
    var rest := s.device.(channel := s.device.channel[1..]);
    if s.past.safe {
      TidyPops(s.device, AwaitedId(s));
      if r.op != 0 {
        ReadingAnswers(s, r);
      }
    }
    assert s.past.safe && r.op == 0 ==> AwaitedId(s) == None;
    Handed(s, result, r, rest);
  }

  lemma Handed(s: State, result: Result, r: Request, rest: Device)
    requires s.pc.Reading? && result.Moved? && s.device.channel != []
    requires Matches(s.sched, s.device.channel[0].payload) && OutcomeInv(s)
    requires r == s.sched.inFlight.value && rest == s.device.(channel := s.device.channel[1..])
    requires s.past.safe ==> Tidy(rest, None)
    requires s.past.safe && r.op != 0 ==> s.device.channel[0].origin == ReplyTo(r.id) && OnlyNoise(rest)
    ensures LineInv(IoStep(s, result)) && OutcomeInv(IoStep(s, result)) && HandInv(IoStep(s, result))
  {}

  lemma ReadsPast(s: State, result: Result)
    requires ReplyInv(s) && s.pc.Reading? && result.Moved? && s.device.channel != []
    requires !Matches(s.sched, s.device.channel[0].payload)
    ensures LineInv(IoStep(s, result)) && OutcomeInv(IoStep(s, result)) && HandInv(IoStep(s, result))
  {
    assert PacketKnown(s.device.channel[0], s.past.issued);
    if s.past.safe {
      TidyPops(s.device, AwaitedId(s));
    }
  }

  lemma ReadsNothing(s: State, result: Result)
    requires ReplyInv(s) && s.pc.Reading? && (!result.Moved? || s.device.channel == [])
    ensures LineInv(IoStep(s, result)) && OutcomeInv(IoStep(s, result)) && HandInv(IoStep(s, result))
  {}

  lemma ReplyReading(s: State, result: Result)
    requires ReplyInv(s) && s.pc.Reading?
    ensures LineInv(IoStep(s, result)) && OutcomeInv(IoStep(s, result)) && HandInv(IoStep(s, result))
  {
    if !result.Moved? || s.device.channel == [] {
      ReadsNothing(s, result);
    } else if Matches(s.sched, s.device.channel[0].payload) {
      ReadsReply(s, result);
    } else {
      ReadsPast(s, result);
    }
  }

  // ---- The other steps --------------------------------------------------------------------

  /** Callers change nothing that the line is about, except when they end or begin a connection. */
  lemma CallerLeavesLine(s: State, e: Event)
    requires !e.Io? && !FromDevice(e)
    ensures Act(s, e).device == s.device && Act(s, e).past.safe == s.past.safe
    ensures (Act(s, e).pc == s.pc && Act(s, e).sched.inFlight == s.sched.inFlight &&
             Act(s, e).hand == s.hand && Act(s, e).verdict == s.verdict) ||
            (Leaving(s.pc) && Leaving(Act(s, e).pc))
  {}

  lemma LineCaller(s: State, e: Event)
    requires LineInv(s) && HandInv(s) && !e.Io? && !FromDevice(e)
    ensures LineInv(Act(s, e)) && HandInv(Act(s, e))
  {
    CallerLeavesLine(s, e);
  }

  /** While a reply is being handed over the device has nothing left to answer. */
  lemma HandDevice(s: State, e: Event)
    requires LineInv(s) && HandInv(s) && FromDevice(e)
    ensures HandInv(Act(s, e))
  {}

  lemma OutcomeCaller(s: State, e: Event)
    requires OutcomeInv(s) && !e.Io?
    ensures OutcomeInv(Act(s, e))
  {}

  lemma ReplyPlain(s: State, result: Result)
    requires ControlInv(s) && LineInv(s) && OutcomeInv(s) && Plain(s.pc)
    ensures LineInv(IoStep(s, result)) && OutcomeInv(IoStep(s, result)) && HandInv(IoStep(s, result))
  {}

  lemma ReplySweep(s: State, result: Result)
    requires RequestInv(s) && LineInv(s) && OutcomeInv(s) && s.pc.Sweep?
    ensures LineInv(IoStep(s, result)) && OutcomeInv(IoStep(s, result)) && HandInv(IoStep(s, result))
  {
    if s.sched.inFlight.Some? {
      assert Fit(PlacesOf(s).flying[0]);
    }
  }

  lemma ReplyTake(s: State, result: Result)
    requires LineInv(s) && OutcomeInv(s) && ControlInv(s) && (s.pc.QueryTake? || s.pc.Clearing?)
    ensures LineInv(IoStep(s, result)) && OutcomeInv(IoStep(s, result)) && HandInv(IoStep(s, result))
  {}

  lemma ReplySchedules(s: State, result: Result)
    requires LineInv(s) && OutcomeInv(s) && ControlInv(s) && Schedules(s.pc)
    ensures LineInv(IoStep(s, result)) && OutcomeInv(IoStep(s, result)) && HandInv(IoStep(s, result))
  {}

  lemma ReplyCallback(s: State, result: Result)
    requires LineInv(s) && HandInv(s) && OutcomeInv(s) && s.pc.Finishing? && s.hand != []
    requires s.verdict.Reply? ==> |s.hand| <= 1
    ensures LineInv(IoStep(s, result)) && OutcomeInv(IoStep(s, result)) && HandInv(IoStep(s, result))
  {
    var t := IoStep(s, result);
    assert t.device == s.device && t.pc == s.pc && t.sched == s.sched && t.past.safe == s.past.safe;
    assert Good(s.hand[0], s.verdict, s.past.safe);
  }

  lemma StartedState(s: State, result: Result)
    requires s.pc == Finishing(ToStart) && s.hand == []
    ensures var t := IoStep(s, result);
            && t.past.safe == Safe(s) && t.device == s.device && t.sched.inFlight == s.sched.inFlight
            && t.pc == Starting && t.hand == [] && t.past.completions == s.past.completions
  {}

  lemma ReplyStart(s: State, result: Result)
    requires KnownInv(s) && OutcomeInv(s) && s.pc == Finishing(ToStart) && s.hand == []
    ensures LineInv(IoStep(s, result)) && OutcomeInv(IoStep(s, result)) && HandInv(IoStep(s, result))
  {
    StartedState(s, result);
    if IoStep(s, result).past.safe {
      SafeIsTidy(s);
    }
    StartedReplies(s, IoStep(s, result));
  }

  lemma StartedReplies(s: State, t: State)
    requires ControlInv(s) && OutcomeInv(s) && s.pc == Finishing(ToStart)
    requires t.device == s.device && t.sched.inFlight == s.sched.inFlight && t.pc == Starting && t.hand == []
    requires t.past.completions == s.past.completions && (t.past.safe ==> Tidy(t.device, None))
    ensures LineInv(t) && OutcomeInv(t) && HandInv(t)
  {}

  lemma ReplyGoesOn(s: State, result: Result)
    requires LineInv(s) && OutcomeInv(s) && ControlInv(s) && s.pc.Finishing? && !s.pc.after.ToStart? && s.hand == []
    ensures LineInv(IoStep(s, result)) && OutcomeInv(IoStep(s, result)) && HandInv(IoStep(s, result))
  {
    var t := IoStep(s, result);
    assert t.device == s.device && t.sched == s.sched && t.past == s.past;
  }

  /** A request on its way to the device is not what anything left over on the line answers. */
  lemma LeftoversAreOthers(s: State)
    requires KnownInv(s) && Tidy(s.device, None) && AwaitedId(s) == None && Bars(s)
    requires s.pc.Writing? && s.pc.job.Ask? && s.pc.job.request.op != 0
    ensures forall i :: 0 <= i < |s.device.channel| ==> !Concerns(s.device.channel[i], s.pc.job.request.id)
  {
    var r, p := s.pc.job.request, PlacesOf(s);
    assert p.held == [r] && Fit(p.held[0]);
    FoundIsIssued(p, r);
    HeldIsNotBarred(s, r);
    forall i | 0 <= i < |s.device.channel|
      ensures !Concerns(s.device.channel[i], r.id)
    {
      assert PacketKnown(s.device.channel[i], s.past.issued);
    }
  }

  lemma LineWrite(s: State, result: Result)
    requires ControlInv(s) && LineInv(s) && s.pc.Writing?
    requires s.past.safe && s.pc.job.Ask? && s.pc.job.request.op != 0 ==>
               forall i :: 0 <= i < |s.device.channel| ==> !Concerns(s.device.channel[i], s.pc.job.request.id)
    ensures LineInv(IoStep(s, result))
  {
    if s.pc.job.Ask? && s.past.safe && s.pc.job.request.op != 0 {
      assert AwaitedId(s) == None;
      TidyArrives(s.device, s.pc.job.request.id, s.pc.job.request.expected);
    }
  }

  lemma OutcomeWrite(s: State, result: Result)
    requires ControlInv(s) && OutcomeInv(s) && s.pc.Writing?
    ensures OutcomeInv(IoStep(s, result)) && HandInv(IoStep(s, result))
  {}

  lemma LineIsOthers(s: State)
    requires ReplyInv(s) && s.pc.Writing? && s.past.safe && s.pc.job.Ask? && s.pc.job.request.op != 0
    ensures forall i :: 0 <= i < |s.device.channel| ==> !Concerns(s.device.channel[i], s.pc.job.request.id)
  {
    assert AwaitedId(s) == None;
    LeftoversAreOthers(s);
  }

  lemma ReplyWrite(s: State, result: Result)
    requires ReplyInv(s) && s.pc.Writing?
    ensures LineInv(IoStep(s, result)) && OutcomeInv(IoStep(s, result)) && HandInv(IoStep(s, result))
  {
    if s.past.safe && s.pc.job.Ask? && s.pc.job.request.op != 0 {
      LineIsOthers(s);
    }
    LineWrite(s, result);
    OutcomeWrite(s, result);
  }

  lemma ReplyIo(s: State, result: Result)
    requires ReplyInv(s) && OneAnswer(s)
    ensures LineInv(IoStep(s, result)) && OutcomeInv(IoStep(s, result)) && HandInv(IoStep(s, result))
  {
    if Plain(s.pc) {
      ReplyPlain(s, result);
    } else if s.pc == Finishing(ToStart) && s.hand == [] {
      ReplyStart(s, result);
    } else if s.pc.Finishing? && s.hand == [] {
      ReplyGoesOn(s, result);
    } else if s.pc.Finishing? {
      ReplyCallback(s, result);
    } else if s.pc.Writing? {
      ReplyWrite(s, result);
    } else if s.pc.Sweep? {
      ReplySweep(s, result);
    } else if s.pc.Reading? {
      ReplyReading(s, result);
    } else if Queues(s.pc) {
      ReplyTake(s, result);
    } else {
      ReplySchedules(s, result);
    }
  }

  lemma ReplyStep(s: State, e: Event)
    requires ReplyInv(s) && OneAnswer(s)
    ensures ReplyInv(Step(s, e)) && OneAnswer(Step(s, e))
  {
    KnownStep(s, e);
    OnlyQueriesStep(s, e);
    AwaitsOwnStep(s, e);
    OneAnswerStep(s, e);
    LogDoesNotMatter(s, e);
    if e.Io? {
      ReplyIo(s, e.result);
    } else {
      OutcomeCaller(s, e);
      if FromDevice(e) {
        LineDevice(s, e);
        HandDevice(s, e);
      } else {
        LineCaller(s, e);
      }
    }
    BarStep(s, e);
  }

  // ---- Leftovers stay barred --------------------------------------------------------------

  /** What is left over after a step was left over before it. */
  ghost predicate LeftFrom(s: State, t: State) {
    forall i :: 0 <= i < |t.device.channel| && Spent(t.device.channel[i], AwaitedId(t)) ==>
      exists j :: 0 <= j < |s.device.channel| && s.device.channel[j] == t.device.channel[i]
                  && Spent(s.device.channel[j], AwaitedId(s))
  }

  lemma LeftFromDrop(s: State, k: nat)
    requires k < |s.device.channel|
    ensures LeftFrom(s, OnChannelDrops(s, k))
  {
    var t := OnChannelDrops(s, k);
    assert AwaitedId(t) == AwaitedId(s);
    assert forall i :: 0 <= i < |t.device.channel| ==>
        t.device.channel[i] == s.device.channel[if i < k then i else i + 1];
  }

  lemma LeftFromSend(s: State, e: Event)
    requires Tidy(s.device, AwaitedId(s)) && FromDevice(e) && !e.ChannelDrops?
    ensures LeftFrom(s, Act(s, e))
  {
    assert AwaitedId(Act(s, e)) == AwaitedId(s);
  }

  lemma DeviceLeavesAwaited(s: State, e: Event)
    requires FromDevice(e)
    ensures Step(s, e) == Act(s, e)
  {}

  lemma LeftFromDevice(s: State, e: Event)
    requires Tidy(s.device, AwaitedId(s)) && FromDevice(e)
    ensures LeftFrom(s, Step(s, e))
  {
    DeviceLeavesAwaited(s, e);
    if !e.ChannelDrops? {
      LeftFromSend(s, e);
    } else if e.k < |s.device.channel| {
      LeftFromDrop(s, e.k);
    }
  }

  lemma LeftFromCaller(s: State, e: Event)
    requires !e.Io? && !FromDevice(e) && !Leaving(Step(s, e).pc)
    ensures LeftFrom(s, Step(s, e))
  {
    CallerLeavesLine(s, e);
    var t := Step(s, e);
    assert t.device == s.device && AwaitedId(t) == AwaitedId(s);
  }

  /** An I/O step takes at most the head of the line, and changes what is awaited only when it sends a
      management request or hands over a reply. */
  lemma AwaitedChanges(s: State, e: Event)
    requires RequestInv(s) && e.Io? && !Leaving(Step(s, e).pc) && !(s.pc == Finishing(ToStart) && s.hand == [])
    ensures !Leaving(s.pc)
    ensures AwaitedId(Step(s, e)) == AwaitedId(s) || AwaitedId(s) == None || Answers(Step(s, e))
  {
    if s.pc.Sweep? {
      AwaitedSwept(s, e);
    } else if Queues(s.pc) {
      AwaitedQueues(s, e);
    } else if s.pc.Writing? {
      AwaitedWrite(s, e);
    } else if s.pc.Finishing? && s.hand != [] {
      AwaitedCall(s, e);
    } else if s.pc.Finishing? {
      AwaitedFinish(s, e);
    } else if Plain(s.pc) {
      AwaitedPlain(s, e);
    } else {
      AwaitedSchedules(s, e);
    }
  }

  lemma AwaitedSwept(s: State, e: Event)
    requires RequestInv(s) && e.Io? && s.pc.Sweep? && !Leaving(Step(s, e).pc)
    ensures AwaitedId(Step(s, e)) == AwaitedId(s)
  {
    if s.sched.inFlight.Some? {
      assert PlacesOf(s).flying == [s.sched.inFlight.value] && Fit(PlacesOf(s).flying[0]);
    }
  }

  lemma AwaitedQueues(s: State, e: Event)
    requires e.Io? && Queues(s.pc) && !s.pc.Sweep? && !Leaving(Step(s, e).pc)
    ensures !Leaving(s.pc) && (AwaitedId(Step(s, e)) == AwaitedId(s) || AwaitedId(s) == None || Answers(Step(s, e)))
  {}

  lemma AwaitedWrite(s: State, e: Event)
    requires ControlInv(s) && e.Io? && s.pc.Writing? && !Leaving(Step(s, e).pc)
    ensures AwaitedId(Step(s, e)) == AwaitedId(s) || AwaitedId(s) == None
  {}

  lemma AwaitedCall(s: State, e: Event)
    requires e.Io? && s.pc.Finishing? && s.hand != []
    ensures Step(s, e).pc == s.pc && AwaitedId(Step(s, e)) == AwaitedId(s)
  {}

  lemma AwaitedFinish(s: State, e: Event)
    requires ControlInv(s) && e.Io? && s.pc.Finishing? && s.hand == [] && !s.pc.after.ToStart?
    requires !Leaving(Step(s, e).pc)
    ensures !Leaving(s.pc) && (AwaitedId(Step(s, e)) == AwaitedId(s) || AwaitedId(s) == None)
  {}

  lemma AwaitedPlain(s: State, e: Event)
    requires ControlInv(s) && e.Io? && Plain(s.pc) && !Leaving(Step(s, e).pc)
    ensures !Leaving(s.pc) && AwaitedId(Step(s, e)) == AwaitedId(s)
  {}

  lemma AwaitedSchedules(s: State, e: Event)
    requires ControlInv(s) && e.Io? && Schedules(s.pc)
    ensures AwaitedId(Step(s, e)) == AwaitedId(s)
  {}

  lemma LeftFromIo(s: State, e: Event)
    requires RequestInv(s) && e.Io? && !Leaving(Step(s, e).pc) && !(s.pc == Finishing(ToStart) && s.hand == [])
    requires Answers(Step(s, e)) ==> OnlyNoise(Step(s, e).device)
    ensures LeftFrom(s, Step(s, e))
  {
    AwaitedChanges(s, e);
    ChannelChanges(s, e);
    LeftFromHead(s, Step(s, e));
  }

  lemma LeftFromHead(s: State, t: State)
    requires t.device.channel == s.device.channel ||
             (s.device.channel != [] && t.device.channel == s.device.channel[1..])
    requires AwaitedId(t) == AwaitedId(s) || AwaitedId(s) == None || OnlyNoise(t.device)
    ensures LeftFrom(s, t)
  {
    assert forall i :: 0 <= i < |t.device.channel| ==>
        t.device.channel[i] == s.device.channel[if t.device.channel == s.device.channel then i else i + 1];
  }

  lemma BarFrom(s: State, t: State)
    requires LeftFrom(s, t) && Bars(s) && Tidy(s.device, AwaitedId(s))
    requires forall c :: IsConfigWrite(c) && Barred(s, c) ==> Barred(t, c)
    ensures Bars(t)
  {
    forall i | 0 <= i < |t.device.channel| && Spent(t.device.channel[i], AwaitedId(t))
      ensures t.device.channel[i].payload != [] && Barred(t, t.device.channel[i].payload[0])
    {
      var j :| 0 <= j < |s.device.channel| && s.device.channel[j] == t.device.channel[i]
               && Spent(s.device.channel[j], AwaitedId(s));
    }
  }

  lemma BarsOnlyNoise(s: State)
    requires OnlyNoise(s.device)
    ensures Bars(s)
  {}

  lemma StartSetsFlag(s: State, e: Event)
    requires e.Io? && s.pc == Finishing(ToStart) && s.hand == []
    ensures Step(s, e).past.safe == Safe(s)
  {}

  lemma BarStart(s: State, e: Event)
    requires KnownInv(s) && e.Io? && s.pc == Finishing(ToStart) && s.hand == []
    ensures BarInv(Step(s, e))
  {
    StartSetsFlag(s, e);
    if Step(s, e).past.safe {
      StartBars(s, e);
    }
  }

  lemma StartBars(s: State, e: Event)
    requires KnownInv(s) && e.Io? && s.pc == Finishing(ToStart) && s.hand == [] && Safe(s)
    ensures Bars(Step(s, e))
  {
    var t := Step(s, e);
    StartKeeps(s, e);
    forall i | 0 <= i < |t.device.channel| && Spent(t.device.channel[i], AwaitedId(t))
      ensures t.device.channel[i].payload != [] && Barred(t, t.device.channel[i].payload[0])
    {
      assert Harmless(s, s.device.channel[i]);
    }
  }

  lemma StartKeeps(s: State, e: Event)
    requires ControlInv(s) && e.Io? && s.pc == Finishing(ToStart) && s.hand == []
    ensures var t := Step(s, e);
            && t.device == s.device && AwaitedId(t) == None
            && t.management == s.management && t.past.completions == s.past.completions
            && (forall c :: NoneExpects(PlacesOf(t), c))
  {}

  lemma BarStep(s: State, e: Event)
    requires ReplyInv(s) && LineInv(Step(s, e)) && HandInv(Step(s, e)) && KnownInv(Step(s, e))
    ensures BarInv(Step(s, e))
  {
    var t := Step(s, e);
    if e.Io? && s.pc == Finishing(ToStart) && s.hand == [] {
      BarStart(s, e);
    } else if !Leaving(t.pc) && t.past.safe {
      SafeKept(s, e);
      if Answers(t) || Answers(s) {
        QuietWhileTelling(s, e);
        BarsOnlyNoise(t);
      } else {
        BarGoesOn(s, e);
      }
    }
  }

  /** Off a start, whether the line was safe does not change, and nobody comes back from leaving. */
  /** The flag changes only when a connection is made. */
  lemma FlagKept(s: State, e: Event)
    requires !(e.Io? && s.pc == Finishing(ToStart) && s.hand == [])
    ensures Step(s, e).past.safe == s.past.safe
  {
    if e.Io? && s.pc.Finishing? {
      FlagFinish(s, e);
    }
  }

  lemma FlagFinish(s: State, e: Event)
    requires e.Io? && s.pc.Finishing? && !(s.pc == Finishing(ToStart) && s.hand == [])
    ensures Step(s, e).past.safe == s.past.safe
  {}

  lemma LeavingGoesOn(s: State, e: Event)
    requires Leaving(s.pc) && !(e.Io? && s.pc == Finishing(ToStart) && s.hand == [])
    ensures Leaving(Step(s, e).pc)
  {}

  lemma SafeKept(s: State, e: Event)
    requires !(e.Io? && s.pc == Finishing(ToStart) && s.hand == []) && !Leaving(Step(s, e).pc)
    ensures Step(s, e).past.safe == s.past.safe && !Leaving(s.pc)
  {
    FlagKept(s, e);
    if Leaving(s.pc) {
      LeavingGoesOn(s, e);
    }
  }

  lemma QuietWhileTelling(s: State, e: Event)
    requires ReplyInv(s) && HandInv(Step(s, e)) && !Leaving(s.pc) && s.past.safe
    requires !Leaving(Step(s, e).pc) && Step(s, e).past.safe && (Answers(Step(s, e)) || Answers(s))
    ensures OnlyNoise(Step(s, e).device)
  {
    if !Answers(Step(s, e)) {
      TellingLeavesLine(s, e);
    }
  }

  lemma TellingLeavesLine(s: State, e: Event)
    requires Answers(s) && s.pc.Finishing? && !Answers(Step(s, e)) && !Leaving(s.pc)
    ensures Step(s, e).device == s.device
  {}

  lemma BarGoesOn(s: State, e: Event)
    requires ReplyInv(s) && KnownInv(Step(s, e)) && !Leaving(s.pc) && s.past.safe && !Leaving(Step(s, e).pc)
    requires !(e.Io? && s.pc == Finishing(ToStart) && s.hand == []) && !Answers(s) && !Answers(Step(s, e))
    ensures Bars(Step(s, e))
  {
    if e.Io? {
      LeftFromIo(s, e);
    } else if FromDevice(e) {
      LeftFromDevice(s, e);
    } else {
      LeftFromCaller(s, e);
    }
    forall c | IsConfigWrite(c) && Barred(s, c)
      ensures Barred(Step(s, e), c)
    {
      BarredKept(s, e, c);
    }
    BarFrom(s, Step(s, e));
  }

  lemma InitReplies(cfg: Config, imu: nat, motor: nat, now: int)
    ensures ReplyInv(Init(cfg, imu, motor, now)) && OneAnswer(Init(cfg, imu, motor, now))
  {
    InitKnown(cfg, imu, motor, now);
  }

  ghost predicate ReplyAll(s: State) {
    ReplyInv(s) && OneAnswer(s)
  }

  lemma ReplyReachable(s: State)
    requires Reachable(s)
    ensures ReplyInv(s)
  {
    forall cfg, imu: nat, motor: nat, now
      ensures ReplyAll(Init(cfg, imu, motor, now))
    {
      InitReplies(cfg, imu, motor, now);
    }
    forall t, e | ReplyAll(t)
      ensures ReplyAll(Step(t, e))
    {
      ReplyStep(t, e);
    }
    ReachableKeeps(ReplyAll, s);
  }

  // ---- Theorems ---------------------------------------------------------------------------

  /** Over every run: a payload returned to a caller carries the command ID it asked for, and one
      returned to a management caller on a connection made with the line safe is the device's
      reply to that very request. */
  lemma RepliesAnswerTheirRequests(s: State, k: nat)
    requires Reachable(s) && k < |s.past.completions| && s.past.completions[k].outcome.Reply?
    ensures var c := s.past.completions[k];
            && c.outcome.packet.payload != [] && c.outcome.packet.payload[0] == c.request.expected
            && (c.safe && c.request.op != 0 ==> c.outcome.packet.origin == ReplyTo(c.request.id))
  {
    ReplyReachable(s);
    assert Good(s.past.completions[k].request, s.past.completions[k].outcome, s.past.completions[k].safe);
  }

  /** Over every run: accepted queries are numbered as they come, each is in exactly one place, no
      two completions are of one query, and once the I/O thread is gone all are completed. */
  lemma EveryQueryCompletesOnce(s: State)
    requires Reachable(s)
    ensures forall i :: 0 <= i < |s.past.issued| ==> s.past.issued[i].id == i
    ensures forall i :: 0 <= i < |s.past.issued| ==>
            Conserved(PlacesOf(s), s.past.issued[i]) && multiset(s.past.issued)[s.past.issued[i]] == 1
    ensures forall k :: 0 <= k < |s.past.completions| && s.past.completions[k].request.purpose.Query? ==>
            s.past.completions[k].request in s.past.issued
    ensures forall j, k :: 0 <= j < k < |s.past.completions| ==>
            s.past.completions[j].request != s.past.completions[k].request
    ensures s.pc == Stopped ==> forall i :: 0 <= i < |s.past.issued| ==> IsCompleted(s, s.past.issued[i])
  {
    RequestReachable(s);
    CompletionsAreQueries(s);
    var p := PlacesOf(s);
    forall i | 0 <= i < |s.past.issued|
      ensures multiset(s.past.issued)[s.past.issued[i]] == 1
      ensures s.pc == Stopped ==> IsCompleted(s, s.past.issued[i])
    {
      NumberedOnce(s.past.issued, i);
      if s.pc == Stopped {
        AllDoneAtLast(s, i);
      }
    }
    forall k | 0 <= k < |s.past.completions|
      ensures s.past.completions[k].request in s.past.issued
    {
      CompletedWasIssued(s, k);
    }
    forall j, k | 0 <= j < k < |s.past.completions|
      ensures s.past.completions[j].request != s.past.completions[k].request
    {
      NotTwice(s, j, k);
    }
  }

  ghost predicate IsCompleted(s: State, r: Request) {
    exists k :: 0 <= k < |s.past.completions| && s.past.completions[k].request == r
  }

  lemma AllDoneAtLast(s: State, i: nat)
    requires RequestInv(s) && s.pc == Stopped && i < |s.past.issued|
    ensures IsCompleted(s, s.past.issued[i])
  {
    var p := PlacesOf(s);
    OnePlace(p, i);
    assert s.past.issued[i] in p.completed;
    var k :| 0 <= k < |p.completed| && p.completed[k] == s.past.issued[i];
    assert s.past.completions[k].request == s.past.issued[i];
  }

  lemma NotTwice(s: State, j: nat, k: nat)
    requires RequestInv(s) && OnlyQueriesComplete(s) && j < k < |s.past.completions|
    ensures s.past.completions[j].request != s.past.completions[k].request
  {
    var p := PlacesOf(s);
    CompletedWasIssued(s, k);
    var i :| 0 <= i < |s.past.issued| && s.past.issued[i] == s.past.completions[k].request;
    OnePlace(p, i);
    if p.completed[j] == p.completed[k] {
      TwiceCounted(p.completed, j, k);
    }
  }

  // ---- When a reply arrived ---------------------------------------------------------------

  predicate Tells(c: Completion, r: Request, p: Packet) {
    c.request == r && c.outcome == Reply(p)
  }

  /** Packet `p` is, or is about to be, the outcome of request `r`. */
  ghost predicate Told(s: State, r: Request, p: Packet) {
    || (s.verdict == Reply(p) && r in s.hand)
    || exists k :: 0 <= k < |s.past.completions| && Tells(s.past.completions[k], r, p)
  }

  /** The I/O thread reads `p` while `r` is in flight. */
  predicate Arrives(s: State, r: Request, p: Packet) {
    s.pc == Reading && s.device.channel != [] && s.device.channel[0] == p && s.sched.inFlight == Some(r)
  }

  lemma ToldCaller(s: State, e: Event, r: Request, p: Packet)
    requires !e.Io? && Told(Step(s, e), r, p)
    ensures Told(s, r, p)
  {
    assert Step(s, e).past.completions == s.past.completions;
  }

  lemma ToldPlain(s: State, e: Event, r: Request, p: Packet)
    requires e.Io? && Plain(s.pc) && Told(Step(s, e), r, p)
    ensures Told(s, r, p)
  {
    assert Step(s, e).past.completions == s.past.completions;
  }

  lemma ToldQueues(s: State, e: Event, r: Request, p: Packet)
    requires e.Io? && Queues(s.pc) && Told(Step(s, e), r, p)
    ensures Told(s, r, p) || Arrives(s, r, p)
  {
    assert Step(s, e).past.completions == s.past.completions;
  }

  lemma ToldSchedules(s: State, e: Event, r: Request, p: Packet)
    requires e.Io? && Schedules(s.pc) && Told(Step(s, e), r, p)
    ensures Told(s, r, p)
  {
    assert Step(s, e).past.completions == s.past.completions;
  }

  lemma ToldWrite(s: State, e: Event, r: Request, p: Packet)
    requires e.Io? && s.pc.Writing? && Told(Step(s, e), r, p)
    ensures Told(s, r, p)
  {
    assert Step(s, e).past.completions == s.past.completions;
  }

  lemma ToldFinish(s: State, e: Event, r: Request, p: Packet)
    requires e.Io? && s.pc.Finishing? && Told(Step(s, e), r, p)
    ensures Told(s, r, p)
  {
    var t := Step(s, e);
    assert t.verdict == s.verdict && (forall q :: q in t.hand ==> q in s.hand);
    if s.hand != [] {
      assert s.hand[0] in s.hand;
      if s.hand[0].purpose.Query? {
        assert t.past.completions == s.past.completions + [Completion(s.hand[0], s.verdict, s.past.safe)];
      }
    }
  }

  lemma ToldStep(s: State, e: Event, r: Request, p: Packet)
    requires Told(Step(s, e), r, p)
    ensures Told(s, r, p) || Arrives(s, r, p)
  {
    if !e.Io? {
      ToldCaller(s, e, r, p);
    } else if Plain(s.pc) {
      ToldPlain(s, e, r, p);
    } else if s.pc.Finishing? {
      ToldFinish(s, e, r, p);
    } else if s.pc.Writing? {
      ToldWrite(s, e, r, p);
    } else if Queues(s.pc) {
      ToldQueues(s, e, r, p);
    } else {
      ToldSchedules(s, e, r, p);
    }
  }

  /** Over every run: a payload returned to a caller was read while that caller's request was in
      flight. */
  lemma RepliesArriveInFlight(cfg: Config, imu: nat, motor: nat, now: int, events: seq<Event>, k: nat) returns (m: nat)
    requires var cs := Run(Init(cfg, imu, motor, now), events).past.completions;
             k < |cs| && cs[k].outcome.Reply?
    ensures var c := Run(Init(cfg, imu, motor, now), events).past.completions[k];
            m < |events| && Arrives(Run(Init(cfg, imu, motor, now), events[..m]), c.request, c.outcome.packet)
  {
    var s0 := Init(cfg, imu, motor, now);
    var c := Run(s0, events).past.completions[k];
    var r, p := c.request, c.outcome.packet;
    assert Tells(c, r, p);
    m := Began(Step, (t: State) => Told(t, r, p), s0, events);
    ToldStep(Run(s0, events[..m]), events[m], r, p);
  }
}
