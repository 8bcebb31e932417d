/**
 What is known, over every run and every connection, of the device and the line from it: requests at
 the device are management requests that were issued, packets say what they answer, and nothing
 about a request follows its reply.
 */
module DeviceLaws {
  import opened Checksums
  import opened Framing
  import opened Scheduling
  import opened Client
  import opened ExactlyOnce

  predicate PacketKnown(p: Packet, issued: seq<Request>) {
    p.payload != [] &&
    match p.origin
    case Noise => !IsManagement(p.payload[0])
    case ReplyTo(y) =>
      y < |issued| && issued[y].op != 0 && IsManagement(p.payload[0]) && p.payload[0] == issued[y].expected
    case Unsolicited(y) =>
      && y < |issued| && issued[y].op != 0 && issued[y].expected == DETECT_FOC
      && (p.payload[0] == GET_MOTOR_CONFIG || p.payload[0] == GET_APP_CONFIG)
  }

  predicate ArrivalKnown(y: nat, command: Byte, issued: seq<Request>) {
    y < |issued| && issued[y].op != 0 && issued[y].expected == command && IsManagement(command)
  }

  predicate DeviceKnown(d: Device, issued: seq<Request>) {
    && (forall y :: y in d.arrived ==> ArrivalKnown(y, d.arrived[y], issued))
    && d.served <= d.arrived.Keys
    && (forall i :: 0 <= i < |d.channel| ==> PacketKnown(d.channel[i], issued))
  }

  predicate Concerns(p: Packet, y: nat) {
    !p.origin.Noise? && p.origin.id == y
  }

  /** Nothing about a request follows its reply, and what has been answered is marked as served. */
  predicate InOrder(d: Device) {
    && (forall i, j :: 0 <= i < j < |d.channel| && d.channel[i].origin.ReplyTo? ==>
          !Concerns(d.channel[j], d.channel[i].origin.id))
    && (forall i :: 0 <= i < |d.channel| && d.channel[i].origin.ReplyTo? ==> d.channel[i].origin.id in d.served)
    && (forall i :: 0 <= i < |d.channel| && !d.channel[i].origin.Noise? ==> d.channel[i].origin.id in d.arrived)
  }

  lemma KnownLater(d: Device, issued: seq<Request>, more: seq<Request>)
    requires DeviceKnown(d, issued) && issued <= more
    ensures DeviceKnown(d, more)
  {
    forall y | y in d.arrived
      ensures ArrivalKnown(y, d.arrived[y], more)
    {
      assert ArrivalKnown(y, d.arrived[y], issued);
    }
    forall i | 0 <= i < |d.channel|
      ensures PacketKnown(d.channel[i], more)
    {
      assert PacketKnown(d.channel[i], issued);
    }
  }

  lemma KnownDelivers(d: Device, issued: seq<Request>, p: Packet)
    requires DeviceKnown(d, issued) && PacketKnown(p, issued)
    ensures DeviceKnown(d.(channel := d.channel + [p]), issued)
  {}

  lemma InOrderDelivers(d: Device, p: Packet)
    requires InOrder(d)
    requires forall i :: 0 <= i < |d.channel| && d.channel[i].origin.ReplyTo? ==> !Concerns(p, d.channel[i].origin.id)
    requires (p.origin.ReplyTo? ==> p.origin.id in d.served) && (!p.origin.Noise? ==> p.origin.id in d.arrived)
    ensures InOrder(d.(channel := d.channel + [p]))
  {}

  lemma KnownReplies(s: State, y: nat, payload: Payload)
    requires DeviceKnown(s.device, s.past.issued) && InOrder(s.device)
    ensures var d := OnDeviceReplies(s, y, payload).device; DeviceKnown(d, s.past.issued) && InOrder(d)
  {
    if OnDeviceReplies(s, y, payload) != s {
      var d := s.device.(served := s.device.served + {y});
      assert ArrivalKnown(y, s.device.arrived[y], s.past.issued);
      KnownDelivers(d, s.past.issued, Packet(payload, ReplyTo(y)));
      InOrderDelivers(d, Packet(payload, ReplyTo(y)));
    }
  }

  lemma KnownReports(s: State, y: nat, payload: Payload)
    requires DeviceKnown(s.device, s.past.issued) && InOrder(s.device)
    ensures var d := OnDeviceReports(s, y, payload).device; DeviceKnown(d, s.past.issued) && InOrder(d)
  {
    if OnDeviceReports(s, y, payload) != s {
      assert ArrivalKnown(y, s.device.arrived[y], s.past.issued);
      KnownDelivers(s.device, s.past.issued, Packet(payload, Unsolicited(y)));
      InOrderDelivers(s.device, Packet(payload, Unsolicited(y)));
    }
  }

  lemma KnownNoise(s: State, payload: Payload)
    requires DeviceKnown(s.device, s.past.issued) && InOrder(s.device)
    ensures var d := OnDeviceNoise(s, payload).device; DeviceKnown(d, s.past.issued) && InOrder(d)
  {
    if OnDeviceNoise(s, payload) != s {
      KnownDelivers(s.device, s.past.issued, Packet(payload, Noise));
      InOrderDelivers(s.device, Packet(payload, Noise));
    }
  }

  lemma KnownDrops(d: Device, issued: seq<Request>, k: nat)
    requires DeviceKnown(d, issued) && InOrder(d) && k < |d.channel|
    ensures var e := d.(channel := d.channel[..k] + d.channel[k + 1..]); DeviceKnown(e, issued) && InOrder(e)
  {
    var c := d.channel[..k] + d.channel[k + 1..];
    assert forall i :: 0 <= i < |c| ==> c[i] == d.channel[if i < k then i else i + 1];
  }

  predicate FromDevice(e: Event) {
    e.DeviceReplies? || e.DeviceReports? || e.DeviceNoise? || e.ChannelDrops?
  }

  lemma KnownDevice(s: State, e: Event)
    requires DeviceKnown(s.device, s.past.issued) && InOrder(s.device) && FromDevice(e)
    ensures DeviceKnown(Act(s, e).device, s.past.issued) && InOrder(Act(s, e).device)
  {
    match e
    case DeviceReplies(y, payload) => KnownReplies(s, y, payload);
    case DeviceReports(y, payload) => KnownReports(s, y, payload);
    case DeviceNoise(payload) => KnownNoise(s, payload);
    case ChannelDrops(k) =>
      if k < |s.device.channel| {
        KnownDrops(s.device, s.past.issued, k);
      }
  }

  lemma DeviceUntouched(s: State, e: Event)
    requires !e.Io? && !FromDevice(e)
    ensures Step(s, e).device == s.device
  {}

  lemma ChannelChanges(s: State, e: Event)
    requires e.Io?
    ensures Step(s, e).device.channel == s.device.channel ||
            (s.device.channel != [] && Step(s, e).device.channel == s.device.channel[1..])
  {}

  lemma DeviceChanges(s: State, e: Event)
    requires e.Io?
    ensures var d := Step(s, e).device;
            && d.served == s.device.served
            && (d.arrived == s.device.arrived ||
                (s.pc.Writing? && s.pc.job.Ask? && s.pc.job.request.op != 0 &&
                 d.arrived == s.device.arrived[s.pc.job.request.id := s.pc.job.request.expected]))
  {}

  lemma IssuedKept(s: State, e: Event)
    requires e.Io?
    ensures Step(s, e).past.issued == s.past.issued
  {}

  lemma IssuedGrows(s: State, e: Event)
    ensures s.past.issued <= Step(s, e).past.issued
  {
    if e.Io? {
      IssuedKept(s, e);
    }
  }

  lemma HeldIsKnown(s: State)
    requires RequestInv(s) && s.pc.Writing? && s.pc.job.Ask? && s.pc.job.request.op != 0
    ensures ArrivalKnown(s.pc.job.request.id, s.pc.job.request.expected, s.past.issued)
  {
    var p, r := PlacesOf(s), s.pc.job.request;
    assert p.held == [r] && Fit(p.held[0]);
    FoundIsIssued(p, r);
  }

  lemma KnownIo(s: State, e: Event)
    requires RequestInv(s) && DeviceKnown(s.device, s.past.issued) && InOrder(s.device) && e.Io?
    ensures DeviceKnown(Step(s, e).device, s.past.issued) && InOrder(Step(s, e).device)
  {
    DeviceChanges(s, e);
    ChannelChanges(s, e);
    var d, t := s.device, Step(s, e).device;
    if t.arrived != d.arrived {
      HeldIsKnown(s);
    }
    KnownMoves(d, t, s.past.issued);
  }

  lemma KnownArrives(d: Device, y: nat, c: Byte, issued: seq<Request>)
    requires DeviceKnown(d, issued) && InOrder(d) && ArrivalKnown(y, c, issued)
    ensures var t := d.(arrived := d.arrived[y := c]); DeviceKnown(t, issued) && InOrder(t)
  {}

  lemma KnownMoves(d: Device, t: Device, issued: seq<Request>)
    requires DeviceKnown(d, issued) && InOrder(d) && t.served == d.served
    requires t.channel == d.channel || (d.channel != [] && t.channel == d.channel[1..])
    requires t.arrived == d.arrived || exists y, c :: t.arrived == d.arrived[y := c] && ArrivalKnown(y, c, issued)
    ensures DeviceKnown(t, issued) && InOrder(t)
  {
    var e := d.(arrived := t.arrived);
    if t.arrived != d.arrived {
      var y, c :| t.arrived == d.arrived[y := c] && ArrivalKnown(y, c, issued);
      KnownArrives(d, y, c, issued);
    }
    if t.channel != d.channel {
      KnownDrops(e, issued, 0);
      assert d.channel[..0] + d.channel[1..] == d.channel[1..];
      assert t == e.(channel := e.channel[..0] + e.channel[1..]);
    } else {
      assert t == e;
    }
  }

  ghost predicate KnownInv(s: State) {
    RequestInv(s) && DeviceKnown(s.device, s.past.issued) && InOrder(s.device)
  }

  lemma LogIsNotDevice(s: State, e: Event)
    ensures Step(s, e).device == Act(s, e).device
  {}

  lemma KnownStep(s: State, e: Event)
    requires KnownInv(s)
    ensures KnownInv(Step(s, e))
  {
    RequestStep(s, e);
    if e.Io? {
      KnownIo(s, e);
    } else if FromDevice(e) {
      KnownDevice(s, e);
      LogIsNotDevice(s, e);
    } else {
      DeviceUntouched(s, e);
    }
    IssuedGrows(s, e);
    KnownLater(Step(s, e).device, s.past.issued, Step(s, e).past.issued);
  }

  lemma InitKnown(cfg: Config, imu: nat, motor: nat, now: int)
    ensures KnownInv(Init(cfg, imu, motor, now))
  {
    InitRequests(cfg, imu, motor, now);
  }

  lemma KnownReachable(s: State)
    requires Reachable(s)
    ensures KnownInv(s)
  {
    forall cfg, imu: nat, motor: nat, now
      ensures KnownInv(Init(cfg, imu, motor, now))
    {
      InitKnown(cfg, imu, motor, now);
    }
    forall t, e | KnownInv(t)
      ensures KnownInv(Step(t, e))
    {
      KnownStep(t, e);
    }
    ReachableKeeps(KnownInv, s);
  }
}
