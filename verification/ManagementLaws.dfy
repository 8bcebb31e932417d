/**
 Management operations. One lock spans an operation, so the requests of different operations
 never interleave on the wire, and a configuration is written only after the same operation read
 a configuration with the same four signature bytes.
 */
module ManagementLaws {
  import opened Checksums
  import opened Framing
  import opened Wrappers
  import opened Scheduling
  import opened Client
  import opened ExactlyOnce
  import opened Leftovers
  import opened Correlation

  // ---- One outstanding management request -------------------------------------------------

  /** The holder of the management lock is waiting for `r`. */
  predicate HolderWaits(m: Management, r: Request) {
    r.op != 0 ==> m.Busy? && m.op == r.op && m.phase == Waiting(r.id)
  }

  predicate Outstanding(p: Places, m: Management) {
    && (forall i :: 0 <= i < |p.queued| ==> HolderWaits(m, p.queued[i]))
    && (forall i :: 0 <= i < |p.flying| ==> HolderWaits(m, p.flying[i]))
    && (forall i :: 0 <= i < |p.hand| ==> HolderWaits(m, p.hand[i]))
    && (forall i :: 0 <= i < |p.held| ==> HolderWaits(m, p.held[i]))
  }

  /** The request the holder waits for was issued by its operation. */
  predicate WaitsForOwn(s: State) {
    s.management.Busy? && s.management.phase.Waiting? ==>
      s.management.phase.id < |s.past.issued| && s.past.issued[s.management.phase.id].op == s.management.op
  }

  ghost predicate HolderInv(s: State) {
    RequestInv(s) && OnlyQueriesComplete(s) && Outstanding(PlacesOf(s), s.management) && WaitsForOwn(s)
  }

  lemma {:induction false} SweepKeepsWaiting(q: seq<Request>, now: int, m: Management)
    requires forall i :: 0 <= i < |q| ==> HolderWaits(m, q[i])
    ensures forall i :: 0 <= i < |Expired(q, now)| ==> HolderWaits(m, Expired(q, now)[i])
    ensures forall i :: 0 <= i < |Unexpired(q, now)| ==> HolderWaits(m, Unexpired(q, now)[i])
  {
    if q != [] {
      SweepKeepsWaiting(q[1..], now, m);
    }
  }

  lemma TransferKeepsWaiting(p: Places, t: Transfer, m: Management)
    requires Applicable(p, t) && Outstanding(p, m)
    requires t.Issue? ==> HolderWaits(m, t.r)
    ensures Outstanding(Apply(p, t), m)
  {
    match t
    case SweepOut(now, _) => SweepKeepsWaiting(p.queued, now, m);
    case TakeNext(now, _) => SweepKeepsWaiting(p.queued, now, m);
    case _ =>
  }

  predicate NoManaged(q: seq<Request>) {
    forall i :: 0 <= i < |q| ==> q[i].op == 0
  }

  /** The request waited for is the only management request outstanding anywhere. */
  lemma ManagedIsAwaited(p: Places, m: Management, q: seq<Request>, i: nat)
    requires PlacesInv(p) && Outstanding(p, m) && i < |q| && q[i].op != 0
    requires q == p.queued || q == p.flying || q == p.hand || q == p.held
    ensures m.Busy? && m.phase.Waiting? && m.phase.id < |p.issued| && q[i] == p.issued[m.phase.id] && q[i] in q
  {
    assert Fit(q[i]) && HolderWaits(m, q[i]);
    assert q[i] in q;
    FoundIsIssued(p, q[i]);
  }

  lemma NoneOutstanding(p: Places, m: Management, q: seq<Request>)
    requires PlacesInv(p) && Outstanding(p, m)
    requires q == p.queued || q == p.flying || q == p.hand || q == p.held
    requires m.Busy? && m.phase.Waiting? && m.phase.id < |p.issued| && p.issued[m.phase.id] in p.completed
    ensures NoManaged(q)
  {
    forall i | 0 <= i < |q|
      ensures q[i].op == 0
    {
      OnePlace(p, m.phase.id);
      if q[i].op != 0 {
        ManagedIsAwaited(p, m, q, i);
      }
    }
  }

  /** Once the request waited for is completed, no management request is outstanding. */
  lemma CompletedMeansNone(s: State, k: nat)
    requires HolderInv(s) && s.management.Busy? && s.management.phase.Waiting?
    requires k < |s.past.completions| && s.past.completions[k].request.id == s.management.phase.id
    ensures var p := PlacesOf(s); NoManaged(p.queued) && NoManaged(p.flying) && NoManaged(p.hand) && NoManaged(p.held)
    ensures s.past.completions[k].request == s.past.issued[s.management.phase.id]
  {
    var p, r := PlacesOf(s), s.past.completions[k].request;
    assert p.completed[k] == r;
    FoundIsIssued(p, r);
    NoneOutstanding(p, s.management, p.queued);
    NoneOutstanding(p, s.management, p.flying);
    NoneOutstanding(p, s.management, p.hand);
    NoneOutstanding(p, s.management, p.held);
  }

  /** With nobody waiting there is nothing of an operation outstanding. */
  lemma NotWaitingMeansNone(p: Places, m: Management)
    requires Outstanding(p, m) && (m.Busy? ==> !m.phase.Waiting?)
    ensures NoManaged(p.queued) && NoManaged(p.flying) && NoManaged(p.hand) && NoManaged(p.held)
  {
    assert forall i :: 0 <= i < |p.queued| ==> HolderWaits(m, p.queued[i]);
    assert forall i :: 0 <= i < |p.flying| ==> HolderWaits(m, p.flying[i]);
    assert forall i :: 0 <= i < |p.hand| ==> HolderWaits(m, p.hand[i]);
    assert forall i :: 0 <= i < |p.held| ==> HolderWaits(m, p.held[i]);
  }

  lemma NoneMeansOutstanding(p: Places, m: Management)
    requires NoManaged(p.queued) && NoManaged(p.flying) && NoManaged(p.hand) && NoManaged(p.held)
    ensures Outstanding(p, m)
  {}

  // ---- Steps ------------------------------------------------------------------------------

  predicate GrowsUnmanaged(issued: seq<Request>, more: seq<Request>) {
    && issued <= more && |more| <= |issued| + 1
    && (|more| > |issued| ==> more[|issued|].op == 0)
  }

  lemma IssuedUnmanaged(s: State, e: Event)
    requires !e.Request?
    ensures GrowsUnmanaged(s.past.issued, Step(s, e).past.issued)
  {
    if !e.AskVersion? {
      NothingIssued(s, e);
    }
  }

  lemma HolderRequest(s: State, e: Event)
    requires HolderInv(s) && e.Request?
    ensures Outstanding(PlacesOf(Step(s, e)), Step(s, e).management) && WaitsForOwn(Step(s, e))
  {
    var p, m := PlacesOf(s), Step(s, e).management;
    if m != s.management {
      NotWaitingMeansNone(p, s.management);
      NoneMeansOutstanding(p, m);
      var t := SubmitTransfers(s, e);
      RequestIssues(s, e, t);
      TransferKeepsWaiting(p, t, m);
    }
  }

  lemma RequestIssues(s: State, e: Event, t: Transfer)
    requires OpInv(s) && e.Request? && Step(s, e).management != s.management
    requires Applicable(PlacesOf(s), t) && PlacesOf(Step(s, e)) == Apply(PlacesOf(s), t)
    ensures t.Issue? ==> HolderWaits(Step(s, e).management, t.r)
  {
    if t.Issue? {
      assert Step(s, e).past.issued == s.past.issued + [t.r];
      assert Step(s, e).past.issued[|s.past.issued|] == t.r;
    }
  }

  lemma PlacesUntouched(s: State, e: Event)
    requires e.Lock? || e.Wake? || e.Unlock?
    ensures PlacesOf(Step(s, e)) == PlacesOf(s) && Step(s, e).past.issued == s.past.issued
  {}

  lemma HolderWakes(s: State, e: Event)
    requires HolderInv(s) && e.Wake?
    ensures Outstanding(PlacesOf(s), Step(s, e).management) && WaitsForOwn(Step(s, e))
  {
    var m := Step(s, e).management;
    if m != s.management {
      CompletedMeansNone(s, e.k);
      NoneMeansOutstanding(PlacesOf(s), m);
    }
  }

  lemma HolderLocks(s: State, e: Event)
    requires HolderInv(s) && (e.Lock? || e.Unlock?)
    ensures Outstanding(PlacesOf(s), Step(s, e).management) && WaitsForOwn(Step(s, e))
  {
    var m := Step(s, e).management;
    if m != s.management {
      NotWaitingMeansNone(PlacesOf(s), s.management);
      NoneMeansOutstanding(PlacesOf(s), m);
    }
  }

  lemma HolderStep(s: State, e: Event)
    requires HolderInv(s)
    ensures HolderInv(Step(s, e))
  {
    RequestStep(s, e);
    OnlyQueriesStep(s, e);
    if e.Request? {
      HolderRequest(s, e);
    } else if Manages(e) {
      PlacesUntouched(s, e);
      if e.Wake? {
        HolderWakes(s, e);
      } else {
        HolderLocks(s, e);
      }
    } else {
      ManagementUntouched(s, e);
      IssuedUnmanaged(s, e);
      var t := StepTransfers(s, e);
      if t.Issue? {
        assert Step(s, e).past.issued == s.past.issued + [t.r];
      }
      TransferKeepsWaiting(PlacesOf(s), t, s.management);
    }
  }

  // ---- Atomicity and gating ---------------------------------------------------------------

  /** The log shows that operation `op` was told a configuration compatible with `image`. */
  ghost predicate Evidence(log: seq<Entry>, op: nat, setId: Byte, image: Payload) {
    exists i :: 0 <= i < |log| && Shows(log[i], op, setId, image)
  }

  predicate Shows(e: Entry, op: nat, setId: Byte, image: Payload) {
    && e.Done? && e.completion.request.op == op && e.completion.outcome.Reply?
    && IsConfigImage(e.completion.outcome.packet.payload, ReadIdFor(setId))
    && SameSignature(image, e.completion.outcome.packet.payload[1..])
  }

  /** A request that writes a configuration has its evidence in the log. */
  ghost predicate Licensed(log: seq<Entry>, r: Request) {
    r.op != 0 && r.body != [] && IsConfigWrite(r.body[0]) ==> Evidence(log, r.op, r.body[0], r.body[1..])
  }

  lemma EvidenceGrows(log: seq<Entry>, more: seq<Entry>, op: nat, setId: Byte, image: Payload)
    requires log <= more && Evidence(log, op, setId, image)
    ensures Evidence(more, op, setId, image)
  {
    var i :| 0 <= i < |log| && Shows(log[i], op, setId, image);
    assert Shows(more[i], op, setId, image);
  }

  lemma LicensedStill(log: seq<Entry>, more: seq<Entry>, r: Request)
    requires log <= more && Licensed(log, r)
    ensures Licensed(more, r)
  {
    if r.op != 0 && r.body != [] && IsConfigWrite(r.body[0]) {
      EvidenceGrows(log, more, r.op, r.body[0], r.body[1..]);
    }
  }

  ghost predicate LicenseInv(s: State) {
    && (forall i :: 0 <= i < |s.past.issued| ==> Licensed(s.past.log, s.past.issued[i]))
    && (s.management.Busy? && s.management.verified ==>
          s.management.script.WriteConfig? && Evidence(s.past.log, s.management.op, s.management.script.setId,
              s.management.script.image))
    && (forall k :: 0 <= k < |s.past.completions| ==> Done(s.past.completions[k]) in s.past.log)
    && (forall i :: 0 <= i < |s.past.log| && s.past.log[i].Done? ==> s.past.log[i].completion in s.past.completions)
  }

  /** The management requests in the log belong to operations in the order these took the lock, and
      a configuration write is preceded by its evidence. */
  ghost predicate WireOrder(log: seq<Entry>, nextOp: nat) {
    && (forall j :: 0 <= j < |log| && log[j].RequestOut? ==>
            log[j].request.op < nextOp && Fit(log[j].request) && Licensed(log[..j], log[j].request))
    && (forall i, j :: 0 <= i < j < |log| && log[i].RequestOut? && log[j].RequestOut? && log[j].request.op != 0 ==>
            log[i].request.op <= log[j].request.op)
  }

  ghost predicate ManagementInv(s: State) {
    HolderInv(s) && LicenseInv(s) && WireOrder(s.past.log, s.nextOp)
  }

  lemma StepLog(s: State, e: Event)
    ensures Step(s, e).past.log == Extend(s.past.log, Logged(s, e)) && s.past.log <= Step(s, e).past.log
  {}

  lemma CompletionsLogged(s: State, e: Event)
    ensures (Step(s, e).past.completions == s.past.completions && !(Logged(s, e).Some? && Logged(s, e).value.Done?)) ||
            exists c :: Step(s, e).past.completions == s.past.completions + [c] && Logged(s, e) == Some(Done(c))
  {
    if !e.Io? {
      CompletesCaller(s, e);
    } else if s.pc.Finishing? {
      CompletesFinish(s, e);
    } else {
      CompletesIo(s, e);
    }
    LoggedDone(s, e);
  }

  lemma LoggedDone(s: State, e: Event)
    ensures Logged(s, e).Some? && Logged(s, e).value.Done? <==>
            e.Io? && s.pc.Finishing? && s.hand != [] && s.hand[0].purpose.Query?
    ensures Logged(s, e).Some? && Logged(s, e).value.Done? ==>
            Logged(s, e) == Some(Done(Completion(s.hand[0], s.verdict, s.past.safe)))
  {}

  lemma CompletionsStayLogged(s: State, e: Event)
    requires forall k :: 0 <= k < |s.past.completions| ==> Done(s.past.completions[k]) in s.past.log
    requires forall i :: 0 <= i < |s.past.log| && s.past.log[i].Done? ==> s.past.log[i].completion in s.past.completions
    ensures forall k :: 0 <= k < |Step(s, e).past.completions| ==>
              Done(Step(s, e).past.completions[k]) in Step(s, e).past.log
    ensures forall i :: 0 <= i < |Step(s, e).past.log| && Step(s, e).past.log[i].Done? ==>
              Step(s, e).past.log[i].completion in Step(s, e).past.completions
  {
    StepLog(s, e);
    CompletionsLogged(s, e);
  }

  /** A new request is licensed by what its operation has verified. */
  lemma RequestLicensed(s: State, e: Event)
    requires LicenseInv(s) && OpInv(s) && e.Request? && Step(s, e).past.issued != s.past.issued
    ensures |Step(s, e).past.issued| == |s.past.issued| + 1 && s.past.issued <= Step(s, e).past.issued
    ensures Licensed(s.past.log, Step(s, e).past.issued[|s.past.issued|])
  {
    var m := s.management;
    var r := Step(s, e).past.issued[|s.past.issued|];
    assert r.body == NextBody(m, e.free);
    if m.script.WriteConfig? && m.verified {
      assert r.body[1..] == m.script.image;
    }
  }

  lemma IssuedStaysLicensed(s: State, e: Event)
    requires LicenseInv(s) && OpInv(s)
    ensures forall i :: 0 <= i < |Step(s, e).past.issued| ==> Licensed(Step(s, e).past.log, Step(s, e).past.issued[i])
  {
    StepLog(s, e);
    var t := Step(s, e);
    NewIsLicensed(s, e);
    AllLicensed(s.past.log, t.past.log, s.past.issued, t.past.issued);
  }

  lemma NewIsLicensed(s: State, e: Event)
    requires LicenseInv(s) && OpInv(s)
    ensures s.past.issued <= Step(s, e).past.issued && |Step(s, e).past.issued| <= |s.past.issued| + 1
    ensures |Step(s, e).past.issued| > |s.past.issued| ==> Licensed(s.past.log, Step(s, e).past.issued[|s.past.issued|])
  {
    if !e.Request? {
      IssuedUnmanaged(s, e);
    } else if Step(s, e).past.issued != s.past.issued {
      RequestLicensed(s, e);
    }
  }

  lemma AllLicensed(log: seq<Entry>, longer: seq<Entry>, issued: seq<Request>, more: seq<Request>)
    requires log <= longer && issued <= more && |more| <= |issued| + 1
    requires forall i :: 0 <= i < |issued| ==> Licensed(log, issued[i])
    requires |more| > |issued| ==> Licensed(log, more[|issued|])
    ensures forall i :: 0 <= i < |more| ==> Licensed(longer, more[i])
  {
    forall i | 0 <= i < |more|
      ensures Licensed(longer, more[i])
    {
      if i < |issued| {
        assert Licensed(log, issued[i]);
      }
      LicensedStill(log, longer, more[i]);
    }
  }

  /** A completion the lock's holder waits for is of its own operation. */
  predicate OwnCompletions(s: State) {
    s.management.Busy? && s.management.phase.Waiting? ==>
      forall k :: 0 <= k < |s.past.completions| && s.past.completions[k].request.id == s.management.phase.id ==>
        s.past.completions[k].request.op == s.management.op
  }

  lemma HolderOwns(s: State)
    requires HolderInv(s)
    ensures OwnCompletions(s)
  {
    if s.management.Busy? && s.management.phase.Waiting? {
      forall k | 0 <= k < |s.past.completions| && s.past.completions[k].request.id == s.management.phase.id
        ensures s.past.completions[k].request.op == s.management.op
      {
        CompletedMeansNone(s, k);
      }
    }
  }

  lemma WakeVerifies(s: State, e: Event)
    requires OwnCompletions(s) && LicenseInv(s) && e.Wake?
    ensures Step(s, e).management.Busy? && Step(s, e).management.verified ==>
            Step(s, e).management.script.WriteConfig? &&
            Evidence(s.past.log, Step(s, e).management.op, Step(s, e).management.script.setId,
                Step(s, e).management.script.image)
  {
    var m := Step(s, e).management;
    if m.Busy? && m.verified && !s.management.verified {
      WakeShows(s, e);
      EvidenceOf(s.past.log, s.past.completions[e.k], m);
    }
  }

  /** What a caller that was waiting makes of the outcome that verifies. */
  lemma WakeShows(s: State, e: Event)
    requires e.Wake? && Step(s, e).management.Busy? && Step(s, e).management.verified
    requires s.management.Busy? ==> !s.management.verified
    ensures s.management.Busy? && s.management.phase.Waiting? && e.k < |s.past.completions|
    ensures s.past.completions[e.k].request.id == s.management.phase.id
    ensures Step(s, e).management == s.management.(verified := true, phase := Ready) && s.management.script.WriteConfig?
    ensures var o := s.past.completions[e.k].outcome;
            && o.Reply? && IsConfigImage(o.packet.payload, ReadIdFor(s.management.script.setId))
            && SameSignature(s.management.script.image, o.packet.payload[1..])
  {}

  lemma EvidenceOf(log: seq<Entry>, c: Completion, m: Management)
    requires Done(c) in log && m.Busy? && m.script.WriteConfig?
    requires Shows(Done(c), m.op, m.script.setId, m.script.image)
    ensures Evidence(log, m.op, m.script.setId, m.script.image)
  {
    var i :| 0 <= i < |log| && log[i] == Done(c);
  }

  lemma VerifiedElsewhere(s: State, e: Event)
    requires !e.Wake? && Step(s, e).management.Busy? && Step(s, e).management.verified
    ensures s.management.Busy? && s.management.verified
    ensures s.management.script == Step(s, e).management.script && s.management.op == Step(s, e).management.op
  {
    if Manages(e) {
    } else {
      ManagementUntouched(s, e);
    }
  }

  lemma LicenseStep(s: State, e: Event)
    requires HolderInv(s) && LicenseInv(s)
    ensures LicenseInv(Step(s, e))
  {
    StepLog(s, e);
    CompletionsStayLogged(s, e);
    IssuedStaysLicensed(s, e);
    var m := Step(s, e).management;
    if m.Busy? && m.verified {
      if e.Wake? {
        HolderOwns(s);
        WakeVerifies(s, e);
      } else {
        VerifiedElsewhere(s, e);
      }
      EvidenceGrows(s.past.log, Step(s, e).past.log, m.op, m.script.setId, m.script.image);
    }
  }

  lemma OrderAppend(log: seq<Entry>, x: Entry, nextOp: nat)
    requires WireOrder(log, nextOp)
    requires x.RequestOut? ==>
               x.request.op < nextOp && Fit(x.request) && Licensed(log, x.request) && (x.request.op != 0 ==>
                   x.request.op + 1 == nextOp)
    ensures WireOrder(log + [x], nextOp)
  {
    var more := log + [x];
    forall j | 0 <= j < |more| && more[j].RequestOut?
      ensures more[j].request.op < nextOp && Fit(more[j].request) && Licensed(more[..j], more[j].request)
    {
      assert more[..j] == log[..j];
      assert log[..|log|] == log;
    }
  }

  lemma SendsAreLicensed(s: State, e: Event)
    requires HolderInv(s) && LicenseInv(s) && Logged(s, e).Some? && Logged(s, e).value.RequestOut?
    ensures var r := Logged(s, e).value.request; r.op < s.nextOp && Fit(r) && Licensed(s.past.log, r) && (r.op != 0 ==>
              r.op + 1 == s.nextOp)
  {
    var r := Logged(s, e).value.request;
    var p := PlacesOf(s);
    assert p.held == [r] && p.held[0] == r;
    assert HolderWaits(s.management, p.held[0]) && Fit(p.held[0]);
    if r.op != 0 {
      FoundIsIssued(p, r);
      assert Licensed(s.past.log, s.past.issued[r.id]);
    }
  }

  lemma OrderStep(s: State, e: Event)
    requires ManagementInv(s)
    ensures WireOrder(Step(s, e).past.log, Step(s, e).nextOp)
  {
    StepLog(s, e);
    var x := Logged(s, e);
    if x.Some? {
      if x.value.RequestOut? {
        SendsAreLicensed(s, e);
      }
      OrderAppend(s.past.log, x.value, s.nextOp);
    }
    OpsOnlyGrow(s, e);
  }

  lemma OpsOnlyGrow(s: State, e: Event)
    ensures Step(s, e).nextOp >= s.nextOp
  {}

  lemma ManagementStep(s: State, e: Event)
    requires ManagementInv(s)
    ensures ManagementInv(Step(s, e))
  {
    HolderStep(s, e);
    LicenseStep(s, e);
    OrderStep(s, e);
  }

  lemma InitManagement(cfg: Config, imu: nat, motor: nat, now: int)
    ensures ManagementInv(Init(cfg, imu, motor, now))
  {
    InitRequests(cfg, imu, motor, now);
  }

  lemma ManagementReachable(s: State)
    requires Reachable(s)
    ensures ManagementInv(s)
  {
    forall cfg, imu: nat, motor: nat, now
      ensures ManagementInv(Init(cfg, imu, motor, now))
    {
      InitManagement(cfg, imu, motor, now);
    }
    forall t, e | ManagementInv(t)
      ensures ManagementInv(Step(t, e))
    {
      ManagementStep(t, e);
    }
    ReachableKeeps(ManagementInv, s);
  }

  /** Over every run: between two requests of one operation only requests of that operation and
      unmanaged ones are sent, so operations never interleave on the wire. */
  lemma OperationsAreContiguous(s: State, i: nat, j: nat, k: nat)
    requires Reachable(s) && i < j < k < |s.past.log|
    requires s.past.log[i].RequestOut? && s.past.log[j].RequestOut? && s.past.log[k].RequestOut?
    requires s.past.log[i].request.op == s.past.log[k].request.op != 0 && s.past.log[j].request.op != 0
    ensures s.past.log[j].request.op == s.past.log[i].request.op
  {
    ManagementReachable(s);
  }

  lemma EvidenceBefore(s: State, j: nat) returns (i: nat)
    requires ManagementInv(s) && j < |s.past.log| && s.past.log[j].RequestOut?
             && IsConfigWrite(s.past.log[j].request.expected)
    ensures var w := s.past.log[j].request;
            i < j && w.body != [] && w.body[0] == w.expected && Shows(s.past.log[i], w.op, w.expected, w.body[1..])
    ensures s.past.log[i].completion.request.op != 0
  {
    var w := s.past.log[j].request;
    assert Fit(w) && Licensed(s.past.log[..j], w);
    i :| 0 <= i < j && Shows(s.past.log[..j][i], w.op, w.body[0], w.body[1..]);
  }

  lemma LoggedReplyIsOwn(s: State, i: nat)
    requires Reachable(s) && ManagementInv(s) && i < |s.past.log| && s.past.log[i].Done?
    requires s.past.log[i].completion.outcome.Reply? && s.past.log[i].completion.request.op != 0
    ensures s.past.log[i].completion.safe ==>
              s.past.log[i].completion.outcome.packet.origin == ReplyTo(s.past.log[i].completion.request.id)
  {
    assert s.past.log[i].completion in s.past.completions;
    var k :| 0 <= k < |s.past.completions| && s.past.completions[k] == s.past.log[i].completion;
    RepliesAnswerTheirRequests(s, k);
  }

  /** Over every run: a configuration write is sent only after the same operation received, as the reply
      to a read, an image with the same first four bytes. If the connection was made with the line safe,
      it is the device's reply to that very read. */
  lemma ConfigWritesAreGated(s: State, j: nat) returns (i: nat)
    requires Reachable(s) && j < |s.past.log| && s.past.log[j].RequestOut?
             && s.past.log[j].request.expected in {13, 16, 149}
    ensures i < j && s.past.log[i].Done?
    ensures var w, c := s.past.log[j].request, s.past.log[i].completion;
            && c.request.op == w.op && c.outcome.Reply?
            && (c.safe ==> c.outcome.packet.origin == ReplyTo(c.request.id))
            && 5 <= |c.outcome.packet.payload| <= 512
            && c.outcome.packet.payload[0] == (if w.expected == 13 then 14 else 17)
            && |w.body| >= 5 && w.body[0] == w.expected && c.outcome.packet.payload[1..5] == w.body[1..5]
  {
    ManagementReachable(s);
    i := EvidenceBefore(s, j);
    LoggedReplyIsOwn(s, i);
    SignatureBytes(s.past.log[j].request.body, s.past.log[i].completion.outcome.packet.payload);
  }

  lemma SignatureBytes(body: Payload, payload: Payload)
    requires body != [] && payload != [] && SameSignature(body[1..], payload[1..])
    ensures |body| >= 5 && |payload| >= 5 && payload[1..5] == body[1..5]
  {
    assert body[1..][..4] == body[1..5] && payload[1..][..4] == payload[1..5];
  }
}
