/**
 The scheduler of the client: the state behind `scheduler_mutex_`, and one function for each
 region the source runs under that lock. A region takes the state apart, hands requests out to
 the I/O thread, or takes requests in; `SchedulerClass` shows that the code of each region
 computes the function given here, and `Client` interleaves the regions.
 */
module Scheduling {
  import opened Checksums
  import opened Framing
  import opened Wrappers

  /** A fire-and-forget command. `ticket` names its acceptance (see `Client.Entry`). */
  datatype Command = Command(body: Payload, ticket: nat)

  datatype Source = Imu | Motor

  datatype Purpose = Poll(source: Source) | Query

  /** `id` stands for the caller's own query state, `op` for the management operation the request
      belongs to (0 when it belongs to none). */
  datatype Request = Request(
    purpose: Purpose, id: nat, op: nat, expected: Byte, body: Payload, deadline: int, stopOnTimeout: bool)

  datatype Channel = Channel(interval: int, reschedule: bool, nextDue: int)

  datatype Watchdog = Watchdog(deadline: int, ticket: nat)

  datatype Config = Config(
    watchdogEnabled: bool, watchdogTimeout: int, safeStop: Payload, pollTimeout: int, guardWindow: int)

  datatype Sched = Sched(
    running: bool,
    commands: seq<Command>,
    requests: seq<Request>,
    inFlight: Option<Request>,
    watchdog: Option<Watchdog>,
    imu: Channel,
    motor: Channel)

  // ---- Command queue ----------------------------------------------------------------------

  predicate SameId(c: Command, d: Command) {
    c.body != [] && d.body != [] && c.body[0] == d.body[0]
  }

  function Without(q: seq<Command>, c: Command): seq<Command> {
    if q == [] then []
    else if SameId(q[0], c) then Without(q[1..], c)
    else [q[0]] + Without(q[1..], c)
  }

  /** A new command replaces the queued one with its ID and goes to the back. */
  function Replace(q: seq<Command>, c: Command): seq<Command> {
    Without(q, c) + [c]
  }

  predicate Accepts(s: Sched, body: Payload) {
    s.running && ValidPayload(body)
  }

  function Accept(cfg: Config, s: Sched, c: Command, refresh: bool, now: int): Sched
    requires Accepts(s, c.body)
  {
    s.(commands := Replace(s.commands, c),
       watchdog := if refresh && cfg.watchdogEnabled then Some(Watchdog(now + cfg.watchdogTimeout, c.ticket))
                   else s.watchdog)
  }

  predicate WatchdogDue(s: Sched, now: int) {
    s.watchdog.Some? && s.watchdog.value.deadline <= now
  }

  function Fire(s: Sched): Sched {
    s.(watchdog := None, commands := [])
  }

  // ---- Requests ---------------------------------------------------------------------------

  function Expired(q: seq<Request>, now: int): seq<Request> {
    if q == [] then []
    else if q[0].deadline <= now then [q[0]] + Expired(q[1..], now)
    else Expired(q[1..], now)
  }

  function Unexpired(q: seq<Request>, now: int): seq<Request> {
    if q == [] then []
    else if q[0].deadline <= now then Unexpired(q[1..], now)
    else [q[0]] + Unexpired(q[1..], now)
  }

  predicate InFlightExpired(s: Sched, now: int) {
    s.inFlight.Some? && s.inFlight.value.deadline <= now
  }

  /** What a timeout sweep takes out: the in-flight request first, then queued ones in order. */
  function Swept(s: Sched, now: int): seq<Request> {
    (if InFlightExpired(s, now) then [s.inFlight.value] else []) + Expired(s.requests, now)
  }

  function AfterSweep(s: Sched, now: int): Sched {
    s.(inFlight := if InFlightExpired(s, now) then None else s.inFlight,
       requests := Unexpired(s.requests, now))
  }

  predicate SweepStops(s: Sched, now: int) {
    InFlightExpired(s, now) && s.inFlight.value.stopOnTimeout
  }

  predicate Matches(s: Sched, payload: Payload) {
    payload != [] && s.inFlight.Some? && s.inFlight.value.expected == payload[0]
  }

  /** What the final clear takes out: queued requests in order, then the in-flight one. */
  function Pending(s: Sched): seq<Request> {
    s.requests + (if s.inFlight.Some? then [s.inFlight.value] else [])
  }

  function Cleared(s: Sched): Sched {
    s.(commands := [], requests := [], inFlight := None, watchdog := None)
  }

  // ---- Polls ------------------------------------------------------------------------------

  function ChannelOf(s: Sched, k: Source): Channel {
    if k.Imu? then s.imu else s.motor
  }

  function WithChannel(s: Sched, k: Source, c: Channel): Sched {
    if k.Imu? then s.(imu := c) else s.(motor := c)
  }

  function Other(k: Source): Source {
    if k.Imu? then Motor else Imu
  }

  predicate Due(c: Channel, now: int) {
    c.interval > 0 && c.nextDue <= now
  }

  /** The due channel with the earlier due time; the IMU wins ties. */
  function SelectDue(imu: Channel, motor: Channel, now: int): Option<Source> {
    if Due(imu, now) && (!Due(motor, now) || imu.nextDue <= motor.nextDue) then Some(Imu)
    else if Due(motor, now) then Some(Motor)
    else None
  }

  function SelectPoll(s: Sched, now: int): Option<Source> {
    SelectDue(s.imu, s.motor, now)
  }

  const FW_VERSION: Byte := 0
  const GET_VALUES: Byte := 4
  const GET_IMU: Byte := 65

  function PollBody(k: Source): Payload {
    if k.Imu? then [GET_IMU, 255, 255] else [GET_VALUES]
  }

  function PollRequest(cfg: Config, k: Source, now: int): Request {
    Request(Poll(k), 0, 0, PollBody(k)[0], PollBody(k), now + cfg.pollTimeout, false)
  }

  function AfterPoll(s: Sched, k: Source, now: int): Sched {
    var c := ChannelOf(s, k);
    WithChannel(s, k, c.(nextDue := now + c.interval))
  }

  // ---- Queries ----------------------------------------------------------------------------

  /** No enabled poll comes due within the guard window. */
  predicate PollsFarAway(cfg: Config, s: Sched, now: int) {
    && (s.imu.interval > 0 ==> s.imu.nextDue - now > cfg.guardWindow)
    && (s.motor.interval > 0 ==> s.motor.nextDue - now > cfg.guardWindow)
  }

  predicate QueryReady(cfg: Config, s: Sched, now: int) {
    Unexpired(s.requests, now) != [] && PollsFarAway(cfg, s, now)
  }

  function AfterTake(cfg: Config, s: Sched, now: int): Sched {
    var live := Unexpired(s.requests, now);
    s.(requests := if QueryReady(cfg, s, now) then live[1..] else live)
  }
}
