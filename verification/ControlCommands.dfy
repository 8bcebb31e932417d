/**
 The public control calls and the payloads they put on the command queue. A call whose argument
 cannot be sent produces the empty payload, which the scheduler does not accept.

 A C++ float is a real number or one of the special values. Scaling multiplies in double precision;
 a 24-bit significand times a scale below 2^17 is exact there, so real arithmetic loses nothing.
 */
module ControlCommands {
  import opened Checksums
  import opened Framing
  import opened Wrappers
  import opened Codec
  import opened Scheduling

  datatype Float = NotANumber | Infinity(negative: bool) | Finite(value: real)

  const SET_DUTY: Byte := 5
  const SET_CURRENT: Byte := 6
  const SET_CURRENT_BRAKE: Byte := 7
  const SET_RPM: Byte := 8
  const SET_SERVO_POS: Byte := 12
  const APP_DISABLE_OUTPUT: Byte := 63

  predicate Positive(f: Float) {
    f == Infinity(false) || (f.Finite? && f.value > 0.0)
  }

  function ClampBrakeCurrent(requested: Float, most: Float): real {
    if !requested.Finite? || !most.Finite? || requested.value <= 0.0 || most.value <= 0.0 then 0.0
    else if most.value < requested.value then most.value else requested.value
  }

  /** Rounds toward zero. */
  function Truncate(x: real): int {
    if x >= 0.0 then x.Floor else -((-x).Floor)
  }

  /** The product, if it lies within `low..high`. */
  function ScaledInteger(f: Float, scale: nat, low: int, high: int): Option<int> {
    if !f.Finite? then None
    else
      var scaled := f.value * scale as real;
      if scaled < low as real || scaled > high as real then None else Some(Truncate(scaled))
  }

  lemma TruncateRange(x: real, low: int, high: int)
    requires low <= 0 <= high && low as real <= x <= high as real
    ensures low <= Truncate(x) <= high
  {}

  function ScaledInt32(f: Float, scale: nat): (r: Option<int>)
    ensures r.Some? ==> IsInt32(r.value)
  {
    var r := ScaledInteger(f, scale, -0x8000_0000, 0x7FFF_FFFF);
    if r.Some? then
      TruncateRange(f.value * scale as real, -0x8000_0000, 0x7FFF_FFFF);
      r
    else None
  }

  function Command32(id: Byte, value: Option<int>): Payload
    requires value.Some? ==> IsInt32(value.value)
  {
    if value.None? then [] else [id] + Int32(value.value)
  }

  predicate Within(f: Float, low: real, high: real) {
    f.Finite? && low <= f.value <= high
  }

  function BuildSetDuty(duty: Float): Payload {
    if Within(duty, -1.0, 1.0) then Command32(SET_DUTY, ScaledInt32(duty, 100000)) else []
  }

  function BuildSetCurrent(amps: Float): Payload {
    Command32(SET_CURRENT, ScaledInt32(amps, 1000))
  }

  function BuildSetCurrentBrake(amps: Float): Payload {
    Command32(SET_CURRENT_BRAKE, ScaledInt32(amps, 1000))
  }

  function BuildSetRpm(rpm: int): Payload
    requires IsInt32(rpm)
  {
    Command32(SET_RPM, Some(rpm))
  }

  function BuildSetServoPos(position: Float): Payload {
    if !Within(position, 0.0, 1.0) then []
    else
      assert position.value * 1000.0 >= 0.0;
      [SET_SERVO_POS] + BigEndian(2, Truncate(position.value * 1000.0))
  }

  function BuildAppDisableOutput(milliseconds: int): Payload {
    if milliseconds < 0 || milliseconds > 0x7FFF_FFFF then []
    else [APP_DISABLE_OUTPUT, 0] + Int32(milliseconds)
  }

  // ---- Configuration ----------------------------------------------------------------------

  datatype WatchdogAction = Disabled | Coast | BrakeCurrent

  datatype Options = Options(
    maxBrakeCurrent: Float,
    watchdogTimeout: int,
    watchdogAction: WatchdogAction,
    watchdogBrakeCurrent: Float,
    pollTimeout: int,
    guardWindow: int)

  predicate WatchdogEnabled(o: Options) {
    o.watchdogTimeout > 0 &&
    match o.watchdogAction
    case Disabled => false
    case Coast => true
    case BrakeCurrent => Positive(o.watchdogBrakeCurrent) && Positive(o.maxBrakeCurrent)
  }

  function SafeStopBody(o: Options): Payload {
    match o.watchdogAction
    case Disabled => []
    case Coast => BuildSetCurrent(Finite(0.0))
    case BrakeCurrent => BuildSetCurrentBrake(Finite(ClampBrakeCurrent(o.watchdogBrakeCurrent, o.maxBrakeCurrent)))
  }

  function ConfigOf(o: Options): Config {
    Config(WatchdogEnabled(o), o.watchdogTimeout, SafeStopBody(o), o.pollTimeout, o.guardWindow)
  }

  // ---- Calls ------------------------------------------------------------------------------

  datatype Call =
    | SetDuty(duty: Float)
    | SetCurrent(amps: Float)
    | SetCurrentBrake(amps: Float)
    | SetRpm(rpm: int)
    | SetServoPos(position: Float)
    | SuppressOutput(milliseconds: int)

  /** What the call hands to the scheduler. */
  function CallBody(o: Options, call: Call): Payload {
    match call
    case SetDuty(duty) => BuildSetDuty(duty)
    case SetCurrent(amps) => BuildSetCurrent(amps)
    case SetCurrentBrake(amps) =>
      var clamped := ClampBrakeCurrent(amps, o.maxBrakeCurrent);
      if clamped <= 0.0 then [] else BuildSetCurrentBrake(Finite(clamped))
    case SetRpm(rpm) => if IsInt32(rpm) then BuildSetRpm(rpm) else []
    case SetServoPos(position) => BuildSetServoPos(position)
    case SuppressOutput(milliseconds) => BuildAppDisableOutput(milliseconds)
  }

  function CallId(call: Call): Byte {
    match call
    case SetDuty(_) => SET_DUTY
    case SetCurrent(_) => SET_CURRENT
    case SetCurrentBrake(_) => SET_CURRENT_BRAKE
    case SetRpm(_) => SET_RPM
    case SetServoPos(_) => SET_SERVO_POS
    case SuppressOutput(_) => APP_DISABLE_OUTPUT
  }

  /** Commands are short, and each kind of call has its own ID. */
  lemma CallsAreShort(o: Options, call: Call)
    ensures |CallBody(o, call)| <= 6
    ensures CallBody(o, call) != [] ==> CallBody(o, call)[0] == CallId(call)
  {}

  // ---- What the controller reads ----------------------------------------------------------

  /** `raw` is `x` rounded toward zero. */
  predicate RoundedTowardZero(raw: int, x: real) {
    if x >= 0.0 then raw as real <= x < raw as real + 1.0 else raw as real - 1.0 < x <= raw as real
  }

  lemma Command32ReadsBack(id: Byte, f: Float, scale: nat)
    ensures var body := Command32(id, ScaledInt32(f, scale));
            && (body != [] <==> f.Finite? && -2147483648.0 <= f.value * scale as real <= 2147483647.0)
            && (body != [] ==>
                  |body| == 5 && body[0] == id && RoundedTowardZero(ReadInt32(body[1..]), f.value * scale as real))
  {
    var body := Command32(id, ScaledInt32(f, scale));
    if body != [] {
      var raw := ScaledInt32(f, scale).value;
      assert body[1..] == Int32(raw);
      Int32RoundTrip(raw);
    }
  }

  /** A current is sent exactly when it fits, as milliamperes. */
  lemma CurrentReadsBack(o: Options, amps: Float)
    ensures var body := CallBody(o, SetCurrent(amps));
            && (body != [] <==> amps.Finite? && -2147483648.0 <= amps.value * 1000.0 <= 2147483647.0)
            && (body != [] ==>
                  |body| == 5 && body[0] == 6 && RoundedTowardZero(ReadInt32(body[1..]), amps.value * 1000.0))
  {
    Command32ReadsBack(SET_CURRENT, amps, 1000);
    assert CallBody(o, SetCurrent(amps)) == Command32(SET_CURRENT, ScaledInt32(amps, 1000));
  }

  /** A duty cycle is sent exactly when it lies in -1..1, in units of 0.00001. */
  lemma DutyReadsBack(o: Options, duty: Float)
    ensures var body := CallBody(o, SetDuty(duty));
            && (body != [] <==> duty.Finite? && -1.0 <= duty.value <= 1.0)
            && (body != [] ==>
                  |body| == 5 && body[0] == 5 && RoundedTowardZero(ReadInt32(body[1..]), duty.value * 100000.0))
  {
    Command32ReadsBack(SET_DUTY, duty, 100000);
  }

  /** A servo position is sent exactly when it lies in 0..1, in thousandths. */
  lemma ServoReadsBack(o: Options, position: Float)
    ensures var body := CallBody(o, SetServoPos(position));
            && (body != [] <==> position.Finite? && 0.0 <= position.value <= 1.0)
            && (body != [] ==>
                  |body| == 3 && body[0] == 12 && RoundedTowardZero(Value(body[1..]), position.value * 1000.0))
  {
    if Within(position, 0.0, 1.0) {
      var raw := Truncate(position.value * 1000.0);
      FourBytes();
      ValueOfField(2, raw);
      assert BuildSetServoPos(position)[1..] == BigEndian(2, raw);
    }
  }

  /** A speed is sent as it is. */
  lemma RpmReadsBack(o: Options, rpm: int)
    requires IsInt32(rpm)
    ensures var body := CallBody(o, SetRpm(rpm)); |body| == 5 && body[0] == 8 && ReadInt32(body[1..]) == rpm
  {
    Int32RoundTrip(rpm);
    assert BuildSetRpm(rpm)[1..] == Int32(rpm);
  }

  /** A time of suppression is sent, for this controller alone, exactly when it is a nonnegative 32-bit number
      of milliseconds. */
  lemma SuppressionReadsBack(o: Options, milliseconds: int)
    ensures var body := CallBody(o, SuppressOutput(milliseconds));
            && (body != [] <==> 0 <= milliseconds <= 0x7FFF_FFFF)
            && (body != [] ==>
                  |body| == 6 && body[0] == 63 && body[1] == 0 && ReadInt32(body[2..]) == milliseconds)
  {
    if 0 <= milliseconds <= 0x7FFF_FFFF {
      Int32RoundTrip(milliseconds);
      assert BuildAppDisableOutput(milliseconds)[2..] == Int32(milliseconds);
    }
  }

  /** A brake current is sent exactly when it is positive, the limit is, and what is left of it fits. */
  lemma BrakeReadsBack(o: Options, amps: Float)
    ensures var body := CallBody(o, SetCurrentBrake(amps));
            && (body != [] ==>
                  |body| == 5 && body[0] == 7 && amps.Finite? && o.maxBrakeCurrent.Finite?
                  && RoundedTowardZero(ReadInt32(body[1..]), Lesser(amps.value, o.maxBrakeCurrent.value) * 1000.0))
            && (body != [] <==>
                && amps.Finite? && o.maxBrakeCurrent.Finite? && amps.value > 0.0 && o.maxBrakeCurrent.value > 0.0
                && Lesser(amps.value, o.maxBrakeCurrent.value) * 1000.0 <= 2147483647.0)
  {
    var clamped := ClampBrakeCurrent(amps, o.maxBrakeCurrent);
    Command32ReadsBack(SET_CURRENT_BRAKE, Finite(clamped), 1000);
    assert clamped > 0.0 ==> clamped == Lesser(amps.value, o.maxBrakeCurrent.value);
  }

  function Lesser(a: real, b: real): real {
    if a < b then a else b
  }

  /** The safe stop: coasting is a current of zero; braking is the configured current within the limit. */
  lemma SafeStopReadsBack(o: Options)
    ensures o.watchdogAction.Coast? ==> ConfigOf(o).safeStop == [6, 0, 0, 0, 0]
    ensures o.watchdogAction.BrakeCurrent? && ConfigOf(o).safeStop != [] ==>
              BrakesWith(ConfigOf(o).safeStop, o.watchdogBrakeCurrent, o.maxBrakeCurrent)
  {
    if o.watchdogAction.Coast? {
      CoastIsZero();
    } else if o.watchdogAction.BrakeCurrent? {
      BrakeWithin(o.watchdogBrakeCurrent, o.maxBrakeCurrent);
    }
  }

  /** The payload brakes with the lesser of the two currents, or with none if either is not a positive number. */
  predicate BrakesWith(body: Payload, asked: Float, most: Float) {
    && |body| == 5 && body[0] == 7
    && var amps := if asked.Finite? && most.Finite? && asked.value > 0.0 && most.value > 0.0
                   then Lesser(asked.value, most.value) else 0.0;
       RoundedTowardZero(ReadInt32(body[1..]), amps * 1000.0)
  }

  lemma CoastIsZero()
    ensures BuildSetCurrent(Finite(0.0)) == [6, 0, 0, 0, 0]
  {
    FieldBytes(0);
    assert Int32(0) == [0, 0, 0, 0];
  }

  lemma BrakeWithin(asked: Float, most: Float)
    ensures var body := BuildSetCurrentBrake(Finite(ClampBrakeCurrent(asked, most)));
            body != [] ==> BrakesWith(body, asked, most)
  {
    var clamped := ClampBrakeCurrent(asked, most);
    Command32ReadsBack(SET_CURRENT_BRAKE, Finite(clamped), 1000);
    assert clamped == if asked.Finite? && most.Finite? && asked.value > 0.0 && most.value > 0.0
                      then Lesser(asked.value, most.value) else 0.0;
  }

  /** The watchdog is enabled exactly with a positive timeout and an action: coasting, or braking with a
      positive current and limit. The times are passed on. */
  lemma OptionsAreHeeded(o: Options)
    ensures ConfigOf(o).watchdogEnabled <==>
            && o.watchdogTimeout > 0
            && (o.watchdogAction.Coast? ||
                (o.watchdogAction.BrakeCurrent? && Positive(o.watchdogBrakeCurrent) && Positive(o.maxBrakeCurrent)))
    ensures ConfigOf(o).watchdogTimeout == o.watchdogTimeout && ConfigOf(o).pollTimeout == o.pollTimeout
    ensures ConfigOf(o).guardWindow == o.guardWindow
  {}
}
