/** Spectrum frames and their validation (models.cpp), in 64-bit unsigned arithmetic. */
module FrequencyAxis {
  import opened Prelude
  import opened Division

  const TWO64 := 0x1_0000_0000_0000_0000
  const MAX64 := 0xFFFF_FFFF_FFFF_FFFF
  const MAX_SPECTRUM_POINTS := 65536
  const TOP_HZ := 24_000_000_000

  predicate IsU64(x: int) {
    0 <= x < TWO64
  }

  /** The value of an unsigned 64-bit expression whose exact value is `x`. */
  function Wrap(x: int): (r: int)
    ensures IsU64(r)
    ensures IsU64(x) ==> r == x
  {
    x % TWO64
  }

  /** A power sample; not finite stands for NaN and infinities. */
  datatype Power = Dbm(value: real) | NotFinite

  datatype SourceType = Mock | Replay | Aaronia | Usrp | Hackrf | Unknown

  datatype Flags = Flags(overflow: bool, dropped: bool, inaccurate: bool)

  datatype Metadata = Metadata(
    gain: Option<real>, antenna: Option<string>, simulated: bool, attributes: map<string, string>)

  datatype SpectrumFrame = SpectrumFrame(
    schemaVersion: int,
    sensorId: string,
    sourceType: SourceType,
    sourceDevice: string,
    deviceModel: string,
    measurementMode: string,
    sessionId: string,
    timestamp: string,
    sequence: nat,
    center: int,
    start: int,
    stop: int,
    step: int,
    sampleRate: int,
    rbw: Power,
    numPoints: int,
    powerUnit: string,
    powers: seq<Power>,
    flags: Flags,
    metadata: Metadata)

  /** The fields that C++ declares as unsigned 64-bit integers. */
  predicate Machine(f: SpectrumFrame) {
    && IsU64(f.center) && IsU64(f.start) && IsU64(f.stop) && IsU64(f.step)
    && IsU64(f.sampleRate) && IsU64(f.numPoints)
  }

  /** The overflow-guarded axis test, as computed on 64-bit values. */
  predicate AxisTest(start: int, stop: int, step: int, points: int)
    requires points > 0 && step > 0
  {
    var intervals := points - 1;
    && !(intervals > (MAX64 - start) / step)
    && Wrap(start + Wrap(step * intervals)) == stop
  }

  /** The test accepts exactly the axes whose last point is `stop` in unbounded arithmetic. */
  lemma AxisTestIsExact(start: int, stop: int, step: int, points: int)
    requires IsU64(start) && IsU64(stop) && IsU64(step) && IsU64(points) && points > 0 && step > 0
    ensures AxisTest(start, stop, step, points) <==> start + step * (points - 1) == stop
  {
    var n := points - 1;
    QuotientBound(n, MAX64 - start, step);
    assert n * step == step * n;
    assert step * n >= 0;
    if step * n <= MAX64 - start {
      assert Wrap(step * n) == step * n;
    }
  }

  /** The frequency that to_frontend_points_json computes for a point, on 64-bit values. */
  function PointFrequency(start: int, step: int, index: int): int {
    Wrap(start + Wrap(step * index))
  }

  lemma ExactAxisPoint(start: int, stop: int, step: nat, intervals: nat, i: nat)
    requires IsU64(start) && IsU64(stop) && start + step * intervals == stop && i <= intervals
    ensures PointFrequency(start, step, i) == start + step * i
    ensures start <= start + step * i <= stop
  {
    ProductBounds(step, i, intervals);
    var product := step * i;
    assert IsU64(product) && IsU64(start + product);
  }

  /** On an accepted axis no point wraps, points are `step` apart, and they fill start..stop. */
  lemma NoPointWraps(start: int, stop: int, step: int, points: int, i: nat)
    requires IsU64(start) && IsU64(stop) && IsU64(step) && IsU64(points) && points > 0 && step > 0
    requires AxisTest(start, stop, step, points) && i < points
    ensures PointFrequency(start, step, i) == start + step * i
    ensures start <= PointFrequency(start, step, i) <= stop
    ensures i == points - 1 ==> PointFrequency(start, step, i) == stop
  {
    assert start + step * (points - 1) == stop by {
      AxisTestIsExact(start, stop, step, points);
    }
    ExactAxisPoint(start, stop, step, points - 1, i);
  }

  // --- Timestamps ---

  predicate Digits(s: string, at: nat, count: nat) {
    at + count <= |s| && forall k :: at <= k < at + count ==> '0' <= s[k] <= '9'
  }

  function Number(s: string, at: nat, count: nat): nat
    requires Digits(s, at, count)
  {
    if count == 0 then 0 else 10 * Number(s, at, count - 1) + (s[at + count - 1] as int - '0' as int)
  }

  function DigitsFrom(s: string, at: nat): (n: nat)
    ensures at <= |s| ==> at + n <= |s|
    decreases |s| - at
  {
    if at < |s| && '0' <= s[at] <= '9' then 1 + DigitsFrom(s, at + 1) else 0
  }

  function DaysIn(year: nat, month: nat): nat {
    if month == 2 then
      if (year % 4 == 0 && year % 100 != 0) || year % 400 == 0 then 29 else 28
    else if month in {4, 6, 9, 11} then 30
    else 31
  }

  predicate ValidDate(year: nat, month: nat, day: nat) {
    year >= 1970 && 1 <= month <= 12 && 1 <= day <= DaysIn(year, month)
  }

  predicate ValidZone(s: string) {
    s == "Z" ||
    (|s| == 6 && s[0] in "+-" && Digits(s, 1, 2) && s[3] == ':' && Digits(s, 4, 2)
     && Number(s, 1, 2) <= 23 && Number(s, 4, 2) <= 59)
  }

  /** ISO-8601 with an optional fraction of one to nine digits and a time zone. */
  predicate ValidTimestamp(s: string) {
    && |s| >= 20
    && Digits(s, 0, 4) && s[4] == '-' && Digits(s, 5, 2) && s[7] == '-' && Digits(s, 8, 2)
    && s[10] == 'T' && Digits(s, 11, 2) && s[13] == ':' && Digits(s, 14, 2) && s[16] == ':' && Digits(s, 17, 2)
    && ValidDate(Number(s, 0, 4), Number(s, 5, 2), Number(s, 8, 2))
    && Number(s, 11, 2) <= 23 && Number(s, 14, 2) <= 59 && Number(s, 17, 2) <= 60
    && if s[19] == '.' then
         var fraction := DigitsFrom(s, 20);
         1 <= fraction <= 9 && ValidZone(s[20 + fraction..])
       else ValidZone(s[19..])
  }

  /** The diagnostics of the validator. */
  datatype Fault =
    | BadSchema | NoSensor | NoSourceType | NoSourceDevice | NoSession | BadTimestamp | NoDeviceModel
    | NoMeasurementMode | NoPoints | NoStep | EmptyRange | AxisInconsistent | CenterOutside
    | NoSampleRate | BadRbw | PowerCount | TooLarge | BadUnit | PowerNotFinite

  /** What the validator promises, in unbounded arithmetic. */
  ghost predicate WellFormed(f: SpectrumFrame, maxPoints: int) {
    && f.schemaVersion == 1 && f.sourceType != Unknown && ValidTimestamp(f.timestamp)
    && f.sensorId != "" && f.sourceDevice != "" && f.sessionId != ""
    && f.deviceModel != "" && f.measurementMode != ""
    && 2 <= f.numPoints <= maxPoints && |f.powers| == f.numPoints
    && f.step > 0 && f.stop == f.start + f.step * (f.numPoints - 1)
    && f.start <= f.center <= f.stop
    && f.sampleRate > 0 && f.rbw.Dbm? && f.rbw.value > 0.0 && f.powerUnit == "dBm"
    && (forall i :: 0 <= i < |f.powers| ==> f.powers[i].Dbm?)
  }

  /** validate_spectrum_frame. */
  method ValidateSpectrumFrame(f: SpectrumFrame, maxPoints: int) returns (errors: seq<Fault>)
    requires Machine(f)
    ensures errors == [] <==> WellFormed(f, maxPoints)
  {
    errors := [];
    if f.schemaVersion != 1 { errors := errors + [BadSchema]; }
    if f.sensorId == "" { errors := errors + [NoSensor]; }
    if f.sourceType == Unknown { errors := errors + [NoSourceType]; }
    if f.sourceDevice == "" { errors := errors + [NoSourceDevice]; }
    if f.sessionId == "" { errors := errors + [NoSession]; }
    if !ValidTimestamp(f.timestamp) { errors := errors + [BadTimestamp]; }
    if f.deviceModel == "" { errors := errors + [NoDeviceModel]; }
    if f.measurementMode == "" { errors := errors + [NoMeasurementMode]; }
    var axisErrors := ValidateAxis(f);
    errors := errors + axisErrors;
    if f.sampleRate == 0 { errors := errors + [NoSampleRate]; }
    if f.rbw.NotFinite? || f.rbw.value <= 0.0 { errors := errors + [BadRbw]; }
    if |f.powers| != f.numPoints { errors := errors + [PowerCount]; }
    if f.numPoints > maxPoints { errors := errors + [TooLarge]; }
    if f.powerUnit != "dBm" { errors := errors + [BadUnit]; }
    if exists i :: 0 <= i < |f.powers| && f.powers[i].NotFinite? {
      errors := errors + [PowerNotFinite];
    }
  }

  method TestAxis(start: int, stop: int, step: int, points: int) returns (consistent: bool)
    requires IsU64(start) && IsU64(stop) && IsU64(step) && IsU64(points) && points > 0 && step > 0
    ensures consistent <==> start + step * (points - 1) == stop
  {
    consistent := AxisTest(start, stop, step, points);
    AxisTestIsExact(start, stop, step, points);
  }

  lemma PositiveProduct(step: nat, n: nat)
    requires step > 0
    ensures step * n > 0 <==> n > 0
    ensures step * n >= 0
  {
  }

  ghost predicate AxisWellFormed(f: SpectrumFrame) {
    && f.numPoints >= 2 && f.step > 0
    && f.stop == f.start + f.step * (f.numPoints - 1)
    && f.start <= f.center <= f.stop
  }

  method ValidateAxis(f: SpectrumFrame) returns (errors: seq<Fault>)
    requires Machine(f)
    ensures errors == [] <==> AxisWellFormed(f)
  {
    errors := [];
    if f.numPoints == 0 { errors := errors + [NoPoints]; }
    if f.step == 0 { errors := errors + [NoStep]; }
    if f.start >= f.stop { errors := errors + [EmptyRange]; }
    if f.numPoints > 0 && f.step > 0 {
      var consistent := TestAxis(f.start, f.stop, f.step, f.numPoints);
      if !consistent {
        errors := errors + [AxisInconsistent];
      }
      PositiveProduct(f.step, f.numPoints - 1);
    }
    if f.center < f.start || f.center > f.stop {
      errors := errors + [CenterOutside];
    }
  }
}
