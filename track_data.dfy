/**
  The car simulation engine (services/trackData.ts): the driver roster, the
  starting grid and the per-frame step that turns the previous car states, a
  frame's duration and the playback multiplier into the next car states.

  Every operation here is a pure function building fresh records, as in the
  source, which maps over the car array and never mutates it.
 */
module TrackData {
  import opened Geometry
  import opened Types

  const Drivers: seq<Driver> := [
    Driver("ver", "Max Verstappen", "Red Bull Racing", "#1e41ff", "VER"),
    Driver("nor", "Lando Norris", "McLaren", "#ff8000", "NOR"),
    Driver("lec", "Charles Leclerc", "Ferrari", "#ff0000", "LEC"),
    Driver("ham", "Lewis Hamilton", "Mercedes", "#00d2be", "HAM"),
    Driver("pia", "Oscar Piastri", "McLaren", "#ff8000", "PIA"),
    Driver("rus", "George Russell", "Mercedes", "#00d2be", "RUS"),
    Driver("sai", "Carlos Sainz", "Ferrari", "#ff0000", "SAI"),
    Driver("alo", "Fernando Alonso", "Aston Martin", "#006f62", "ALO")
  ]

  /** JavaScript's `Math.PI`. */
  const Pi: real := 3.141592653589793

  const BaseSpeedKmh: real := 300.0
  const CornerSwingKmh: real := 50.0
  const SkillStepKmh: real := 2.0
  const NoiseKmh: real := 5.0
  const MinSpeedKmh: real := 80.0
  const KmhPerMs: real := 3.6
  const GridGap: real := 0.005
  const LookAhead: real := 0.01

  /** How far a car has gone in the race, in laps: the leaderboard and the TV camera rank by it. */
  function RaceDistance(car: CarState): real {
    car.lap as real + car.lapProgress
  }

  /**
    JavaScript's `x % 1`: what is left after removing the whole laps, keeping
    the sign of `x`.
   */
  function Rem1(x: real): (r: real)
    ensures 0.0 <= x ==> 0.0 <= r < 1.0
    ensures x <= 0.0 ==> -1.0 < r <= 0.0
    ensures 0.0 <= x < 1.0 ==> r == x
  {
    if x >= 0.0 then x - x.Floor as real else x + (-x).Floor as real
  }

  /** The starting fraction of lap for grid slot `index`: staggered backwards from 1. */
  function GridProgress(index: nat): real {
    1.0 - index as real * GridGap
  }

  function InitialCarState(curve: Curve, index: nat): CarState
    requires index < |Drivers|
  {
    var startProgress := GridProgress(index);
    CarState(Drivers[index].id, curve.pointAt(Rem1(startProgress)), 0.0, 1, startProgress, 0.0)
  }

  /** `getInitialCarStates`: one car per driver, in roster order, on lap 1 and at rest. */
  function InitialCarStates(curve: Curve): (cars: seq<CarState>)
    ensures |cars| == |Drivers|
    ensures forall i :: 0 <= i < |cars| ==>
      && cars[i].driverId == Drivers[i].id
      && cars[i].lap == 1
      && cars[i].speed == 0.0
      && cars[i].rotation == 0.0
      && cars[i].lapProgress == 1.0 - i as real * 0.005
      && cars[i].position == curve.pointAt(Rem1(cars[i].lapProgress))
  {
    seq(|Drivers|, i requires 0 <= i < |Drivers| => InitialCarState(curve, i))
  }

  /**
    The grid lies within the last 4% of a lap. Car 0 alone starts at exactly
    1.0, outside [0, 1), and its position is looked up at fraction 0.
   */
  lemma GridWindow(curve: Curve, i: nat)
    requires i < |Drivers|
    ensures 0.96 < InitialCarStates(curve)[i].lapProgress <= 1.0
    ensures InitialCarStates(curve)[i].lapProgress == 1.0 <==> i == 0
    ensures i > 0 ==> InitialCarStates(curve)[i].position == curve.pointAt(InitialCarStates(curve)[i].lapProgress)
    ensures i == 0 ==> InitialCarStates(curve)[i].position == curve.pointAt(0.0)
  {
    var car := InitialCarStates(curve)[i];
    assert car.lapProgress == 1.0 - i as real * 0.005;
    if i == 0 {
      assert car.lapProgress == 1.0;
      assert (1.0).Floor == 1;
      assert Rem1(1.0) == 0.0;
    }
  }

  /** The speed formula before the 80 km/h floor is applied. */
  function RawSpeedKmh(trig: Trig, lapProgress: real, idx: int, nowMs: real): (r: real)
    ensures SinBounded(trig) ==>
      var skill := (|Drivers| - idx) as real * SkillStepKmh;
      BaseSpeedKmh - CornerSwingKmh - NoiseKmh <= r - skill <= BaseSpeedKmh + CornerSwingKmh + NoiseKmh
  {
    var speedVariation := trig.sin(lapProgress * Pi * 4.0) * CornerSwingKmh;
    var driverSkill := (|Drivers| - idx) as real * SkillStepKmh;
    var noise := trig.sin(nowMs * 0.001 + idx as real) * NoiseKmh;
    BaseSpeedKmh + speedVariation + driverSkill + noise
  }

  /**
    The reported speed of the car at array index `idx`: the raw formula,
    raised to the floor when it falls below.
   */
  function SpeedKmh(trig: Trig, lapProgress: real, idx: int, nowMs: real): (r: real)
    ensures r >= MinSpeedKmh
    ensures r >= RawSpeedKmh(trig, lapProgress, idx, nowMs)
    ensures r == MinSpeedKmh || r == RawSpeedKmh(trig, lapProgress, idx, nowMs)
  {
    var raw := RawSpeedKmh(trig, lapProgress, idx, nowMs);
    if raw > MinSpeedKmh then raw else MinSpeedKmh
  }

  /**
    With sines in [-1, 1] and one of the eight roster slots (skill 16 down to
    2 km/h), the floor never applies and the speed lies in [247, 371] km/h.
   */
  lemma SpeedWithinRoster(trig: Trig, lapProgress: real, idx: int, nowMs: real)
    requires SinBounded(trig)
    requires 0 <= idx < |Drivers|
    ensures SpeedKmh(trig, lapProgress, idx, nowMs) == RawSpeedKmh(trig, lapProgress, idx, nowMs)
    ensures 247.0 <= SpeedKmh(trig, lapProgress, idx, nowMs) <= 371.0
  {
    var s1 := trig.sin(lapProgress * Pi * 4.0);
    var s2 := trig.sin(nowMs * 0.001 + idx as real);
    assert -1.0 <= s1 <= 1.0 && -1.0 <= s2 <= 1.0;
    assert 2.0 <= (|Drivers| - idx) as real * SkillStepKmh <= 16.0;
  }

  /** The fraction of a lap covered in `dt` seconds at `speedKmh`. */
  function ProgressDelta(speedKmh: real, dt: real, curve: Curve): (r: real)
    requires ValidCurve(curve)
    ensures r * curve.length == (speedKmh / KmhPerMs) * dt
  {
    (speedKmh / KmhPerMs) * dt / curve.length
  }

  /** A car never moves backwards in a non-negative step, and stands still in a zero one. */
  lemma ProgressDeltaSign(speedKmh: real, dt: real, curve: Curve)
    requires ValidCurve(curve)
    requires speedKmh >= 0.0 && dt >= 0.0
    ensures ProgressDelta(speedKmh, dt, curve) >= 0.0
    ensures dt == 0.0 ==> ProgressDelta(speedKmh, dt, curve) == 0.0
  {
    var ms := speedKmh / KmhPerMs;
    assert ms >= 0.0;
    assert ms * dt >= 0.0;
  }

  /**
    The single lap wrap: a fraction of 1 or more loses exactly 1 and the lap
    counter gains exactly 1; otherwise both are kept. Race distance
    (lap plus fraction) is neither lost nor gained.
   */
  function WrapLap(lap: int, progress: real): (r: (int, real))
    ensures r.0 as real + r.1 == lap as real + progress
    ensures r.0 == lap || r.0 == lap + 1
    ensures r.0 == lap + 1 <==> progress >= 1.0
  {
    if progress >= 1.0 then (lap + 1, progress - 1.0) else (lap, progress)
  }

  /**
    The wrapped fraction is back in [0, 1) exactly when less than two laps'
    worth was reached; from 2 on it stays at 1 or more and a lap is lost
    from the counter.
   */
  lemma WrapLapRange(lap: int, progress: real)
    requires progress >= 0.0
    ensures 0.0 <= WrapLap(lap, progress).1 < 1.0 <==> progress < 2.0
    ensures progress >= 2.0 ==> WrapLap(lap, progress).1 >= 1.0 && WrapLap(lap, progress).0 == lap + 1
  {
  }

  /**
    The yaw of a car at lap fraction `fraction`: the `atan2` of the x and z
    parts of the normalised direction towards the point `LookAhead` further
    round the loop. The direction is not checked for zero length.
   */
  function Heading(curve: Curve, trig: Trig, fraction: real): real {
    var here := curve.pointAt(fraction);
    var ahead := curve.pointAt(Rem1(fraction + LookAhead));
    var direction := Normalize(Sub(ahead, here), trig);
    trig.atan2(direction.x, direction.z)
  }

  /** The look-ahead displacement whose bearing gives the heading at `fraction`. */
  function LookAheadDisplacement(curve: Curve, fraction: real): Vec3 {
    Sub(curve.pointAt(Rem1(fraction + LookAhead)), curve.pointAt(fraction))
  }

  /**
    `atan2(x, z)` depends only on the direction of `(x, z)`: scaling both
    arguments by the same positive factor leaves it unchanged.
   */
  ghost predicate Atan2Homogeneous(trig: Trig) {
    forall x1, z1, x2, z2 {:trigger trig.atan2(x1, z1), trig.atan2(x2, z2)} ::
      x1 * z2 == x2 * z1 && x1 * x2 + z1 * z2 > 0.0 ==> trig.atan2(x1, z1) == trig.atan2(x2, z2)
  }

  ghost predicate SqrtNonNegative(trig: Trig) {
    forall x :: x >= 0.0 ==> trig.sqrt(x) >= 0.0
  }

  /** Dividing both coordinates by a positive length keeps the bearing. */
  lemma BearingOfScaled(d: Vec3, len: real, trig: Trig)
    requires Atan2Homogeneous(trig) && len > 0.0
    ensures trig.atan2(d.x / len, d.z / len) == trig.atan2(d.x, d.z)
  {
    var k := 1.0 / len;
    assert k > 0.0;
    assert d.x / len == k * d.x && d.z / len == k * d.z;
    if !(d.x == 0.0 && d.z == 0.0) {
      assert (k * d.x) * d.z == d.x * (k * d.z);
      assert (k * d.x) * d.x + (k * d.z) * d.z == k * (d.x * d.x + d.z * d.z);
      assert d.x * d.x + d.z * d.z > 0.0;
    }
  }

  /**
    The heading is the horizontal bearing of the look-ahead displacement:
    normalising the direction does not change it, whatever its length.
   */
  lemma HeadingIsBearing(curve: Curve, trig: Trig, fraction: real)
    requires Atan2Homogeneous(trig) && SqrtNonNegative(trig)
    ensures var d := LookAheadDisplacement(curve, fraction);
      Heading(curve, trig, fraction) == trig.atan2(d.x, d.z)
  {
    var d := LookAheadDisplacement(curve, fraction);
    var len := Length(d, trig);
    assert len >= 0.0 by {
      assert Norm2(d) >= 0.0;
    }
    if len != 0.0 {
      var u := Normalize(d, trig);
      assert u.x == d.x / len && u.z == d.z / len;
      BearingOfScaled(d, len, trig);
    }
  }

  /**
    Where the look-ahead point coincides with the car's own point (and the
    square root of 0 is 0), the heading is `atan2(0, 0)`: there is no fallback.
   */
  lemma DegenerateHeading(curve: Curve, trig: Trig, fraction: real)
    requires trig.sqrt(0.0) == 0.0
    requires curve.pointAt(Rem1(fraction + LookAhead)) == curve.pointAt(fraction)
    ensures Heading(curve, trig, fraction) == trig.atan2(0.0, 0.0)
  {
    var d := Sub(curve.pointAt(Rem1(fraction + LookAhead)), curve.pointAt(fraction));
    assert d == Origin;
    assert Length(d, trig) == 0.0 by {
      assert Norm2(Origin) == 0.0;
    }
  }

  /** One car's step (the body of the map in `updateCars`); `idx` is its array index. */
  function UpdateCar(car: CarState, idx: int, dt: real, nowMs: real, curve: Curve, trig: Trig): (r: CarState)
    requires ValidCurve(curve)
    ensures r.driverId == car.driverId
    ensures r.speed == SpeedKmh(trig, car.lapProgress, idx, nowMs)
    ensures RaceDistance(r) == RaceDistance(car) + ProgressDelta(r.speed, dt, curve)
    ensures r.lap == car.lap || r.lap == car.lap + 1
    ensures r.lap == car.lap + 1 <==> car.lapProgress + ProgressDelta(r.speed, dt, curve) >= 1.0
    ensures r.position == curve.pointAt(r.lapProgress)
    ensures r.rotation == Heading(curve, trig, r.lapProgress)
  {
    var speed := SpeedKmh(trig, car.lapProgress, idx, nowMs);
    var wrapped := WrapLap(car.lap, car.lapProgress + ProgressDelta(speed, dt, curve));
    car.(position := curve.pointAt(wrapped.1),
         rotation := Heading(curve, trig, wrapped.1),
         lap := wrapped.0,
         lapProgress := wrapped.1,
         speed := speed)
  }

  /**
    `updateCars`: every car advanced by the scaled time `deltaTime * playbackSpeed`;
    same length, same order, same drivers, and no lap counter goes back or
    gains more than one.
   */
  function UpdateCars(states: seq<CarState>, deltaTime: real, playbackSpeed: real, nowMs: real,
                      curve: Curve, trig: Trig): (r: seq<CarState>)
    requires ValidCurve(curve)
    ensures |r| == |states|
    ensures forall i :: 0 <= i < |r| ==> r[i] == UpdateCar(states[i], i, deltaTime * playbackSpeed, nowMs, curve, trig)
    ensures forall i :: 0 <= i < |r| ==>
      && r[i].driverId == states[i].driverId
      && states[i].lap <= r[i].lap <= states[i].lap + 1
  {
    var dt := deltaTime * playbackSpeed;
    seq(|states|, i requires 0 <= i < |states| => UpdateCar(states[i], i, dt, nowMs, curve, trig))
  }

  /**
    A tick with no elapsed simulated time keeps lap and fraction of every car
    already inside [0, 1), but a car at a fraction of 1 or more is still
    wrapped; the speed is always recomputed.
   */
  lemma ZeroTick(states: seq<CarState>, deltaTime: real, playbackSpeed: real, nowMs: real,
                 curve: Curve, trig: Trig, i: nat)
    requires ValidCurve(curve)
    requires deltaTime == 0.0 || playbackSpeed == 0.0
    requires i < |states|
    ensures 0.0 <= states[i].lapProgress < 1.0 ==>
      && UpdateCars(states, deltaTime, playbackSpeed, nowMs, curve, trig)[i].lap == states[i].lap
      && UpdateCars(states, deltaTime, playbackSpeed, nowMs, curve, trig)[i].lapProgress == states[i].lapProgress
    ensures states[i].lapProgress >= 1.0 ==>
      && UpdateCars(states, deltaTime, playbackSpeed, nowMs, curve, trig)[i].lap == states[i].lap + 1
      && UpdateCars(states, deltaTime, playbackSpeed, nowMs, curve, trig)[i].lapProgress == states[i].lapProgress - 1.0
    ensures UpdateCars(states, deltaTime, playbackSpeed, nowMs, curve, trig)[i].speed
            == SpeedKmh(trig, states[i].lapProgress, i, nowMs)
  {
    var speed := SpeedKmh(trig, states[i].lapProgress, i, nowMs);
    assert deltaTime * playbackSpeed == 0.0;
    assert ProgressDelta(speed, deltaTime * playbackSpeed, curve) == 0.0;
  }

  /**
    On the starting grid a zero tick already moves car 0 to lap 2 at fraction
    0, while every other car keeps lap 1 and its grid fraction.
   */
  lemma ZeroTickOnGrid(curve: Curve, trig: Trig, playbackSpeed: real, nowMs: real, i: nat)
    requires ValidCurve(curve)
    requires i < |Drivers|
    ensures i == 0 ==> UpdateCars(InitialCarStates(curve), 0.0, playbackSpeed, nowMs, curve, trig)[i].lap == 2
    ensures i == 0 ==> UpdateCars(InitialCarStates(curve), 0.0, playbackSpeed, nowMs, curve, trig)[i].lapProgress == 0.0
    ensures i > 0 ==> UpdateCars(InitialCarStates(curve), 0.0, playbackSpeed, nowMs, curve, trig)[i].lap == 1
    ensures i > 0 ==> UpdateCars(InitialCarStates(curve), 0.0, playbackSpeed, nowMs, curve, trig)[i].lapProgress
                      == InitialCarStates(curve)[i].lapProgress
  {
    GridWindow(curve, i);
    ZeroTick(InitialCarStates(curve), 0.0, playbackSpeed, nowMs, curve, trig, i);
  }

  /**
    A car at a non-negative fraction (the grid start at 1.0 included) ends
    the step inside [0, 1) exactly when fraction plus step stays below 2;
    from 2 on it is left at 1 or beyond with only one lap counted.
   */
  lemma StepRange(car: CarState, idx: int, dt: real, nowMs: real, curve: Curve, trig: Trig)
    requires ValidCurve(curve)
    requires 0.0 <= car.lapProgress && dt >= 0.0
    ensures var r := UpdateCar(car, idx, dt, nowMs, curve, trig);
      0.0 <= r.lapProgress < 1.0 <==> car.lapProgress + ProgressDelta(r.speed, dt, curve) < 2.0
    ensures var r := UpdateCar(car, idx, dt, nowMs, curve, trig);
      car.lapProgress + ProgressDelta(r.speed, dt, curve) >= 2.0 ==> r.lapProgress >= 1.0 && r.lap == car.lap + 1
  {
    var r := UpdateCar(car, idx, dt, nowMs, curve, trig);
    var delta := ProgressDelta(r.speed, dt, curve);
    ProgressDeltaSign(r.speed, dt, curve);
    WrapLapRange(car.lap, car.lapProgress + delta);
  }
}
