/**
  The per-frame camera controller of the 3D scene (components/Scene3D.tsx).

  Choosing where the camera should go is a pure computation (`CameraGoal`):
  in FOLLOW mode a pose behind and above the focused car, in TV_BROADCAST
  mode a slow orbit around the midpoint of the origin and the race leader.
  Applying it is imperative: `CameraRig.Frame` moves the camera position and
  the orbit controls' target a fixed fraction of the way towards the goal,
  in place, as three.js `lerp` does.
 */
module Scene3D {
  import opened Geometry
  import opened Types
  import opened TrackData
  import opened Arrays

  const FollowDistance: real := 12.0
  const FollowHeight: real := 6.0
  const FollowSmoothing: real := 0.1
  const OrbitRate: real := 0.1
  const OrbitRadius: real := 100.0
  const OrbitHeight: real := 80.0
  const OrbitSmoothing: real := 0.05

  /** JavaScript truthiness of the focused id: null and the empty string are false. */
  predicate IsSet(id: Option<string>) {
    id.Some? && id.value != ""
  }

  /** `cars.find(c => c.driverId === id)`. */
  function FindCar(cars: seq<CarState>, id: string): (r: Option<nat>)
    ensures r.Some? ==> r.value < |cars| && cars[r.value].driverId == id
    ensures r.Some? ==> forall j :: 0 <= j < r.value ==> cars[j].driverId != id
    ensures r.None? ==> forall j :: 0 <= j < |cars| ==> cars[j].driverId != id
  {
    Find(cars, (c: CarState) => c.driverId == id)
  }

  /** `Math.max` over the race distances of a non-empty field of cars. */
  function MaxDistance(cars: seq<CarState>): (m: real)
    requires |cars| > 0
    ensures forall i :: 0 <= i < |cars| ==> RaceDistance(cars[i]) <= m
    ensures exists i :: 0 <= i < |cars| && RaceDistance(cars[i]) == m
  {
    if |cars| == 1 then RaceDistance(cars[0])
    else
      var rest := MaxDistance(cars[1..]);
      assert forall i :: 1 <= i < |cars| ==> cars[i] == cars[1..][i - 1];
      if RaceDistance(cars[0]) >= rest then RaceDistance(cars[0]) else rest
  }

  /**
    The leader the TV camera follows: the first car in array order whose race
    distance equals the maximum; none for an empty field.
   */
  function FindLeader(cars: seq<CarState>): (r: Option<nat>)
    ensures r.None? <==> |cars| == 0
    ensures r.Some? ==> r.value < |cars| && RaceDistance(cars[r.value]) == MaxDistance(cars)
    ensures r.Some? ==> forall j :: 0 <= j < r.value ==> RaceDistance(cars[j]) < MaxDistance(cars)
  {
    if |cars| == 0 then None
    else
      var m := MaxDistance(cars);
      Find(cars, (c: CarState) => RaceDistance(c) == m)
  }

  /** The leader's position, or the origin when there is no car. */
  function LeaderPosition(cars: seq<CarState>): Vec3 {
    match FindLeader(cars)
    case Some(i) => cars[i].position
    case None => Origin
  }

  /** The point the broadcast camera orbits and looks at: halfway from the origin to the leader. */
  function OrbitCentre(cars: seq<CarState>): (r: Vec3)
    ensures |cars| == 0 ==> r == Origin
    ensures r.y == LeaderPosition(cars).y * 0.5
  {
    Lerp(Origin, LeaderPosition(cars), 0.5)
  }

  /**
    The orbit centre is the midpoint of the origin and the leader (the first
    car at the greatest race distance), and the origin itself when there is
    no car.
   */
  lemma OrbitCentreIsMidpoint(cars: seq<CarState>)
    ensures |cars| > 0 ==>
      FindLeader(cars).Some? && LeaderPosition(cars) == cars[FindLeader(cars).value].position
    ensures Add(OrbitCentre(cars), OrbitCentre(cars)) == Add(Origin, LeaderPosition(cars))
    ensures |cars| == 0 ==> OrbitCentre(cars) == Origin
  {
    var l := LeaderPosition(cars);
    var c := OrbitCentre(cars);
    assert c == Vec3(l.x * 0.5, l.y * 0.5, l.z * 0.5);
  }

  /** The broadcast camera's goal: on a circle of radius 100 around the centre, at height 80. */
  function OrbitPose(cars: seq<CarState>, elapsed: real, trig: Trig): (r: Vec3)
    ensures r.y == OrbitHeight
    ensures trig.sin(elapsed * OrbitRate) == 0.0 && trig.cos(elapsed * OrbitRate) == 1.0 ==>
      r == Vec3(OrbitCentre(cars).x, OrbitHeight, OrbitCentre(cars).z + OrbitRadius)
  {
    var t := elapsed * OrbitRate;
    var centre := OrbitCentre(cars);
    Vec3(trig.sin(t) * OrbitRadius + centre.x, OrbitHeight, trig.cos(t) * OrbitRadius + centre.z)
  }

  /** The chase camera's goal: 12 units behind the car along its heading and 6 above it. */
  function FollowPose(car: CarState, trig: Trig): (r: Vec3)
    ensures r.y == car.position.y + FollowHeight
    ensures trig.sin(car.rotation) == 0.0 && trig.cos(car.rotation) == 1.0 ==>
      r == Add(car.position, Vec3(0.0, FollowHeight, -FollowDistance))
  {
    Vec3(car.position.x - trig.sin(car.rotation) * FollowDistance,
         car.position.y + FollowHeight,
         car.position.z - trig.cos(car.rotation) * FollowDistance)
  }

  /**
    An offset of `radius` along the unit direction `(s, c)` has squared length
    `radius^2` and projects onto that direction with length `radius`.
   */
  lemma OnCircle(s: real, c: real, radius: real, dx: real, dz: real)
    requires s * s + c * c == 1.0
    requires dx == s * radius && dz == c * radius
    ensures dx * dx + dz * dz == radius * radius
    ensures dx * s + dz * c == radius
  {
    assert dx * dx == (s * s) * (radius * radius);
    assert dz * dz == (c * c) * (radius * radius);
    assert (s * s) * (radius * radius) + (c * c) * (radius * radius) == (s * s + c * c) * (radius * radius);
    assert (s * radius) * s + (c * radius) * c == radius * (s * s + c * c);
  }

  /**
    The chase pose sits 6 above the car, at horizontal distance 12 from it,
    and behind it: the car lies 12 ahead of the camera along the heading
    direction `(sin rot, cos rot)`.
   */
  lemma FollowPoseGeometry(car: CarState, trig: Trig)
    requires Pythagorean(trig)
    ensures var p := FollowPose(car, trig);
      && p.y == car.position.y + 6.0
      && (car.position.x - p.x) * (car.position.x - p.x) + (car.position.z - p.z) * (car.position.z - p.z) == 144.0
      && (car.position.x - p.x) * trig.sin(car.rotation) + (car.position.z - p.z) * trig.cos(car.rotation) == 12.0
  {
    var s := trig.sin(car.rotation);
    var c := trig.cos(car.rotation);
    var p := FollowPose(car, trig);
    OnCircle(s, c, FollowDistance, car.position.x - p.x, car.position.z - p.z);
  }

  /**
    The orbit pose sits at height 80, at horizontal distance 100 from the orbit
    centre, in the direction `(sin t, cos t)` of the orbit angle
    `t = elapsed * 0.1`.
   */
  lemma OrbitPoseGeometry(cars: seq<CarState>, elapsed: real, trig: Trig)
    requires Pythagorean(trig)
    ensures var p := OrbitPose(cars, elapsed, trig);
      var c := OrbitCentre(cars);
      && p.y == 80.0
      && (p.x - c.x) * (p.x - c.x) + (p.z - c.z) * (p.z - c.z) == 10000.0
      && (p.x - c.x) * trig.sin(elapsed * OrbitRate) + (p.z - c.z) * trig.cos(elapsed * OrbitRate) == 100.0
  {
    var t := elapsed * OrbitRate;
    var p := OrbitPose(cars, elapsed, trig);
    var c := OrbitCentre(cars);
    OnCircle(trig.sin(t), trig.cos(t), OrbitRadius, p.x - c.x, p.z - c.z);
  }

  /** Where one frame moves the camera: position goal, look-at point and smoothing factor. */
  datatype Goal = Goal(position: Vec3, lookAt: Vec3, smoothing: real)

  /**
    The mode dispatch of the frame callback. FOLLOW with an unset focus or a
    focus that names no car, and any mode other than FOLLOW and TV_BROADCAST,
    give no goal: the camera is left alone.
   */
  function CameraGoal(cars: seq<CarState>, mode: CameraMode, focusedId: Option<string>,
                      elapsed: real, trig: Trig): (r: Option<Goal>)
    ensures r.Some? <==>
      || mode == TvBroadcast
      || (mode == Follow && IsSet(focusedId) && FindCar(cars, focusedId.value).Some?)
    ensures mode == TvBroadcast ==>
      r == Some(Goal(OrbitPose(cars, elapsed, trig), OrbitCentre(cars), OrbitSmoothing))
    ensures mode == Follow && r.Some? ==>
      var car := cars[FindCar(cars, focusedId.value).value];
      r == Some(Goal(FollowPose(car, trig), car.position, FollowSmoothing))
  {
    if mode == Follow && IsSet(focusedId) then
      match FindCar(cars, focusedId.value)
      case Some(i) => Some(Goal(FollowPose(cars[i], trig), cars[i].position, FollowSmoothing))
      case None => None
    else if mode == TvBroadcast then
      Some(Goal(OrbitPose(cars, elapsed, trig), OrbitCentre(cars), OrbitSmoothing))
    else
      None
  }

  /**
    Holding the goal fixed, `n` frames leave `(1 - smoothing)^n` of the gap
    (0.9^n when following, 0.95^n for the broadcast), which is below `eps`
    once `n * smoothing * eps > 1`.
   */
  lemma SmoothingConverges(p: Vec3, goal: Goal, eps: real, n: nat)
    requires goal.smoothing == FollowSmoothing || goal.smoothing == OrbitSmoothing
    requires eps > 0.0 && n as real * goal.smoothing * eps > 1.0
    ensures Sub(goal.position, LerpIter(p, goal.position, goal.smoothing, n))
            == Scale(Sub(goal.position, p), Pow(1.0 - goal.smoothing, n))
    ensures 0.0 <= Pow(1.0 - goal.smoothing, n) < eps
  {
    LerpIterGap(p, goal.position, goal.smoothing, n);
    GapVanishes(goal.smoothing, eps, n);
  }

  /**
    The default camera of the 3D view and the orbit controls' target
    (absent while the controls are not mounted).
   */
  class CameraRig {
    var position: Vec3
    var lookTarget: Vec3
    var controlsTarget: Option<Vec3>

    constructor (position: Vec3, lookTarget: Vec3, controlsTarget: Option<Vec3>)
      ensures this.position == position
      ensures this.lookTarget == lookTarget
      ensures this.controlsTarget == controlsTarget
    {
      this.position := position;
      this.lookTarget := lookTarget;
      this.controlsTarget := controlsTarget;
    }

    /** The `useFrame` callback: one smoothing step towards the current goal. */
    method Frame(cars: seq<CarState>, mode: CameraMode, focusedId: Option<string>, elapsed: real, trig: Trig)
      modifies this
      ensures var goal := CameraGoal(cars, mode, focusedId, elapsed, trig);
        goal.None? ==>
          && position == old(position)
          && lookTarget == old(lookTarget)
          && controlsTarget == old(controlsTarget)
      ensures var goal := CameraGoal(cars, mode, focusedId, elapsed, trig);
        goal.Some? ==>
          && position == Lerp(old(position), goal.value.position, goal.value.smoothing)
          && lookTarget == goal.value.lookAt
          && controlsTarget == (if old(controlsTarget).None? then None
                                else Some(Lerp(old(controlsTarget).value, goal.value.lookAt, goal.value.smoothing)))
    {
      if mode == Follow && IsSet(focusedId) {
        var found := FindCar(cars, focusedId.value);
        if found.Some? {
          var targetCar := cars[found.value];
          var camPos := FollowPose(targetCar, trig);
          assert CameraGoal(cars, mode, focusedId, elapsed, trig) == Some(Goal(camPos, targetCar.position, FollowSmoothing));
          position := Lerp(position, camPos, FollowSmoothing);
          lookTarget := targetCar.position;
          if controlsTarget.Some? {
            controlsTarget := Some(Lerp(controlsTarget.value, targetCar.position, FollowSmoothing));
          }
        }
      } else if mode == TvBroadcast {
        var targetPos := OrbitCentre(cars);
        assert CameraGoal(cars, mode, focusedId, elapsed, trig) == Some(Goal(OrbitPose(cars, elapsed, trig), targetPos, OrbitSmoothing));
        position := Lerp(position, OrbitPose(cars, elapsed, trig), OrbitSmoothing);
        lookTarget := targetPos;
        if controlsTarget.Some? {
          controlsTarget := Some(Lerp(controlsTarget.value, targetPos, OrbitSmoothing));
        }
      }
    }
  }
}
