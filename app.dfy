/**
  The replay application's control state and leaderboard (App.tsx).

  `Leaderboard` is the pure copy-sort-rank of the HUD. `RaceApp` holds the
  component's state (cars, race clock, play/pause, playback speed, camera
  mode, focused driver) and the animation tick and click handlers that
  change it.
 */
module App {
  import opened Geometry
  import opened Types
  import opened TrackData
  import opened Scene3D

  /** Ordered from the car furthest into the race to the one furthest behind. */
  ghost predicate NonIncreasing(s: seq<CarState>) {
    forall i, j :: 0 <= i < j < |s| ==> RaceDistance(s[i]) >= RaceDistance(s[j])
  }

  /** The cars of `s` at race distance `d`, in their order in `s`. */
  function AtDistance(s: seq<CarState>, d: real): seq<CarState> {
    if s == [] then []
    else (if RaceDistance(s[0]) == d then [s[0]] else []) + AtDistance(s[1..], d)
  }

  /** Places `x` in front of the first car of `s` that is not further than it. */
  function InsertByDistance(x: CarState, s: seq<CarState>): (r: seq<CarState>)
    ensures |r| == |s| + 1
    ensures multiset(r) == multiset(s) + multiset{x}
    ensures r[0] == x || (|s| > 0 && r[0] == s[0])
  {
    if s == [] || RaceDistance(x) >= RaceDistance(s[0]) then [x] + s
    else
      var rest := InsertByDistance(x, s[1..]);
      assert s == [s[0]] + s[1..];
      [s[0]] + rest
  }

  /** Inserting a car no further than `b` among cars no further than `b` keeps every car within `b`. */
  lemma {:induction false} InsertBounded(x: CarState, s: seq<CarState>, b: real)
    requires RaceDistance(x) <= b
    requires forall j :: 0 <= j < |s| ==> RaceDistance(s[j]) <= b
    ensures forall j :: 0 <= j < |s| + 1 ==> RaceDistance(InsertByDistance(x, s)[j]) <= b
  {
    if s != [] && RaceDistance(x) < RaceDistance(s[0]) {
      InsertBounded(x, s[1..], b);
    }
  }

  /** Inserting into an ordered field keeps it ordered. */
  lemma {:induction false} InsertSorted(x: CarState, s: seq<CarState>)
    requires NonIncreasing(s)
    ensures NonIncreasing(InsertByDistance(x, s))
  {
    if s != [] && RaceDistance(x) < RaceDistance(s[0]) {
      InsertSorted(x, s[1..]);
      InsertBounded(x, s[1..], RaceDistance(s[0]));
    }
  }

  /**
    The `sort` of the leaderboard, with comparator
    `(b.lap + b.lapProgress) - (a.lap + a.lapProgress)`: a permutation of
    the cars ordered by decreasing race distance. Like JavaScript's sort it is
    stable (see `SortKeepsTies`).
   */
  function SortByDistance(s: seq<CarState>): (r: seq<CarState>)
    ensures |r| == |s|
    ensures multiset(r) == multiset(s)
    ensures NonIncreasing(r)
  {
    if s == [] then []
    else
      assert s == [s[0]] + s[1..];
      InsertSorted(s[0], SortByDistance(s[1..]));
      InsertByDistance(s[0], SortByDistance(s[1..]))
  }

  /** Inserting `x` puts it among the cars at its distance ahead of all of them. */
  lemma {:induction false} InsertKeepsTies(x: CarState, s: seq<CarState>, d: real)
    ensures AtDistance(InsertByDistance(x, s), d) == (if RaceDistance(x) == d then [x] else []) + AtDistance(s, d)
  {
    if s == [] || RaceDistance(x) >= RaceDistance(s[0]) {
      assert ([x] + s)[1..] == s;
    } else {
      InsertKeepsTies(x, s[1..], d);
      var rest := InsertByDistance(x, s[1..]);
      assert ([s[0]] + rest)[1..] == rest;
    }
  }

  /** Stability: cars at equal race distance keep their relative order. */
  lemma {:induction false} SortKeepsTies(s: seq<CarState>, d: real)
    ensures AtDistance(SortByDistance(s), d) == AtDistance(s, d)
  {
    if s != [] {
      SortKeepsTies(s[1..], d);
      InsertKeepsTies(s[0], SortByDistance(s[1..]), d);
    }
  }

  /** The first car of `s` at distance `d` heads the cars of `s` at that distance. */
  lemma {:induction false} AtDistanceHead(s: seq<CarState>, d: real, k: nat)
    requires k < |s| && RaceDistance(s[k]) == d
    requires forall j :: 0 <= j < k ==> RaceDistance(s[j]) != d
    ensures AtDistance(s, d) != [] && AtDistance(s, d)[0] == s[k]
  {
    if k > 0 {
      AtDistanceHead(s[1..], d, k - 1);
    }
  }

  /**
    `DRIVERS.find(d => d.id === id)`, with the roster passed in. Written as
    plain recursion rather than through `Arrays.Find`: every leaderboard row
    performs this lookup, and a lambda-based search there makes the
    leaderboard proofs far more expensive for the solver.
   */
  function FindDriver(roster: seq<Driver>, id: string): (r: Option<Driver>)
    ensures r.Some? ==> r.value in roster && r.value.id == id
    ensures r.None? ==> forall d :: d in roster ==> d.id != id
  {
    if roster == [] then None
    else if roster[0].id == id then Some(roster[0])
    else FindDriver(roster[1..], id)
  }

  /** Like `Array.prototype.find`, the driver found is the first on the roster with the id. */
  lemma {:induction false} FindDriverFirst(roster: seq<Driver>, id: string)
    ensures FindDriver(roster, id).Some? ==>
      exists k :: 0 <= k < |roster| && roster[k] == FindDriver(roster, id).value
        && forall j :: 0 <= j < k ==> roster[j].id != id
  {
    if roster != [] && roster[0].id != id && FindDriver(roster, id).Some? {
      FindDriverFirst(roster[1..], id);
      var k :| 0 <= k < |roster[1..]| && roster[1..][k] == FindDriver(roster[1..], id).value
        && forall j :: 0 <= j < k ==> roster[1..][j].id != id;
      assert roster[k + 1] == FindDriver(roster, id).value;
      assert forall j :: 1 <= j < k + 1 ==> roster[j] == roster[1..][j - 1];
    }
  }

  /**
    A leaderboard row: `{...car, driver, position: idx + 1}`. The spread
    copies the car, and `position` then replaces the car's 3D position with
    its rank.
   */
  datatype Standing = Standing(
    driverId: string,
    rotation: real,
    lap: int,
    lapProgress: real,
    speed: real,
    driver: Option<Driver>,
    position: int)

  function StandingOf(car: CarState, roster: seq<Driver>, rank: int): Standing {
    Standing(car.driverId, car.rotation, car.lap, car.lapProgress, car.speed, FindDriver(roster, car.driverId), rank)
  }

  /** A row's lap plus fraction, the key it was ranked by. */
  function RowDistance(row: Standing): real {
    row.lap as real + row.lapProgress
  }

  /** The rows for `ranked`, numbered from `rank` on. */
  function RankFrom(ranked: seq<CarState>, roster: seq<Driver>, rank: int): (rows: seq<Standing>)
    ensures |rows| == |ranked|
    ensures forall i :: 0 <= i < |rows| ==> rows[i] == StandingOf(ranked[i], roster, rank + i)
  {
    if ranked == [] then []
    else [StandingOf(ranked[0], roster, rank)] + RankFrom(ranked[1..], roster, rank + 1)
  }

  /** Rows that carry the keys of an ordered field, one for one, are ordered. */
  lemma RowsOrdered(ranked: seq<CarState>, board: seq<Standing>)
    requires NonIncreasing(ranked) && |board| == |ranked|
    requires forall i :: 0 <= i < |board| ==> board[i].lap == ranked[i].lap && board[i].lapProgress == ranked[i].lapProgress
    ensures forall i, j :: 0 <= i < j < |board| ==> RowDistance(board[i]) >= RowDistance(board[j])
  {
    forall i, j | 0 <= i < j < |board|
      ensures RowDistance(board[i]) >= RowDistance(board[j])
    {
      assert RowDistance(board[i]) == RaceDistance(ranked[i]);
      assert RowDistance(board[j]) == RaceDistance(ranked[j]);
    }
  }

  /**
    `getLeaderboard`: the cars sorted by decreasing race distance, each joined
    with its roster entry and ranked 1, 2, ... (`roster` is `DRIVERS`).
   */
  function Leaderboard(cars: seq<CarState>, roster: seq<Driver>): (board: seq<Standing>)
    ensures |board| == |cars|
    ensures forall i :: 0 <= i < |board| ==> board[i].position == i + 1
    ensures forall i, j :: 0 <= i < j < |board| ==> RowDistance(board[i]) >= RowDistance(board[j])
    ensures forall i :: 0 <= i < |board| ==> board[i] == StandingOf(SortByDistance(cars)[i], roster, i + 1)
  {
    var ranked := SortByDistance(cars);
    var board := RankFrom(ranked, roster, 1);
    RowsOrdered(ranked, board);
    board
  }

  /** Every car of the field has a row on the leaderboard, at the rank of its place in the order. */
  lemma LeaderboardCoversField(cars: seq<CarState>, roster: seq<Driver>, k: nat)
    requires k < |cars|
    ensures exists i :: 0 <= i < |cars| && Leaderboard(cars, roster)[i] == StandingOf(cars[k], roster, i + 1)
  {
    var ranked := SortByDistance(cars);
    assert cars[k] in multiset(cars);
    assert cars[k] in multiset(ranked);
    var i :| 0 <= i < |ranked| && ranked[i] == cars[k];
    assert Leaderboard(cars, roster)[i] == StandingOf(cars[k], roster, i + 1);
  }

  /** The head of the sorted field is at the greatest race distance. */
  lemma {:induction false} SortedHeadAtMax(cars: seq<CarState>)
    requires |cars| > 0
    ensures RaceDistance(SortByDistance(cars)[0]) == MaxDistance(cars)
  {
    if |cars| > 1 {
      SortedHeadAtMax(cars[1..]);
    }
  }

  /**
    The leaderboard's first row is the car the broadcast camera centres on:
    the first car in array order at the greatest race distance.
   */
  lemma LeaderboardHeadIsLeader(cars: seq<CarState>, roster: seq<Driver>)
    requires |cars| > 0
    ensures FindLeader(cars).Some?
    ensures SortByDistance(cars)[0] == cars[FindLeader(cars).value]
    ensures Leaderboard(cars, roster)[0] == StandingOf(cars[FindLeader(cars).value], roster, 1)
  {
    var ranked := SortByDistance(cars);
    var k := FindLeader(cars).value;
    var m := MaxDistance(cars);
    SortedHeadAtMax(cars);
    AtDistanceHead(cars, m, k);
    AtDistanceHead(ranked, m, 0);
    SortKeepsTies(cars, m);
  }

  /**
    `find` over leaderboard rows by driver id, from row `from` on. Like
    `FindDriver`, plain recursion rather than `Arrays.Find`, so that the
    rank lemmas reason about an index directly.
   */
  function FindRow(board: seq<Standing>, id: string, from: nat): (r: Option<nat>)
    requires from <= |board|
    ensures r.Some? ==> from <= r.value < |board| && board[r.value].driverId == id
    ensures r.Some? ==> forall j :: from <= j < r.value ==> board[j].driverId != id
    ensures r.None? ==> forall j :: from <= j < |board| ==> board[j].driverId != id
    decreases |board| - from
  {
    if from == |board| then None
    else if board[from].driverId == id then Some(from)
    else FindRow(board, id, from + 1)
  }

  /**
    The rank shown on the driver card:
    `leaderboard.find(l => l.driverId === focusedDriverId)?.position`. A rank is
    never 0, so the `|| '-'` fallback applies exactly when no row matches
    (`None` here), in particular when nobody is focused.
   */
  function FocusedRank(board: seq<Standing>, focusedId: Option<string>): (r: Option<int>)
    ensures focusedId.None? ==> r.None?
    ensures r.Some? ==> exists i ::
      && 0 <= i < |board| && board[i].driverId == focusedId.value && board[i].position == r.value
      && forall j :: 0 <= j < i ==> board[j].driverId != focusedId.value
    ensures focusedId.Some? && r.None? ==> forall i :: 0 <= i < |board| ==> board[i].driverId != focusedId.value
  {
    if focusedId.None? then None
    else
      match FindRow(board, focusedId.value, 0)
      case Some(i) => Some(board[i].position)
      case None => None
  }

  /**
    On the leaderboard, the focused driver's rank is the 1-based place of
    their car in the race order.
   */
  lemma FocusedRankPlace(cars: seq<CarState>, roster: seq<Driver>, id: string)
    ensures var r := FocusedRank(Leaderboard(cars, roster), Some(id));
      r.Some? ==> 1 <= r.value <= |cars| && SortByDistance(cars)[r.value - 1].driverId == id
  {
    var board := Leaderboard(cars, roster);
    var found := FindRow(board, id, 0);
    if found.Some? {
      var i := found.value;
      assert FocusedRank(board, Some(id)) == Some(board[i].position);
      assert board[i] == StandingOf(SortByDistance(cars)[i], roster, i + 1);
    } else {
      assert FocusedRank(board, Some(id)).None?;
    }
  }

  /** The focused driver has no rank exactly when no car on track carries their id. */
  lemma FocusedRankAbsent(cars: seq<CarState>, roster: seq<Driver>, id: string)
    ensures FocusedRank(Leaderboard(cars, roster), Some(id)).None? <==> forall k :: 0 <= k < |cars| ==> cars[k].driverId != id
  {
    var board := Leaderboard(cars, roster);
    var ranked := SortByDistance(cars);
    var r := FocusedRank(board, Some(id));
    if r.Some? {
      var i :| 0 <= i < |board| && board[i].driverId == id && board[i].position == r.value;
      assert ranked[i].driverId == id;
      assert ranked[i] in multiset(cars);
      var k :| 0 <= k < |cars| && cars[k] == ranked[i];
    } else {
      forall k | 0 <= k < |cars|
        ensures cars[k].driverId != id
      {
        assert cars[k] in multiset(ranked);
        var i :| 0 <= i < |ranked| && ranked[i] == cars[k];
        assert board[i].driverId == cars[k].driverId;
      }
    }
  }

  /** One car per roster driver, in roster order, none below lap 1. */
  ghost predicate OnRoster(cars: seq<CarState>, roster: seq<Driver>) {
    && |cars| == |roster|
    && forall i :: 0 <= i < |cars| ==> cars[i].driverId == roster[i].id && cars[i].lap >= 1
  }

  /** A tick keeps every car on the roster: it never renames a car and never takes a lap away. */
  lemma UpdateKeepsRoster(cars: seq<CarState>, roster: seq<Driver>, deltaTime: real, playbackSpeed: real,
                          nowMs: real, curve: Curve, trig: Trig)
    requires ValidCurve(curve) && OnRoster(cars, roster)
    ensures OnRoster(UpdateCars(cars, deltaTime, playbackSpeed, nowMs, curve, trig), roster)
  {
  }

  /** The seconds between two frame timestamps given in milliseconds. */
  function FrameSeconds(last: real, now: real): (r: real)
    ensures r * 1000.0 == now - last
    ensures now >= last ==> r >= 0.0
  {
    (now - last) / 1000.0
  }

  predicate IsPlaybackSpeed(speed: real) {
    speed == 1.0 || speed == 2.0 || speed == 4.0
  }

  /** The state of the replay component. */
  class RaceApp {
    const curve: Curve
    const trig: Trig
    var cars: seq<CarState>
    var time: real
    var isPlaying: bool
    var playbackSpeed: real
    var cameraMode: CameraMode
    var focusedDriverId: Option<string>
    /** The timestamp the animation loop saw last, in milliseconds. */
    var lastTime: real
    /** The chosen race, as an index into the race archive. */
    var selectedRace: nat
    var showRaceSelector: bool

    /**
      One car per roster driver, in roster order, none below lap 1, and a
      playback speed from the three offered.
     */
    ghost predicate Valid()
      reads this
    {
      && ValidCurve(curve)
      && OnRoster(cars, Drivers)
      && IsPlaybackSpeed(playbackSpeed)
    }

    /** The initial state; `startTime` is the loop's first `performance.now()`. */
    constructor (curve: Curve, trig: Trig, startTime: real)
      requires ValidCurve(curve)
      ensures Valid()
      ensures this.curve == curve && this.trig == trig
      ensures cars == InitialCarStates(curve) && time == 0.0 && !isPlaying && playbackSpeed == 1.0
      ensures cameraMode == TvBroadcast && focusedDriverId == None && lastTime == startTime
      ensures selectedRace == 0 && !showRaceSelector
    {
      this.curve := curve;
      this.trig := trig;
      cars := InitialCarStates(curve);
      time := 0.0;
      isPlaying := false;
      playbackSpeed := 1.0;
      cameraMode := TvBroadcast;
      focusedDriverId := None;
      lastTime := startTime;
      selectedRace := 0;
      showRaceSelector := false;
    }

    /**
      One animation frame at timestamp `now` (wall clock `nowMs` for the speed
      noise). While playing, the cars advance and the race clock runs by the
      same scaled time; while paused neither changes.
     */
    method Tick(now: real, nowMs: real)
      requires Valid()
      modifies this`cars, this`time, this`lastTime
      ensures Valid()
      ensures old(isPlaying) ==>
        && cars == UpdateCars(old(cars), FrameSeconds(old(lastTime), now), playbackSpeed, nowMs, curve, trig)
        && time == old(time) + FrameSeconds(old(lastTime), now) * playbackSpeed
      ensures !old(isPlaying) ==> cars == old(cars) && time == old(time)
      ensures lastTime == now
    {
      if isPlaying {
        var deltaTime := FrameSeconds(lastTime, now);
        UpdateKeepsRoster(cars, Drivers, deltaTime, playbackSpeed, nowMs, curve, trig);
        cars := UpdateCars(cars, deltaTime, playbackSpeed, nowMs, curve, trig);
        time := time + deltaTime * playbackSpeed;
      }
      lastTime := now;
    }

    /** The effect re-subscribing the loop after `isPlaying` or `playbackSpeed` changed. */
    method RestartLoop(now: real)
      requires Valid()
      modifies this`lastTime
      ensures Valid() && lastTime == now
    {
      lastTime := now;
    }

    /** The current leaderboard; no `modifies` clause, so the cars are left as they are. */
    method GetLeaderboard() returns (board: seq<Standing>)
      requires Valid()
      ensures |board| == |Drivers|
      ensures board == Leaderboard(cars, Drivers)
    {
      board := Leaderboard(cars, Drivers);
    }

    /**
      The play/pause button at time `now`. `isPlaying` is a dependency of the
      animation effect, so the loop restarts and its clock is reset.
     */
    method TogglePlay(now: real)
      requires Valid()
      modifies this`isPlaying, this`lastTime
      ensures Valid() && isPlaying == !old(isPlaying) && lastTime == now
    {
      isPlaying := !isPlaying;
      RestartLoop(now);
    }

    /**
      One of the 1x, 2x and 4x buttons at time `now`. The effect depends on
      `playbackSpeed`, so it restarts the loop only when the speed changes.
     */
    method SetPlaybackSpeed(speed: real, now: real)
      requires Valid() && IsPlaybackSpeed(speed)
      modifies this`playbackSpeed, this`lastTime
      ensures Valid() && playbackSpeed == speed
      ensures lastTime == if speed != old(playbackSpeed) then now else old(lastTime)
    {
      if speed != playbackSpeed {
        playbackSpeed := speed;
        RestartLoop(now);
      }
    }

    /** The TV button. */
    method ShowBroadcast()
      requires Valid()
      modifies this`cameraMode
      ensures Valid() && cameraMode == TvBroadcast
    {
      cameraMode := TvBroadcast;
    }

    /** The onboard button: follow mode, on the roster's first driver unless someone is focused. */
    method FollowFocused()
      requires Valid()
      modifies this`cameraMode, this`focusedDriverId
      ensures Valid() && cameraMode == Follow
      ensures IsSet(old(focusedDriverId)) ==> focusedDriverId == old(focusedDriverId)
      ensures !IsSet(old(focusedDriverId)) ==> focusedDriverId == Some(Drivers[0].id)
      ensures IsSet(focusedDriverId)
    {
      cameraMode := Follow;
      if !IsSet(focusedDriverId) {
        focusedDriverId := Some(Drivers[0].id);
      }
    }

    /** A click on a leaderboard row: focus that driver; the broadcast view becomes the chase view. */
    method SelectStanding(driverId: string)
      requires Valid()
      modifies this`cameraMode, this`focusedDriverId
      ensures Valid() && focusedDriverId == Some(driverId)
      ensures old(cameraMode) == TvBroadcast ==> cameraMode == Follow
      ensures old(cameraMode) != TvBroadcast ==> cameraMode == old(cameraMode)
    {
      focusedDriverId := Some(driverId);
      if cameraMode == TvBroadcast {
        cameraMode := Follow;
      }
    }

    /** The close-telemetry button. */
    method CloseTelemetry()
      requires Valid()
      modifies this`focusedDriverId
      ensures Valid() && focusedDriverId == None
    {
      focusedDriverId := None;
    }

    /** The race-name button in the header opens the archive. */
    method OpenRaceSelector()
      requires Valid()
      modifies this`showRaceSelector
      ensures Valid() && showRaceSelector
    {
      showRaceSelector := true;
    }

    /** The close button of the archive. */
    method CloseRaceSelector()
      requires Valid()
      modifies this`showRaceSelector
      ensures Valid() && !showRaceSelector
    {
      showRaceSelector := false;
    }

    /** Picking a race from the archive: archive closed, clock to zero, cars back on the grid, playback paused. */
    method SelectRace(race: nat)
      requires Valid()
      modifies this`selectedRace, this`showRaceSelector, this`time, this`cars, this`isPlaying
      ensures Valid()
      ensures selectedRace == race && !showRaceSelector
      ensures time == 0.0 && cars == InitialCarStates(curve) && !isPlaying
    {
      selectedRace := race;
      showRaceSelector := false;
      time := 0.0;
      cars := InitialCarStates(curve);
      isPlaying := false;
    }
  }
}
