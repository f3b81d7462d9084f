# F1 race replay — core model

A Dafny model of the core of a browser Formula 1 race replay. The model covers four parts:

- **Simulation engine.** It lays out eight cars on a staggered grid and advances them every animation frame. Each car gets a speed formula with an 80 km/h floor, a fraction-of-lap progress step and a single lap wrap.
- **Replay application.** It ranks the cars into a leaderboard and holds the playback, camera-mode and focus state. The animation tick and the click handlers change that state.
- **Camera controller.** Once per frame it eases the 3D camera towards a chase pose behind the focused car, or towards a slow orbit around the point halfway between the track origin and the race leader.
- **Track edge lines.** Two ribbons of triangles are built by pushing vertex coordinates and indices into growing buffers.

Modules and their form:

- `Geometry`: 3-vectors over `real` and three.js `lerp`. Trigonometry, square root and the track curve are abstract function-valued fields of `Trig` and `Curve`. It also holds the convergence argument for repeated smoothing.
- `Types`: `Driver`, `CarState` and `CameraMode` of types.ts, plus `Option`.
- `Arrays`: JavaScript's `Array.prototype.find`.
- `TrackData` (services/trackData.ts): pure functions, as in the source, whose `map`s build fresh records.
- `Scene3D` (components/Scene3D.tsx): pure goal selection, `CameraGoal`, plus a class `CameraRig` whose `Frame` method updates the camera position and the controls' target in place.
- `App` (App.tsx): the pure `Leaderboard`, plus a class `RaceApp` holding the component state, with one method per transition.
- `TrackMesh` (components/Track.tsx): `BuildStrip` as a method with a `for` loop, proved against the recursive specification functions `StripVertices` and `StripIndices`.

Behaviour of the code worth knowing before reading the model:

- **Zero tick.** A tick of zero elapsed time is not idempotent. Car 0 starts at `lapProgress = 1.0`, so a zero tick wraps it to lap 2 at fraction 0 (`TrackData.ZeroTickOnGrid`).
- **Camera modes.** types.ts declares TV_BROADCAST, FOLLOW and OVERHEAD, not MAP_2D; the model uses the declared three.
- **Heading.** There is no heading fallback for a zero-length look-ahead direction. three.js `normalize` leaves a zero vector as it is, so the yaw becomes `atan2(0, 0)` (`TrackData.DegenerateHeading`).
- **Race selection.** Selecting a race puts the cars back on the starting grid.

## Model

| member | source | states |
|---|---|---|
| TrackData.InitialCarStates | services/trackData.ts:39-53 | one state per roster driver in roster order, with lap 1, speed 0, rotation 0, lapProgress `1 - 0.005*index`, and position looked up at `lapProgress % 1` |
| TrackData.GridWindow | services/trackData.ts:42-43 | grid fractions lie in (0.96, 1]; exactly car 0 starts at 1.0, outside [0, 1), and its position is looked up at fraction 0 |
| TrackData.Rem1 | services/trackData.ts:43 | JavaScript `x % 1`: in [0, 1) for non-negative x, in (-1, 0] for non-positive x, and the identity on [0, 1) |
| TrackData.RawSpeedKmh | services/trackData.ts:71-76 | with sines in [-1, 1], the raw speed less the skill bonus (2 km/h per roster slot from the back) lies within 300 ± 55 km/h |
| TrackData.SpeedKmh | services/trackData.ts:71-78 | the reported speed is never below 80 km/h, never below the raw formula, and is one of the two |
| TrackData.SpeedWithinRoster | services/trackData.ts:71-78 | with sines in [-1, 1] and a roster slot 0..7, the floor never applies and the speed lies in [247, 371] km/h |
| TrackData.ProgressDelta | services/trackData.ts:79-83 | the lap fraction covered, times the track length, is the distance driven at `speed / 3.6` m/s for `dt` seconds |
| TrackData.ProgressDeltaSign | services/trackData.ts:79-83 | the lap fraction covered in a step is non-negative for non-negative time and speed, and zero for zero time |
| TrackData.WrapLap | services/trackData.ts:85-91 | the lap counter rises by exactly 1, and only when the fraction reached 1 or more; lap plus fraction is preserved |
| TrackData.WrapLapRange | services/trackData.ts:88-91 | the wrapped fraction is in [0, 1) iff the unwrapped one is below 2; from 2 on it stays at 1 or more with only one lap counted |
| TrackData.HeadingIsBearing | services/trackData.ts:93-99 | for an `atan2` that depends only on direction and a non-negative square root, the yaw is the horizontal bearing `atan2(dx, dz)` of the displacement to the curve point 0.01 further round: normalising does not change it, whatever its length |
| TrackData.DegenerateHeading | services/trackData.ts:93-99 | where the look-ahead point coincides with the car's point (and the square root of 0 is 0), the yaw is `atan2(0, 0)` |
| TrackData.UpdateCar | services/trackData.ts:64-108 | one car's step keeps its driver id, recomputes its speed, adds exactly the progress delta to its race distance, wraps at most one lap, places it at the curve point of its new fraction and turns it to the heading at that fraction |
| TrackData.UpdateCars | services/trackData.ts:57-110 | same length and order, each car stepped by `deltaTime * playbackSpeed`, driver ids kept, lap never decreasing and growing by at most 1 |
| TrackData.StepRange | services/trackData.ts:85-91 | a car at a non-negative fraction (car 0's grid start at 1.0 included) ends inside [0, 1) iff fraction plus step is below 2; a larger step leaves it at 1 or beyond and under-counts laps |
| TrackData.ZeroTick | services/trackData.ts:62-107 | a zero-time tick keeps lap and fraction of cars inside [0, 1), still wraps a car at 1 or more, and always rewrites the speed |
| TrackData.ZeroTickOnGrid | services/trackData.ts:42-91 | on the starting grid a zero-time tick moves car 0 to lap 2 at fraction 0 and leaves every other car at lap 1 and its grid fraction |
| Arrays.Find | components/Scene3D.tsx:22 | `find` gives the first index whose element satisfies the predicate, and none only when no element does |
| Scene3D.FindCar | components/Scene3D.tsx:22 | the first car with the given driver id, or none when no car has it |
| Scene3D.MaxDistance | components/Scene3D.tsx:39 | `Math.max` of lap plus fraction: an upper bound of every car's race distance that some car attains |
| Scene3D.FindLeader | components/Scene3D.tsx:39 | the leader is the first car in array order at the maximum race distance; there is none exactly when there are no cars |
| Scene3D.OrbitCentre | components/Scene3D.tsx:45-48 | the origin when there are no cars; its height is half the leader's |
| Scene3D.OrbitCentreIsMidpoint | components/Scene3D.tsx:39-48 | the orbit centre is the midpoint of the origin and the leader's position, and the origin itself when there are no cars |
| Scene3D.FollowPose | components/Scene3D.tsx:27-31 | the chase pose is 6 above the car, and for a car heading along +z (sine 0, cosine 1) it is 12 behind it on z |
| Scene3D.OrbitPose | components/Scene3D.tsx:41-54 | the orbit pose is at height 80, and at angle 0 (sine 0, cosine 1) it is 100 along +z from the orbit centre |
| Scene3D.FollowPoseGeometry | components/Scene3D.tsx:24-31 | the chase pose is 6 above the car, at horizontal distance 12 from it, and behind it: the car is 12 ahead of the camera along its heading `(sin rot, cos rot)` |
| Scene3D.OrbitPoseGeometry | components/Scene3D.tsx:41-54 | the orbit pose is at height 80, at horizontal distance 100 from the orbit centre, in the direction `(sin t, cos t)` of the orbit angle `t = elapsed * 0.1` |
| Scene3D.CameraGoal | components/Scene3D.tsx:19-59 | a goal exists iff the mode is TV_BROADCAST, or FOLLOW with a non-empty focused id that names a car; TV gives the orbit pose, looking at the centre, with smoothing 0.05; FOLLOW gives the chase pose, looking at the car, with smoothing 0.1 |
| Scene3D.SmoothingConverges | components/Scene3D.tsx:33-54 | towards a fixed goal, n frames leave the gap scaled by 0.9^n or 0.95^n, which is below any eps once `n * smoothing * eps > 1` |
| Scene3D.CameraRig.constructor | components/Scene3D.tsx:17 | the rig starts with the given camera position, look-at point and controls target |
| Scene3D.CameraRig.Frame | components/Scene3D.tsx:19-60 | with no goal, nothing changes; otherwise the camera moves the smoothing fraction towards the goal, looks at the goal's point, and a mounted controls target moves the same fraction towards that point |
| Geometry.Lerp | components/Scene3D.tsx:33-57 | a step of 0 stays put, a step of 1 reaches the target, and a point already at the target stays there |
| Geometry.LerpGap | components/Scene3D.tsx:33 | one `lerp` step leaves the old gap to the target scaled by `1 - alpha` |
| Geometry.LerpIterGap | components/Scene3D.tsx:33 | n `lerp` steps towards a fixed target leave the gap scaled by `(1 - alpha)^n` |
| Geometry.GapVanishes | components/Scene3D.tsx:50-54 | `(1 - alpha)^n` is non-negative and below eps once `n * alpha * eps > 1` |
| Geometry.Normalize | services/trackData.ts:98 | a zero-length vector is left as it is; any other vector scaled back by its length gives the original |
| App.InsertByDistance | App.tsx:41-42 | insertion adds exactly the new car to the multiset, and the head is either the new car or the old head |
| App.InsertSorted | App.tsx:42 | insertion keeps an ordering by non-increasing race distance |
| App.SortByDistance | App.tsx:41-42 | the sorted copy is a permutation of the cars, ordered by non-increasing lap plus fraction |
| App.SortKeepsTies | App.tsx:41-42 | the sort is stable: cars at equal race distance keep their relative order |
| App.FindDriver | App.tsx:44 | the roster entry found has the car's driver id; none is found only when no roster entry has it |
| App.FindDriverFirst | App.tsx:44 | the roster entry found is the first one with the driver id |
| App.Leaderboard | App.tsx:40-47 | one row per car; positions 1..n in order; rows non-increasing in lap plus fraction; row i is the i-th car of the sorted copy joined with its roster entry |
| App.RowsOrdered | App.tsx:42-45 | rows carrying the lap and fraction of an ordered field, one for one, are ordered by lap plus fraction |
| App.LeaderboardCoversField | App.tsx:41-45 | every car has a row, ranked by its place in the sorted order |
| App.SortedHeadAtMax | App.tsx:42 | the first car of the sorted copy is at the greatest race distance |
| App.LeaderboardHeadIsLeader | App.tsx:40-47 | the leaderboard's first row is the car the TV camera centres on: the first car in array order at the greatest race distance |
| App.FindRow | App.tsx:52 | the index found is the first row from `from` on with the id; none only when no such row has it |
| App.FocusedRank | App.tsx:52 | the focused rank is the position of the first leaderboard row with the focused id; none when nobody is focused or no row matches |
| App.FocusedRankPlace | App.tsx:40-52 | on the leaderboard the focused rank is in 1..n and is the 1-based place of that driver's car in the race order |
| App.FocusedRankAbsent | App.tsx:40-52 | on the leaderboard the focused rank is absent iff no car carries the focused id |
| App.FrameSeconds | App.tsx:27 | the frame time in seconds, times 1000, is the gap between the millisecond timestamps; it is non-negative when time does not run backwards |
| App.RaceApp.constructor | App.tsx:9-18 | the initial state: grid cars, clock 0, paused, speed 1, TV mode, nobody focused, first race, archive closed |
| App.RaceApp.Tick | App.tsx:25-34 | while playing, the cars advance by `updateCars` and the clock by the same scaled time; while paused, neither changes; the loop's last timestamp becomes now |
| App.RaceApp.RestartLoop | App.tsx:21-38 | re-running the effect restarts the frame clock at the current time |
| App.RaceApp.GetLeaderboard | App.tsx:40-49 | the current leaderboard over the `DRIVERS` roster, with no change to the cars |
| App.RaceApp.TogglePlay | App.tsx:195 | play/pause flips `isPlaying`, and the animation effect, which depends on it, restarts its frame clock at the current time |
| App.RaceApp.SetPlaybackSpeed | App.tsx:202-205 | the playback speed becomes the chosen one of 1, 2 and 4; the frame clock restarts at the current time exactly when the speed changed |
| App.RaceApp.ShowBroadcast | App.tsx:225 | the TV button selects TV_BROADCAST |
| App.RaceApp.FollowFocused | App.tsx:233-236 | the onboard button selects FOLLOW and focuses the first roster driver only when no driver is focused |
| App.RaceApp.SelectStanding | App.tsx:104-107 | clicking a row focuses that driver and turns TV_BROADCAST into FOLLOW, leaving any other mode as it was |
| App.RaceApp.CloseTelemetry | App.tsx:186 | closing the driver card clears the focus |
| App.RaceApp.OpenRaceSelector | App.tsx:75 | the race name opens the race archive |
| App.RaceApp.CloseRaceSelector | App.tsx:252 | the archive's close button hides it |
| App.RaceApp.SelectRace | App.tsx:258-263 | choosing a race records it, closes the archive, resets the clock to 0 and the cars to the starting grid, and pauses |
| TrackMesh.OuterOffset | components/Track.tsx:47-49 | the outer edge keeps the inner offset's side (zero counts as negative) and lies 0.8 further out |
| TrackMesh.OuterOffsetMirror | components/Track.tsx:47-49 | negating a non-zero offset negates the outer offset; a zero offset gives -0.8 either way |
| TrackMesh.StripVertices | components/Track.tsx:39-55 | the vertex buffer after n points holds 6n coordinates |
| TrackMesh.StripIndices | components/Track.tsx:57-63 | the index buffer after k quads holds 6k indices |
| TrackMesh.StripVerticesAt | components/Track.tsx:39-55 | point i's inner and outer vertices, lifted by 0.15, occupy entries 6i to 6i+5 of the vertex buffer |
| TrackMesh.StripIndicesAt | components/Track.tsx:57-63 | quad q's triangles (2q, 2q+1, 2q+2) and (2q+1, 2q+3, 2q+2) occupy entries 6q to 6q+5 of the index buffer |
| TrackMesh.StripIndicesBounded | components/Track.tsx:57-62 | the first k quads only refer to vertices 0 to 2k+1 |
| TrackMesh.LastQuadReachesEnd | components/Track.tsx:57-62 | the last quad of an n-point strip uses vertex 2n-1, the last one |
| TrackMesh.RibbonAcrossNormal | components/Track.tsx:45-55 | both vertices sit 0.15 above the offset point, and inner and outer vertices are 0.8 apart along the normal |
| TrackMesh.MirrorPair | components/Track.tsx:45-55 | the strips at +offset and -offset mirror each other about the lifted curve point |
| TrackMesh.BuildStrip | components/Track.tsx:35-71 | 6n vertex coordinates and 6(n-1) indices (none for n = 0), laid out as the specification functions say, every index naming an existing vertex (below 2n) |
| TrackMesh.EdgeLines | components/Track.tsx:73-74 | the left and right lines are strips at +7 and -7 sharing one index buffer, their vertices mirrored about the centre line |

## Left out

- Floating-point rounding: every number is a `real`. `Math.sin`, `Math.cos`, `Math.atan2` and `Math.sqrt` are abstract functions, constrained only where a lemma states so (`SinBounded`, `Pythagorean`, `Atan2Homogeneous`, `SqrtNonNegative`).
- three.js internals are abstract inputs: `CatmullRomCurve3`, `getPointAt`, `getLength` (a positive length), `getPoints`, `computeFrenetFrames`, `ExtrudeGeometry` and `computeVertexNormals`. `BuildStrip` takes the sampled points and normals as sequences.
- `Date.now()`, `performance.now()` and the three.js elapsed clock are parameters (`nowMs`, `now`, `elapsed`).
- TrackData.UpdateCars: one timestamp per step, where the source reads the clock once per car.
- `requestAnimationFrame` and `cancelAnimationFrame` scheduling are left out. React's batching of state setters is left out too, so each handler is one atomic transition.
- TrackData.Rem1: does not state that `x - (x % 1)` is a whole number; only the range and the identity on [0, 1) are proved.
- The map button (App.tsx:217) sets `CameraMode.MAP_2D`, which types.ts does not declare. It is left out rather than given invented behaviour.
- The orthographic camera and OrbitControls behaviour are left out. `camera.lookAt` is modelled as recording the look-at point, not as a camera orientation.
- The optional `isLeader` field of `CarState` is never set by the core and is left out.
- `RaceSession` and `ChatMessage` of types.ts are not transcribed: races are an index (next line), and chat messages belong to the assistant, which is outside this model.
- The race archive `RACES` is imported from services/trackData.ts but not defined there. Races are therefore identified by index (`RaceApp.selectedRace`), and race names, dates and lap totals are left out.
- Tyre strategy and pit-window fields are read by the driver card but are not declared in types.ts.
- The random gap display (`Math.random()`, App.tsx:121) is left out.
- JSX markup, styling, stars and lighting are left out. So are services/gemini.ts (a network client), components/Assistant.tsx (a chat UI around it) and components/Car.tsx (a mesh with no logic). These are not part of this model.
- App.FindDriver, App.Leaderboard: the roster is a parameter, and `RaceApp.GetLeaderboard` passes `DRIVERS`. This keeps the eight-entry constant out of the leaderboard proofs.
