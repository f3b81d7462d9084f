/** The records shared by the simulation, the HUD and the camera (types.ts). */
module Types {
  import opened Geometry

  datatype Option<T> = None | Some(value: T)

  datatype Driver = Driver(id: string, name: string, team: string, color: string, shortName: string)

  /**
    One car's snapshot. `lap` counts from 1; `lapProgress` is the fraction of
    the current lap driven; `speed` is in km/h; `rotation` is the yaw in radians.
   */
  datatype CarState = CarState(
    driverId: string,
    position: Vec3,
    rotation: real,
    lap: int,
    lapProgress: real,
    speed: real)

  datatype CameraMode = TvBroadcast | Follow | Overhead
}
