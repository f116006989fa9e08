/** Fixed tuning values of the bike level and small real-number helpers. */
module Constants {

  const GameWidth: real := 1200.0
  const GameHeight: real := 700.0

  /** The road band: it starts 150 below the top and is 300 shorter than the screen. */
  const RoadY: real := 150.0
  const RoadHeight: real := GameHeight - 300.0

  /** The bike's screen column; it never moves horizontally. */
  const BikeX: real := 100.0

  /** The scene assigns the top speed twice; the later value, 150, is the one in force. */
  const MaxSpeed: real := 150.0
  const Acceleration: real := 0.1
  const TurnSpeed: real := 2.5

  const LevelDuration: real := 60000.0
  const WinDistance: real := 10000.0

  /** Frame times are normalised to a 16 ms reference frame. */
  const FrameUnit: real := 16.0

  /** Parallax: screen x = BikeX + ParallaxOffset + (spawnDistance - levelDistance). */
  const ParallaxOffset: real := 150.0
  const SpawnLookAhead: real := 950.0
  const StationarySpawnInterval: real := 1000.0
  const OffscreenMargin: real := 100.0

  /** The bike keeps 20 units from either road edge, obstacles 10. */
  const BikeTop: real := RoadY + 20.0
  const BikeBottom: real := RoadY + RoadHeight - 20.0
  const ObstacleTop: real := RoadY + 10.0
  const ObstacleBottom: real := RoadY + RoadHeight - 10.0

  /** JavaScript's Math.min and Math.max on (non-NaN) numbers. */
  function Min(a: real, b: real): (r: real)
    ensures r <= a && r <= b
    ensures r == a || r == b
  {
    if a <= b then a else b
  }

  function Max(a: real, b: real): (r: real)
    ensures a <= r && b <= r
    ensures r == a || r == b
  {
    if a >= b then a else b
  }
}
