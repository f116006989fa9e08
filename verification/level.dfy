/** The level: the whole game state, the per-frame step and the referee's state machine. */
module Level {
  import opened Constants
  import Bike
  import opened Obstacles
  import opened Spawner
  import opened Collisions

  /** Running, or one of the two absorbing outcomes. */
  datatype Status = Running | Complete | Failed

  datatype Game = Game(
    bike: Bike.BikeState,
    distance: real,
    status: Status,
    schedule: Schedule,
    obstacles: seq<Obstacle>)

  /** Everything the engine hands one frame: the frame time in ms, the elapsed level
      time, the keys, the two drag factors 0.995^dt and 0.6^dt, the random draws, and
      the ids of the obstacles it reports as overlapping the bike. */
  datatype FrameInput = FrameInput(
    delta: real,
    elapsed: real,
    keys: Bike.Keys,
    speedDrag: real,
    lateralDrag: real,
    draws: Draws,
    hits: set<nat>)

  /** What the engine guarantees about a frame's inputs. */
  predicate WellFormed(f: FrameInput) {
    && f.delta >= 0.0
    && 0.0 < f.speedDrag <= 1.0
    && 0.0 < f.lateralDrag <= 1.0
  }

  /** The state the scene creates: bike at rest in gear 1, nothing spawned, level running. */
  const Start: Game := Game(Bike.Start, 0.0, Running, InitialSchedule, [])

  /** Time left on the countdown, never negative. */
  function Remaining(elapsed: real): (r: real)
    ensures r >= 0.0
    ensures r <= 0.0 <==> elapsed >= LevelDuration
  {
    Max(0.0, LevelDuration - elapsed)
  }

  /** The invariant every frame keeps. */
  predicate Valid(g: Game) {
    && Bike.Valid(g.bike)
    && 0.0 <= g.schedule.lastStationary <= g.distance
    && g.distance - g.schedule.lastStationary <= StationarySpawnInterval
    && g.schedule.timer <= g.schedule.threshold
    && IdsIncreasing(g.obstacles)
    && (forall o :: o in g.obstacles ==> o.id < g.schedule.nextId)
    && (forall o :: o in g.obstacles ==> WellPlaced(o, g.distance))
  }

  /** The scene's update for one frame, up to the win check. Order: timeout check, input,
      physics, pedal, spawning, obstacle motion and retirement, bike road clamp, win check. */
  function Step(g: Game, f: FrameInput): (r: Game)
    ensures g.status != Running ==> r == g
    ensures g.status == Running && f.elapsed >= LevelDuration ==> r == g.(status := Failed)
    ensures f.delta >= 0.0 ==> r.distance >= g.distance
    ensures g.status == Running && f.elapsed < LevelDuration ==>
              (r.status == Complete <==> r.distance >= WinDistance) && r.status != Failed
  {
    if g.status != Running then g
    else if Remaining(f.elapsed) <= 0.0 then g.(status := Failed)
    else
      var steered := Bike.HandleInput(g.bike, f.keys);
      var motion := Bike.Physics(steered, g.distance, f.delta, f.speedDrag, f.lateralDrag);
      var pedalled := Bike.TurnPedal(motion.bike, f.delta);
      var distance := motion.distance;
      var spawned := SpawnObstacles(g.schedule, g.obstacles, distance, f.delta, f.draws);
      var obstacles := MoveAll(spawned.obstacles, pedalled.speed, distance, f.delta);
      var status := if distance >= WinDistance then Complete else Running;
      Game(Bike.ClampToRoad(pedalled), distance, status, spawned.schedule, obstacles)
  }

  /** The collision callbacks of one frame, applied while the level is still running:
      every reported obstacle is removed, slows multiply the speed, and a crash fails the level. */
  function ApplyCollisions(g: Game, hits: set<nat>): (r: Game)
    ensures g.status != Running ==> r == g
    ensures g.status == Running ==> (r.status == Failed <==> HitWith(g.obstacles, hits, Crash))
    ensures g.status == Running ==> r.status != Complete
    ensures g.status == Running ==> forall o :: o in r.obstacles <==> o in g.obstacles && !Hit(o, hits)
    ensures 0.0 <= g.bike.speed ==> 0.0 <= r.bike.speed <= g.bike.speed
    ensures r.distance == g.distance && r.schedule == g.schedule
    ensures r.bike.(speed := g.bike.speed) == g.bike
  {
    if g.status != Running then g
    else
      var out := Collide(g.obstacles, hits, g.bike.speed);
      g.(bike := g.bike.(speed := out.speed),
         obstacles := out.survivors,
         status := if out.crashed then Failed else Running)
  }

  /** One whole frame: the scene's update, then the overlap callbacks the engine reports. */
  function Frame(g: Game, f: FrameInput): (r: Game)
    ensures g.status != Running ==> r == g
    ensures g.status == Running && f.elapsed >= LevelDuration ==> r == g.(status := Failed)
    ensures f.delta >= 0.0 ==> r.distance >= g.distance
  {
    ApplyCollisions(Step(g, f), f.hits)
  }

  /** A run of consecutive frames. The distance never decreases along it, and a level that
      has ended stays exactly as it ended. */
  function Run(g: Game, fs: seq<FrameInput>): (r: Game)
    ensures (forall f :: f in fs ==> f.delta >= 0.0) ==> r.distance >= g.distance
    ensures g.status != Running ==> r == g
    ensures r.status == Running ==> g.status == Running
    decreases |fs|
  {
    if |fs| == 0 then g
    else Run(Frame(g, fs[0]), fs[1..])
  }
}
