/** Obstacle spawning: a timer schedule for moving obstacles (car, bird) and a distance
    watermark for stationary ones (cone, rock, pedestrian). */
module Spawner {
  import opened Constants
  import opened Obstacles

  /** A value of Math.random(): uniform in [0, 1). */
  type Unit = r: real | 0.0 <= r < 1.0

  /** The random numbers one frame may consume. `birdVx`/`birdVy` are the cosine and sine
      of a random heading times the bird speed 3. */
  datatype Draws = Draws(
    movingPick: Unit, movingY: Unit, birdVx: real, birdVy: real, threshold: Unit,
    stationaryPick: Unit, stationaryY: Unit, side: Unit)

  /** `Math.floor(Math.random() * 3)`: an index into a list of three choices. */
  function PickOfThree(r: Unit): (i: nat)
    ensures i < 3
    ensures i as real <= 3.0 * r < i as real + 1.0
  {
    (3.0 * r).Floor
  }

  /** Moving spawns choose from [car, bird, bird]: a bird twice as often as a car. */
  function MovingKind(d: Draws): (k: Kind)
    ensures k == Car <==> d.movingPick < 1.0 / 3.0
    ensures k != Car ==> k == Bird(d.birdVx, d.birdVy)
  {
    var choices := [Car, Bird(d.birdVx, d.birdVy), Bird(d.birdVx, d.birdVy)];
    choices[PickOfThree(d.movingPick)]
  }

  /** Stationary spawns choose from [cone, rock, pedestrian]; a pedestrian starts at the
      top edge heading down when its side draw exceeds 0.5, else at the bottom heading up. */
  function StationaryKind(d: Draws): (k: Kind)
    ensures k == Cone <==> d.stationaryPick < 1.0 / 3.0
    ensures k == Rock <==> 1.0 / 3.0 <= d.stationaryPick < 2.0 / 3.0
    ensures k.Pedestrian? <==> 2.0 / 3.0 <= d.stationaryPick
    ensures k.Pedestrian? ==> k.phase == Crossing
    ensures k.Pedestrian? ==> (k.direction == Southbound <==> d.side > 0.5)
  {
    var fromTop := d.side > 0.5;
    var choices := [Cone, Rock, Pedestrian(if fromTop then Southbound else Northbound, Crossing)];
    choices[PickOfThree(d.stationaryPick)]
  }

  /** A new obstacle just off the right edge. Its spawn distance lies 950 ahead of the
      current level distance; a pedestrian starts on its starting road edge, any other
      kind at a random height inside the band inset by 20. */
  function Spawn(id: nat, kind: Kind, distance: real, yDraw: Unit): (o: Obstacle)
    ensures o.id == id && o.kind == kind
    ensures o.spawnDistance == distance + SpawnLookAhead
    ensures o.x == GameWidth + OffscreenMargin
    ensures kind.Pedestrian? ==> o.y == kind.direction.StartEdge()
    ensures !kind.Pedestrian? ==> RoadY + 20.0 <= o.y < RoadY + RoadHeight - 20.0
  {
    var y :=
      if kind.Pedestrian? then
        (if kind.direction == Southbound then RoadY + 10.0 else RoadY + RoadHeight - 10.0)
      else
        RoadY + 20.0 + yDraw * (RoadHeight - 40.0);
    Obstacle(id, kind, distance + SpawnLookAhead, GameWidth + OffscreenMargin, y)
  }

  /** Spawn bookkeeping: milliseconds since the last timed spawn and the current
      threshold, the level distance of the last stationary spawn, and the next fresh id. */
  datatype Schedule = Schedule(timer: real, threshold: real, lastStationary: real, nextId: nat)

  const InitialSchedule: Schedule := Schedule(0.0, 500.0, 0.0, 0)

  datatype Spawned = Spawned(schedule: Schedule, obstacles: seq<Obstacle>)

  /** The two spawn checks of one frame, run after the physics pass at level distance
      `distance`. New obstacles are appended in order (timed first) with fresh ids. */
  function SpawnObstacles(s: Schedule, obs: seq<Obstacle>, distance: real, delta: real, d: Draws): (r: Spawned)
    ensures r.schedule.timer <= r.schedule.threshold
    ensures distance - r.schedule.lastStationary <= StationarySpawnInterval
    ensures var timed := s.timer + delta > s.threshold;
            var placed := distance - s.lastStationary > StationarySpawnInterval;
            && |r.obstacles| == |obs| + (if timed then 1 else 0) + (if placed then 1 else 0)
            && (timed ==> r.schedule.timer == 0.0 && 307.0 <= r.schedule.threshold < 627.0)
            && (!timed ==> r.schedule.timer == s.timer + delta && r.schedule.threshold == s.threshold)
            && (placed ==> r.schedule.lastStationary == distance)
            && (!placed ==> r.schedule.lastStationary == s.lastStationary)
            && (timed ==> r.obstacles[|obs|].kind == MovingKind(d))
            && (placed ==> r.obstacles[|r.obstacles| - 1].kind == StationaryKind(d))
    ensures forall i :: |obs| <= i < |r.obstacles| ==>
              var k := r.obstacles[i].kind;
              if s.timer + delta > s.threshold && i == |obs| then k.Car? || k.Bird?
              else k.Cone? || k.Rock? || k.Pedestrian?
    ensures r.obstacles[..|obs|] == obs
    ensures forall i :: |obs| <= i < |r.obstacles| ==>
              && r.obstacles[i].spawnDistance == distance + SpawnLookAhead
              && s.nextId <= r.obstacles[i].id < r.schedule.nextId
              && r.obstacles[i].x == GameWidth + OffscreenMargin
              && (r.obstacles[i].kind.Pedestrian? ==> r.obstacles[i].kind.phase == Crossing)
    ensures s.nextId <= r.schedule.nextId
    ensures (forall o :: o in obs ==> o.id < s.nextId) ==> forall o :: o in r.obstacles ==> o.id < r.schedule.nextId
    ensures (forall o :: o in obs ==> o.id < s.nextId) && IdsIncreasing(obs) ==> IdsIncreasing(r.obstacles)
  {
    var timer := s.timer + delta;
    var afterTimed :=
      if timer > s.threshold then
        Spawned(
          s.(timer := 0.0, threshold := 307.0 + d.threshold * 320.0, nextId := s.nextId + 1),
          obs + [Spawn(s.nextId, MovingKind(d), distance, d.movingY)])
      else
        Spawned(s.(timer := timer), obs);
    var t := afterTimed.schedule;
    if distance - t.lastStationary > StationarySpawnInterval then
      Spawned(
        t.(lastStationary := distance, nextId := t.nextId + 1),
        afterTimed.obstacles + [Spawn(t.nextId, StationaryKind(d), distance, d.stationaryY)])
    else
      afterTimed
  }
}
