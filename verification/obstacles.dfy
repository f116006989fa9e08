/** Obstacles: the five kinds with their damage classes, the per-kind motion rules,
    and retirement of obstacles that leave the extended screen. */
module Obstacles {
  import opened Constants

  datatype Phase = Crossing | Stationary

  /** A pedestrian crosses from the top edge downwards (+1) or from the bottom edge upwards (-1). */
  datatype Direction = Southbound | Northbound {
    function Sign(): real {
      if Southbound? then 1.0 else -1.0
    }

    /** The road edge (for obstacles) where a crossing in this direction starts. */
    function StartEdge(): real {
      if Southbound? then ObstacleTop else ObstacleBottom
    }

    /** The road edge where a crossing in this direction ends. */
    function EndEdge(): real {
      if Southbound? then ObstacleBottom else ObstacleTop
    }
  }

  /** Each kind carries only its own motion state: a pedestrian its direction and phase,
      a bird its velocity (drawn once at spawn). */
  datatype Kind =
    | Cone
    | Rock
    | Car
    | Pedestrian(direction: Direction, phase: Phase)
    | Bird(vx: real, vy: real)
  {
    /** Kinds whose x is derived from the level distance by the parallax formula. */
    predicate Parallax() {
      Cone? || Rock? || Pedestrian?
    }
  }

  datatype Damage = Slow | SlowHeavy | Crash

  /** The damage table: cones and birds slow, pedestrians slow heavily, rocks and cars crash. */
  function DamageOf(k: Kind): (d: Damage)
    ensures d == Crash <==> k.Rock? || k.Car?
    ensures d == SlowHeavy <==> k.Pedestrian?
    ensures d == Slow <==> k.Cone? || k.Bird?
  {
    match k
    case Cone => Slow
    case Bird(_, _) => Slow
    case Pedestrian(_, _) => SlowHeavy
    case Rock => Crash
    case Car => Crash
  }

  /** Own speed of a car toward the bike and crossing speed of a pedestrian, per reference frame. */
  const CarSpeed: real := 5.0
  const PedestrianSpeed: real := 1.0

  datatype Obstacle = Obstacle(id: nat, kind: Kind, spawnDistance: real, x: real, y: real)

  /** Screen x of a parallax obstacle: where its spawn distance lies relative to the bike. */
  function ParallaxX(spawnDistance: real, distance: real): real {
    BikeX + ParallaxOffset + (spawnDistance - distance)
  }

  /** Inside the screen extended by the off-screen margin on every side. */
  predicate InView(o: Obstacle) {
    && -OffscreenMargin <= o.x <= GameWidth + OffscreenMargin
    && -OffscreenMargin <= o.y <= GameHeight + OffscreenMargin
  }

  /** A pedestrian that has stopped crossing stands on the edge it was heading for. */
  predicate Settled(o: Obstacle) {
    o.kind.Pedestrian? && o.kind.phase == Stationary ==> o.y == o.kind.direction.EndEdge()
  }

  /** What holds of every live obstacle at the end of a frame at level distance `distance`. */
  predicate WellPlaced(o: Obstacle, distance: real) {
    && InView(o)
    && (!o.kind.Bird? ==> ObstacleTop <= o.y <= ObstacleBottom)
    && (o.kind.Parallax() ==> o.x == ParallaxX(o.spawnDistance, distance))
    && Settled(o)
  }

  /** Road clamp for obstacles other than birds. */
  function ClampY(y: real): (r: real)
    ensures ObstacleTop <= r <= ObstacleBottom
    ensures ObstacleTop <= y <= ObstacleBottom ==> r == y
    ensures y < ObstacleTop ==> r == ObstacleTop
    ensures y > ObstacleBottom ==> r == ObstacleBottom
  {
    var top := if y < ObstacleTop then ObstacleTop else y;
    if top > ObstacleBottom then ObstacleBottom else top
  }

  /** One crossing step of a pedestrian: it walks by direction * speed * dt and becomes
      stationary once it reaches the opposite edge. */
  function Cross(direction: Direction, phase: Phase, y: real, dt: real): (r: (Phase, real))
    ensures phase == Stationary ==> r == (Stationary, y)
    ensures phase == Crossing && direction == Southbound ==> r.1 == y + dt && (r.0 == Stationary <==> r.1 >= ObstacleBottom)
    ensures phase == Crossing && direction == Northbound ==> r.1 == y - dt && (r.0 == Stationary <==> r.1 <= ObstacleTop)
  {
    if phase == Crossing then
      var y' := y + direction.Sign() * PedestrianSpeed * dt;
      var reached := (direction.Sign() > 0.0 && y' >= ObstacleBottom) || (direction.Sign() < 0.0 && y' <= ObstacleTop);
      (if reached then Stationary else Crossing, y')
    else
      (phase, y)
  }

  /** Per-kind motion for one frame, given the bike speed and level distance after the
      physics pass and the frame time delta. */
  function Move(o: Obstacle, bikeSpeed: real, distance: real, delta: real): (r: Obstacle)
    ensures r.id == o.id && r.spawnDistance == o.spawnDistance
    ensures r.kind.Pedestrian? == o.kind.Pedestrian? && r.kind.Bird? == o.kind.Bird?
    ensures !o.kind.Pedestrian? ==> r.kind == o.kind
    ensures o.kind.Pedestrian? ==> r.kind.direction == o.kind.direction
    ensures o.kind.Parallax() ==> r.x == ParallaxX(o.spawnDistance, distance)
    ensures o.kind.Car? ==> r.x == o.x - (bikeSpeed + CarSpeed) * (delta / FrameUnit)
    ensures o.kind.Bird? ==> r.x == o.x - bikeSpeed * (delta / FrameUnit) + o.kind.vx * (delta / FrameUnit)
    ensures o.kind.Bird? ==> r.y == o.y + o.kind.vy * (delta / FrameUnit)
    ensures !o.kind.Bird? ==> ObstacleTop <= r.y <= ObstacleBottom
    ensures (o.kind.Cone? || o.kind.Rock? || o.kind.Car?) && ObstacleTop <= o.y <= ObstacleBottom ==> r.y == o.y
    ensures o.kind.Pedestrian? && o.kind.phase == Stationary ==> r.kind.phase == Stationary
    ensures o.kind.Pedestrian? ==>
              var c := Cross(o.kind.direction, o.kind.phase, o.y, delta / FrameUnit);
              r.kind.phase == c.0 && r.y == ClampY(c.1)
    ensures delta >= 0.0 && Settled(o) ==> Settled(r)
  {
    var dt := delta / FrameUnit;
    var moved :=
      match o.kind
      case Cone => o.(x := ParallaxX(o.spawnDistance, distance))
      case Rock => o.(x := ParallaxX(o.spawnDistance, distance))
      case Car => o.(x := o.x - (bikeSpeed + CarSpeed) * dt)
      case Pedestrian(direction, phase) =>
        var (phase', y') := Cross(direction, phase, o.y, dt);
        o.(x := ParallaxX(o.spawnDistance, distance), y := y', kind := Pedestrian(direction, phase'))
      case Bird(vx, vy) => o.(x := o.x - bikeSpeed * dt + vx * dt, y := o.y + vy * dt);
    if moved.kind.Bird? then moved else moved.(y := ClampY(moved.y))
  }

  /** Ids strictly increase along the obstacle list (newer obstacles are appended). */
  predicate IdsIncreasing(obs: seq<Obstacle>) {
    forall i, j :: 0 <= i < j < |obs| ==> obs[i].id < obs[j].id
  }

  /** Retirement: keep exactly the obstacles still inside the extended screen, in order. */
  function Retire(obs: seq<Obstacle>): (r: seq<Obstacle>)
    ensures forall o :: o in r <==> o in obs && InView(o)
    ensures |r| <= |obs|
    ensures IdsIncreasing(obs) ==> IdsIncreasing(r)
  {
    if |obs| == 0 then []
    else
      var rest := Retire(obs[1..]);
      if InView(obs[0]) then
        assert IdsIncreasing(obs) ==> forall o :: o in rest ==> obs[0].id < o.id;
        [obs[0]] + rest
      else
        rest
  }

  /** Move every obstacle, then retire those that left the extended screen. */
  function MoveAll(obs: seq<Obstacle>, bikeSpeed: real, distance: real, delta: real): (r: seq<Obstacle>)
    ensures forall o :: o in r ==> exists p :: p in obs && o == Move(p, bikeSpeed, distance, delta)
    ensures forall p :: p in obs && InView(Move(p, bikeSpeed, distance, delta)) ==> Move(p, bikeSpeed, distance, delta) in r
    ensures delta >= 0.0 && (forall o :: o in obs ==> Settled(o)) ==> forall o :: o in r ==> WellPlaced(o, distance)
    ensures IdsIncreasing(obs) ==> IdsIncreasing(r)
  {
    var moved := seq(|obs|, i requires 0 <= i < |obs| => Move(obs[i], bikeSpeed, distance, delta));
    assert forall i :: 0 <= i < |obs| ==> moved[i].id == obs[i].id;
    assert delta >= 0.0 && (forall o :: o in obs ==> Settled(o)) ==> forall o :: o in moved ==> Settled(o);
    Retire(moved)
  }

  /** A crossing pedestrian short of its far edge walks on by one unit per reference frame
      in its direction and is still crossing. */
  lemma CrossingPedestrianWalks(o: Obstacle, bikeSpeed: real, distance: real, delta: real)
    requires o.kind.Pedestrian? && o.kind.phase == Crossing
    requires ObstacleTop <= o.y <= ObstacleBottom && delta >= 0.0
    requires o.kind.direction == Southbound ==> o.y + delta / FrameUnit < ObstacleBottom
    requires o.kind.direction == Northbound ==> o.y - delta / FrameUnit > ObstacleTop
    ensures Move(o, bikeSpeed, distance, delta).kind == o.kind
    ensures Move(o, bikeSpeed, distance, delta).y == o.y + o.kind.direction.Sign() * (delta / FrameUnit)
  {
  }

  /** A pedestrian that has stopped keeps standing where it is, frame after frame. */
  lemma StationaryPedestrianStays(o: Obstacle, bikeSpeed: real, distance: real, delta: real)
    requires o.kind.Pedestrian? && o.kind.phase == Stationary
    requires Settled(o)
    ensures Move(o, bikeSpeed, distance, delta).kind == o.kind
    ensures Move(o, bikeSpeed, distance, delta).y == o.y
  {
  }

  /** A crossing pedestrian that reaches (or steps past) the opposite edge stops on it. */
  lemma CrossingPedestrianStops(o: Obstacle, bikeSpeed: real, distance: real, delta: real)
    requires o.kind.Pedestrian? && o.kind.phase == Crossing
    requires o.kind.direction == Southbound ==> o.y + delta / FrameUnit >= ObstacleBottom
    requires o.kind.direction == Northbound ==> o.y - delta / FrameUnit <= ObstacleTop
    ensures Move(o, bikeSpeed, distance, delta).kind == Pedestrian(o.kind.direction, Stationary)
    ensures Move(o, bikeSpeed, distance, delta).y == o.kind.direction.EndEdge()
  {
  }

  /** A car already beyond the left margin is retired on the next frame. */
  lemma PassedCarRetired(c: Obstacle, bikeSpeed: real, distance: real, delta: real)
    requires c.kind == Car && c.x < -OffscreenMargin
    requires bikeSpeed >= 0.0 && delta >= 0.0
    ensures MoveAll([c], bikeSpeed, distance, delta) == []
  {
  }

  /** The obstacle loop as the scene runs it. Destroying an obstacle inside `forEach`
      removes it from the very array being iterated, so the obstacle right after it is
      neither moved nor checked in that frame. */
  function MoveAllAsWritten(obs: seq<Obstacle>, bikeSpeed: real, distance: real, delta: real): (r: seq<Obstacle>)
    ensures |r| <= |obs|
    ensures |obs| > 0 && InView(Move(obs[0], bikeSpeed, distance, delta)) ==> |r| > 0 && r[0] == Move(obs[0], bikeSpeed, distance, delta)
    ensures |obs| > 1 && !InView(Move(obs[0], bikeSpeed, distance, delta)) ==> |r| > 0 && r[0] == obs[1]
  {
    if |obs| == 0 then []
    else
      var moved := Move(obs[0], bikeSpeed, distance, delta);
      if InView(moved) then [moved] + MoveAllAsWritten(obs[1..], bikeSpeed, distance, delta)
      else if |obs| == 1 then []
      else [obs[1]] + MoveAllAsWritten(obs[2..], bikeSpeed, distance, delta)
  }

  /** A car that leaves the screen freezes the car behind it for a frame in the loop as
      written, while the intended loop moves the second car 15 units closer. */
  lemma SkippedObstacleFreezes()
    ensures var leaving := Obstacle(0, Car, 0.0, -99.0, 300.0);
            var next := Obstacle(1, Car, 0.0, 500.0, 300.0);
            && MoveAllAsWritten([leaving, next], 10.0, 0.0, 16.0)[0] == next
            && next !in MoveAll([leaving, next], 10.0, 0.0, 16.0)
            && next.(x := 485.0) in MoveAll([leaving, next], 10.0, 0.0, 16.0)
  {
    var leaving := Obstacle(0, Car, 0.0, -99.0, 300.0);
    var next := Obstacle(1, Car, 0.0, 500.0, 300.0);
    assert Move(leaving, 10.0, 0.0, 16.0).x == -114.0;
    assert Move(next, 10.0, 0.0, 16.0) == next.(x := 485.0);
  }
}
