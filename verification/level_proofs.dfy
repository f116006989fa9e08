/** Properties of the frame step: the state invariant, the referee's transitions, and
    the obstacle rules seen from the whole step. */
module LevelProofs {
  import opened Constants
  import Bike
  import opened Obstacles
  import opened Spawner
  import opened Collisions
  import opened Level

  /** The level starts in a valid state. */
  lemma StartValid()
    ensures Valid(Start)
  {
  }

  /** The scene update keeps the invariant. */
  lemma StepPreservesValid(g: Game, f: FrameInput)
    requires Valid(g) && WellFormed(f)
    ensures Valid(Step(g, f))
  {
    if g.status == Running && f.elapsed < LevelDuration {
      var steered := Bike.HandleInput(g.bike, f.keys);
      var motion := Bike.Physics(steered, g.distance, f.delta, f.speedDrag, f.lateralDrag);
      var pedalled := Bike.TurnPedal(motion.bike, f.delta);
      var distance := motion.distance;
      var spawned := SpawnObstacles(g.schedule, g.obstacles, distance, f.delta, f.draws);
      var obstacles := MoveAll(spawned.obstacles, pedalled.speed, distance, f.delta);
      var r := Step(g, f);
      assert r.obstacles == obstacles && r.schedule == spawned.schedule && r.distance == distance;
      assert r.bike == Bike.ClampToRoad(pedalled);
      assert Bike.Valid(r.bike);
      forall o | o in spawned.obstacles
        ensures Settled(o)
      {
        var i :| 0 <= i < |spawned.obstacles| && spawned.obstacles[i] == o;
        if i < |g.obstacles| {
          assert o == g.obstacles[i];
        }
      }
      forall o | o in obstacles
        ensures o.id < spawned.schedule.nextId
      {
        var p :| p in spawned.obstacles && o == Move(p, pedalled.speed, distance, f.delta);
      }
    }
  }

  /** Collision handling keeps the invariant. */
  lemma CollisionsPreserveValid(g: Game, hits: set<nat>)
    requires Valid(g)
    ensures Valid(ApplyCollisions(g, hits))
  {
  }

  /** Every frame keeps the invariant: speed in [0, 150], pedal angle in [0, 360), bike in
      the road band, spawn bookkeeping within bounds, obstacles valid with increasing ids. */
  lemma FramePreservesValid(g: Game, f: FrameInput)
    requires Valid(g) && WellFormed(f)
    ensures Valid(Frame(g, f))
  {
    StepPreservesValid(g, f);
    CollisionsPreserveValid(Step(g, f), f.hits);
  }

  /** The referee's transitions from a running level: the level completes exactly when it
      has not timed out and the distance reached 10000; it fails exactly when it timed out
      or, short of the finish, a crash obstacle was hit. */
  lemma RunningFrameOutcome(g: Game, f: FrameInput)
    requires g.status == Running
    ensures var r := Frame(g, f);
            && (r.status == Complete <==> f.elapsed < LevelDuration && r.distance >= WinDistance)
            && (r.status == Failed <==>
                  f.elapsed >= LevelDuration
                  || (r.distance < WinDistance && HitWith(Step(g, f).obstacles, f.hits, Crash)))
  {
  }

  /** A reported rock or car ends a running level in failure, whatever the time left and
      the distance covered, and is removed like every other reported obstacle. */
  lemma CrashEndsLevel(g: Game, hits: set<nat>, o: Obstacle)
    requires g.status == Running
    requires o in g.obstacles && o.id in hits && DamageOf(o.kind) == Crash
    ensures ApplyCollisions(g, hits).status == Failed
    ensures o !in ApplyCollisions(g, hits).obstacles
  {
    assert Hit(o, hits);
  }

  /** A slowing collision at speed 100 leaves 60; a heavy one leaves 30. */
  lemma CollisionSpeeds(o: Obstacle)
    ensures o.kind == Cone ==> Collide([o], {o.id}, 100.0).speed == 60.0
    ensures o.kind.Pedestrian? ==> Collide([o], {o.id}, 100.0).speed == 30.0
    ensures o.kind == Rock ==> Collide([o], {o.id}, 100.0).crashed
    ensures Collide([o], {o.id}, 100.0).survivors == []
  {
    assert [o][1..] == [];
    assert SpeedAfter([o], {o.id}, 100.0) == SpeedAfter([], {o.id}, Scaled(100.0, DamageOf(o.kind)));
  }

  /** The invariant holds after any run of well-formed frames from a valid state. */
  lemma {:induction false} RunPreservesValid(g: Game, fs: seq<FrameInput>)
    requires Valid(g)
    requires forall f :: f in fs ==> WellFormed(f)
    ensures Valid(Run(g, fs))
    decreases |fs|
  {
    if |fs| > 0 {
      FramePreservesValid(g, fs[0]);
      RunPreservesValid(Frame(g, fs[0]), fs[1..]);
    }
  }
}
