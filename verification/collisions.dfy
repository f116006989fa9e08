/** Collision effects: every obstacle the engine reports as overlapping the bike applies
    its damage class and is removed. */
module Collisions {
  import opened Obstacles

  /** Speed factor of a damage class; a crash ends the level instead of slowing. */
  function SlowFactor(d: Damage): (f: real)
    ensures d == Slow ==> f == 0.6
    ensures d == SlowHeavy ==> f == 0.3
    ensures d == Crash ==> f == 1.0
  {
    match d
    case Slow => 0.6
    case SlowHeavy => 0.3
    case Crash => 1.0
  }

  predicate Hit(o: Obstacle, hits: set<nat>) {
    o.id in hits
  }

  /** Some reported obstacle has the given damage class. */
  predicate HitWith(obs: seq<Obstacle>, hits: set<nat>, d: Damage) {
    exists o :: o in obs && Hit(o, hits) && DamageOf(o.kind) == d
  }

  /** Every reported obstacle is destroyed, whatever its damage class; the rest stay in order. */
  function Survivors(obs: seq<Obstacle>, hits: set<nat>): (r: seq<Obstacle>)
    ensures forall o :: o in r <==> o in obs && !Hit(o, hits)
    ensures |r| <= |obs|
    ensures IdsIncreasing(obs) ==> IdsIncreasing(r)
  {
    if |obs| == 0 then []
    else
      var rest := Survivors(obs[1..], hits);
      if Hit(obs[0], hits) then rest
      else
        assert IdsIncreasing(obs) ==> forall p :: p in rest ==> obs[0].id < p.id;
        [obs[0]] + rest
  }

  /** `x` multiplied by the factor of a damage class. */
  function Scaled(x: real, d: Damage): real {
    match d
    case Slow => 0.6 * x
    case SlowHeavy => 0.3 * x
    case Crash => x
  }

  /** The combined speed factor of the reported hits: the product of the factors of
      every reported obstacle, a crash counting as 1. */
  function Slowdown(obs: seq<Obstacle>, hits: set<nat>): real
  {
    if |obs| == 0 then 1.0
    else if Hit(obs[0], hits) then Scaled(Slowdown(obs[1..], hits), DamageOf(obs[0].kind))
    else Slowdown(obs[1..], hits)
  }

  /** Every factor lies in (0, 1], so their product does too. */
  lemma {:induction false} SlowdownBound(obs: seq<Obstacle>, hits: set<nat>)
    ensures 0.0 < Slowdown(obs, hits) <= 1.0
  {
    if |obs| > 0 {
      SlowdownBound(obs[1..], hits);
    }
  }

  /** The bike speed after the reported hits are handled in list order: each slowing
      hit multiplies the speed by its factor. */
  function SpeedAfter(obs: seq<Obstacle>, hits: set<nat>, speed: real): real
  {
    if |obs| == 0 then speed
    else if Hit(obs[0], hits) then SpeedAfter(obs[1..], hits, Scaled(speed, DamageOf(obs[0].kind)))
    else SpeedAfter(obs[1..], hits, speed)
  }

  /** Handling the hits one after another scales the speed by the product of their factors. */
  lemma {:induction false} SpeedAfterScales(obs: seq<Obstacle>, hits: set<nat>, speed: real)
    ensures SpeedAfter(obs, hits, speed) == speed * Slowdown(obs, hits)
  {
    if |obs| > 0 {
      if Hit(obs[0], hits) {
        var d := DamageOf(obs[0].kind);
        SpeedAfterScales(obs[1..], hits, Scaled(speed, d));
        HitStep(SpeedAfter(obs, hits, speed), SpeedAfter(obs[1..], hits, Scaled(speed, d)),
                speed, Slowdown(obs[1..], hits), Slowdown(obs, hits), d);
      } else {
        SpeedAfterScales(obs[1..], hits, speed);
      }
    }
  }

  /** The product step for a reported obstacle of class `d`: `r` is the speed after it and
      the rest, `rest` the speed after the rest alone, `p` and `q` the products without and
      with it. */
  lemma HitStep(r: real, rest: real, speed: real, p: real, q: real, d: Damage)
    requires r == rest && rest == Scaled(speed, d) * p && q == Scaled(p, d)
    ensures r == speed * q
  {
    ScaledCommutes(speed, p, d);
  }

  /** Scaling one factor of a product is scaling the product. */
  lemma ScaledCommutes(x: real, y: real, d: Damage)
    ensures Scaled(x, d) * y == x * Scaled(y, d)
  {
    match d
    case Slow => assert (0.6 * x) * y == x * (0.6 * y);
    case SlowHeavy => assert (0.3 * x) * y == x * (0.3 * y);
    case Crash =>
  }

  /** Scaling a non-negative speed by a factor in (0, 1] keeps it within [0, speed]. */
  lemma ScaleBound(speed: real, p: real)
    requires 0.0 < p <= 1.0
    ensures 0.0 <= speed ==> 0.0 <= speed * p <= speed
  {
    if 0.0 <= speed {
      assert speed * p <= speed * 1.0;
    }
  }

  /** Handling the hits never raises a non-negative speed and never makes it negative. */
  lemma SpeedAfterBound(obs: seq<Obstacle>, hits: set<nat>, speed: real)
    requires 0.0 <= speed
    ensures 0.0 <= SpeedAfter(obs, hits, speed) <= speed
  {
    SpeedAfterScales(obs, hits, speed);
    SlowdownBound(obs, hits);
    ScaleBound(speed, Slowdown(obs, hits));
  }

  /** Surviving obstacles, bike speed afterwards, and whether a crash ended the level. */
  datatype Outcome = Outcome(survivors: seq<Obstacle>, speed: real, crashed: bool)

  /** All collision callbacks of one frame. A crash marks the level failed, but the
      remaining hits still apply. */
  function Collide(obs: seq<Obstacle>, hits: set<nat>, speed: real): (r: Outcome)
    ensures forall o :: o in r.survivors <==> o in obs && !Hit(o, hits)
    ensures r.crashed <==> HitWith(obs, hits, Crash)
    ensures r.speed == speed * Slowdown(obs, hits)
    ensures 0.0 <= speed ==> 0.0 <= r.speed <= speed
    ensures IdsIncreasing(obs) ==> IdsIncreasing(r.survivors)
  {
    SpeedAfterScales(obs, hits, speed);
    SlowdownBound(obs, hits);
    ScaleBound(speed, Slowdown(obs, hits));
    Outcome(Survivors(obs, hits), SpeedAfter(obs, hits, speed), HitWith(obs, hits, Crash))
  }

  /** Without a slowing hit the speed is left exactly as it was. */
  lemma {:induction false} NoSlowKeepsSpeed(obs: seq<Obstacle>, hits: set<nat>, speed: real)
    requires !HitWith(obs, hits, Slow) && !HitWith(obs, hits, SlowHeavy)
    ensures SpeedAfter(obs, hits, speed) == speed
  {
    if |obs| > 0 {
      assert forall p :: p in obs[1..] ==> p in obs;
      NoSlowKeepsSpeed(obs[1..], hits, speed);
    }
  }

  /** Hitting any slowing obstacle costs at least its factor of the speed. */
  lemma {:induction false} SlowHitBound(obs: seq<Obstacle>, hits: set<nat>, speed: real, d: Damage)
    requires 0.0 <= speed
    requires d != Crash && HitWith(obs, hits, d)
    ensures SpeedAfter(obs, hits, speed) <= SlowFactor(d) * speed
  {
    var w :| w in obs && Hit(w, hits) && DamageOf(w.kind) == d;
    var o := obs[0];
    var tail := obs[1..];
    var s1 := if Hit(o, hits) then Scaled(speed, DamageOf(o.kind)) else speed;
    assert 0.0 <= s1 <= speed by {
      if Hit(o, hits) {
        match DamageOf(o.kind)
        case Slow =>
        case SlowHeavy =>
        case Crash =>
      }
    }
    assert SpeedAfter(obs, hits, speed) == SpeedAfter(tail, hits, s1);
    if Hit(o, hits) && DamageOf(o.kind) == d {
      SpeedAfterBound(tail, hits, s1);
      assert s1 == SlowFactor(d) * speed;
    } else {
      assert w in tail;
      SlowHitBound(tail, hits, s1, d);
      if d == Slow {
        assert 0.6 * s1 <= 0.6 * speed;
      } else {
        assert 0.3 * s1 <= 0.3 * speed;
      }
    }
  }

  /** A single reported obstacle scales any speed by exactly its factor: 0.6 for a cone,
      0.3 for a pedestrian, unchanged for a crash or a miss. */
  lemma {:induction false} SingleHitSpeed(o: Obstacle, hits: set<nat>, speed: real)
    ensures Hit(o, hits) ==> Collide([o], hits, speed).speed == speed * SlowFactor(DamageOf(o.kind))
    ensures !Hit(o, hits) ==> Collide([o], hits, speed).speed == speed
  {
    assert [o][1..] == [];
    if Hit(o, hits) {
      assert SpeedAfter([o], hits, speed) == Scaled(speed, DamageOf(o.kind));
      match DamageOf(o.kind)
      case Slow =>
      case SlowHeavy =>
      case Crash =>
    } else {
      assert SpeedAfter([o], hits, speed) == SpeedAfter([], hits, speed);
    }
  }
}
