/** The pedal rhythm minigame: the pedal angle, its two key zones, the A/D input rule,
    and the gear- and speed-dependent rotation. */
module Pedal {
  import opened Constants
  import opened Gears

  /** Rounding toward zero, as JavaScript's `%` uses it. */
  function Trunc(q: real): (n: int)
    ensures q >= 0.0 ==> n as real <= q < n as real + 1.0
    ensures q <= 0.0 ==> n as real - 1.0 < q <= n as real
  {
    if q >= 0.0 then q.Floor else -((-q).Floor)
  }

  /** JavaScript's `x % 360` on numbers: the remainder carries the sign of x. */
  function Rem360(x: real): (r: real)
    ensures x >= 0.0 ==> 0.0 <= r < 360.0 && r <= x
    ensures x <= 0.0 ==> -360.0 < r <= 0.0 && x <= r
    ensures -360.0 < x < 360.0 ==> r == x
  {
    x - Trunc(x / 360.0) as real * 360.0
  }

  /** Adding a full turn does not change a non-negative angle's remainder. */
  lemma Rem360Periodic(x: real)
    requires x >= 0.0
    ensures Rem360(x + 360.0) == Rem360(x)
  {
  }

  /** The A key is correct in the upper half-turn [180, 360), the D key in [0, 180). */
  predicate InAZone(angle: real) {
    180.0 <= angle < 360.0
  }

  predicate InDZone(angle: real) {
    0.0 <= angle < 180.0
  }

  datatype PedalKey = KeyA | KeyD

  /** The key that is correct for a (non-negative) pedal rotation: the two zones
      partition every angle the rotation can take, so exactly one key is correct. */
  function ExpectedKey(rotation: real): (k: PedalKey)
    requires rotation >= 0.0
    ensures k == KeyA <==> InAZone(Rem360(rotation))
    ensures k == KeyD <==> InDZone(Rem360(rotation))
  {
    if Rem360(rotation) >= 180.0 then KeyA else KeyD
  }

  /** A press is correct when a held key matches the zone of the current angle. */
  predicate CorrectPress(rotation: real, a: bool, d: bool) {
    var angle := Rem360(rotation);
    (a && InAZone(angle)) || (d && InDZone(angle))
  }

  /** The A/D speed rule of one input pass: each correct key accelerates up to the top
      speed; a wrong press with no correct one brakes by half the acceleration, never below 0. */
  function PedalInput(speed: real, rotation: real, a: bool, d: bool): (r: real)
    ensures CorrectPress(rotation, a, d) ==> r == Min(speed + Acceleration, MaxSpeed)
    ensures !CorrectPress(rotation, a, d) && (a || d) ==> r == Max(0.0, speed - Acceleration * 0.5)
    ensures !a && !d ==> r == speed
    ensures 0.0 <= speed <= MaxSpeed ==> 0.0 <= r <= MaxSpeed
  {
    var angle := Rem360(rotation);
    var aCorrect := a && InAZone(angle);
    var dCorrect := d && InDZone(angle);
    var afterA := if aCorrect then Min(speed + Acceleration, MaxSpeed) else speed;
    var afterD := if dCorrect then Min(afterA + Acceleration, MaxSpeed) else afterA;
    if !(aCorrect || dCorrect) && (a || d) then Max(0.0, afterD - Acceleration * 0.5) else afterD
  }

  /** Holding both keys always hits the correct zone: it accelerates and never brakes. */
  lemma BothKeysAccelerate(speed: real, rotation: real)
    requires rotation >= 0.0
    ensures PedalInput(speed, rotation, true, true) == Min(speed + Acceleration, MaxSpeed)
  {
  }

  /** Pressing only the key of the other zone brakes. */
  lemma WrongKeyBrakes(speed: real, rotation: real, a: bool, d: bool)
    requires rotation >= 0.0
    requires a != d
    requires (a && ExpectedKey(rotation) == KeyD) || (d && ExpectedKey(rotation) == KeyA)
    ensures PedalInput(speed, rotation, a, d) == Max(0.0, speed - Acceleration * 0.5)
  {
  }

  /** Frame factor of the pedal: delta / 16, except that JavaScript's `|| 1`
      turns a zero factor into 1. */
  function PedalDt(delta: real): (dt: real)
    ensures delta > 0.0 ==> dt == delta / FrameUnit
    ensures delta >= 0.0 ==> dt > 0.0
    ensures delta == 0.0 ==> dt == 1.0
  {
    if delta / FrameUnit == 0.0 then 1.0 else delta / FrameUnit
  }

  /** Degrees the pedal advances in one frame: (speed / maxSpeed) * 20 * gear multiplier * dt. */
  function Advance(speed: real, g: Gear, delta: real): (deg: real)
    ensures speed >= 0.0 && delta >= 0.0 ==> deg >= 0.0
    ensures delta >= 0.0 ==> (deg == 0.0 <==> speed == 0.0)
  {
    (speed / MaxSpeed) * 20.0 * Multiplier(g) * PedalDt(delta)
  }

  /** The pedal never turns backwards, and stands still exactly when the bike does. */
  lemma AdvanceNonNegative(speed: real, g: Gear, delta: real)
    requires speed >= 0.0 && delta >= 0.0
    ensures Advance(speed, g, delta) >= 0.0
    ensures Advance(speed, g, delta) == 0.0 <==> speed == 0.0
  {
  }

  /** For the same speed and frame time, a lower gear advances the pedal at least as far. */
  lemma LowerGearTurnsFurther(speed: real, low: Gear, high: Gear, delta: real)
    requires speed >= 0.0 && delta >= 0.0
    requires low <= high
    ensures Advance(speed, low, delta) >= Advance(speed, high, delta)
  {
  }

  /** The pedal's new angle after one frame: the old angle advanced by `Advance` and
      wrapped into [0, 360); a stopped bike leaves it where it was. */
  function Rotate(rotation: real, speed: real, g: Gear, delta: real): (r: real)
    ensures rotation >= 0.0 && speed >= 0.0 && delta >= 0.0 ==> 0.0 <= r < 360.0
    ensures speed == 0.0 && 0.0 <= rotation < 360.0 ==> r == rotation
    ensures -360.0 < rotation + Advance(speed, g, delta) < 360.0 ==>
              r == rotation + Advance(speed, g, delta)
    ensures 360.0 <= rotation + Advance(speed, g, delta) < 720.0 ==>
              r == rotation + Advance(speed, g, delta) - 360.0
  {
    var deg := Advance(speed, g, delta);
    assert speed >= 0.0 && delta >= 0.0 ==> deg >= 0.0 && (speed == 0.0 ==> deg == 0.0) by {
      if speed >= 0.0 && delta >= 0.0 {
        AdvanceNonNegative(speed, g, delta);
      }
    }
    Rem360(rotation + deg)
  }
}
