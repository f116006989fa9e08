/** The bike: player input, longitudinal and lateral physics, pedal rotation and the road clamp. */
module Bike {
  import opened Constants
  import opened Gears
  import opened Pedal

  /** Speed along the road, lateral screen position and velocity, pedal angle (degrees) and gear. */
  datatype BikeState = BikeState(speed: real, y: real, vy: real, rotation: real, gear: Gear)

  /** The bike at level start: standing still in the middle of the screen, in gear 1. */
  const Start: BikeState := BikeState(0.0, GameHeight / 2.0, 0.0, 0.0, InitialGear)

  /** What the keyboard reports for one frame. `leftPressed`/`rightPressed` are the
      arrow keys' "just pressed" edges; `digit1..3` are the digit keys after their
      100 ms repeat debounce. */
  datatype Keys = Keys(
    a: bool, d: bool,
    up: bool, down: bool,
    leftPressed: bool, rightPressed: bool,
    digit1: bool, digit2: bool, digit3: bool)

  /** Bike invariant: speed within [0, maxSpeed], a proper pedal angle, and the bike
      inside the road band. */
  predicate Valid(b: BikeState) {
    && 0.0 <= b.speed <= MaxSpeed
    && 0.0 <= b.rotation < 360.0
    && BikeTop <= b.y <= BikeBottom
  }

  /** One input pass: steering nudges the lateral velocity, A/D pedal the bike, and the
      arrows and digits pick the gear. Position and pedal angle are untouched. */
  function HandleInput(b: BikeState, k: Keys): (r: BikeState)
    ensures r.y == b.y && r.rotation == b.rotation
    ensures k.up == k.down ==> r.vy == b.vy
    ensures k.up && !k.down ==> r.vy == b.vy - TurnSpeed
    ensures k.down && !k.up ==> r.vy == b.vy + TurnSpeed
    ensures r.speed == PedalInput(b.speed, b.rotation, k.a, k.d)
    ensures r.gear == NextGear(b.gear, k.leftPressed, k.rightPressed, k.digit1, k.digit2, k.digit3)
    ensures 0.0 <= b.speed <= MaxSpeed ==> 0.0 <= r.speed <= MaxSpeed
  {
    var vyUp := if k.up then b.vy - TurnSpeed else b.vy;
    var vyDown := if k.down then vyUp + TurnSpeed else vyUp;
    BikeState(
      PedalInput(b.speed, b.rotation, k.a, k.d),
      b.y,
      vyDown,
      b.rotation,
      NextGear(b.gear, k.leftPressed, k.rightPressed, k.digit1, k.digit2, k.digit3))
  }

  /** Result of the physics pass: the bike and the new level distance. */
  datatype Motion = Motion(bike: BikeState, distance: real)

  /** The physics pass. `speedDrag` and `lateralDrag` stand for 0.995^dt and 0.6^dt,
      where dt = delta / 16. Speed decays and is floored at 0, the distance grows by
      speed * dt, the lateral velocity decays and the position moves by the whole
      velocity (no dt factor). */
  function Physics(b: BikeState, distance: real, delta: real, speedDrag: real, lateralDrag: real): (r: Motion)
    ensures r.bike.speed >= 0.0
    ensures 0.0 < speedDrag <= 1.0 && 0.0 <= b.speed ==> r.bike.speed <= b.speed
    ensures 0.0 < speedDrag && 0.0 <= b.speed ==> r.bike.speed == b.speed * speedDrag
    ensures delta >= 0.0 ==> r.distance >= distance
    ensures r.distance - distance == r.bike.speed * (delta / FrameUnit)
    ensures r.bike.vy == b.vy * lateralDrag
    ensures r.bike.y == b.y + b.vy * lateralDrag
    ensures r.bike.gear == b.gear && r.bike.rotation == b.rotation
  {
    var dt := delta / FrameUnit;
    var speed := Max(0.0, b.speed * speedDrag);
    var vy := b.vy * lateralDrag;
    Motion(b.(speed := speed, vy := vy, y := b.y + vy), distance + speed * dt)
  }

  /** The pedal-rotation pass, using the speed and gear left by the earlier passes. */
  function TurnPedal(b: BikeState, delta: real): (r: BikeState)
    ensures r.rotation == Rotate(b.rotation, b.speed, b.gear, delta)
    ensures b.rotation >= 0.0 && b.speed >= 0.0 && delta >= 0.0 ==> 0.0 <= r.rotation < 360.0
    ensures b.speed == 0.0 && 0.0 <= b.rotation < 360.0 ==> r == b
    ensures r.(rotation := b.rotation) == b
  {
    b.(rotation := Rotate(b.rotation, b.speed, b.gear, delta))
  }

  /** The road clamp, applied at the end of the frame: a bike outside the band is put
      back on the nearer bound and its lateral velocity is zeroed; a bike inside is untouched. */
  function ClampToRoad(b: BikeState): (r: BikeState)
    ensures BikeTop <= r.y <= BikeBottom
    ensures BikeTop <= b.y <= BikeBottom ==> r == b
    ensures b.y < BikeTop ==> r.y == BikeTop && r.vy == 0.0
    ensures b.y > BikeBottom ==> r.y == BikeBottom && r.vy == 0.0
    ensures r.(y := b.y, vy := b.vy) == b
  {
    var top := if b.y < BikeTop then b.(y := BikeTop, vy := 0.0) else b;
    if top.y > BikeBottom then top.(y := BikeBottom, vy := 0.0) else top
  }

  /** Clamping a clamped bike changes nothing. */
  lemma ClampIdempotent(b: BikeState)
    ensures ClampToRoad(ClampToRoad(b)) == ClampToRoad(b)
  {
  }
}
