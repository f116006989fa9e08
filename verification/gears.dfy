/** The three-speed gearbox: arrow-key shifting and direct selection with the digit keys. */
module Gears {

  type Gear = g: int | 1 <= g <= 3 witness 1

  const InitialGear: Gear := 1

  /** Pedal-rotation multiplier of each gear: gear 1 spins the pedal three times as fast as gear 3. */
  function Multiplier(g: Gear): (m: real)
    ensures m == (4 - g) as real
  {
    if g == 1 then 3.0 else if g == 2 then 2.0 else 1.0
  }

  /** A "just pressed" Left arrow shifts down, never below gear 1. */
  function ShiftDown(g: Gear): (r: Gear)
    ensures r <= g && g - r <= 1
    ensures r == g <==> g == 1
  {
    if g - 1 >= 1 then g - 1 else 1
  }

  /** A "just pressed" Right arrow shifts up, never above gear 3. */
  function ShiftUp(g: Gear): (r: Gear)
    ensures g <= r && r - g <= 1
    ensures r == g <==> g == 3
  {
    if g + 1 <= 3 then g + 1 else 3
  }

  /** The digit keys are checked in the order 1, 2, 3, each overwriting the gear,
      so the highest digit held (after its debounce) wins. */
  function SelectDirect(g: Gear, one: bool, two: bool, three: bool): (r: Gear)
    ensures three ==> r == 3
    ensures two && !three ==> r == 2
    ensures one && !two && !three ==> r == 1
    ensures !one && !two && !three ==> r == g
  {
    var afterOne: Gear := if one then 1 else g;
    var afterTwo: Gear := if two then 2 else afterOne;
    if three then 3 else afterTwo
  }

  /** The whole gear part of one input pass: Left edge, then Right edge, then the digits. */
  function NextGear(g: Gear, leftEdge: bool, rightEdge: bool, one: bool, two: bool, three: bool): (r: Gear)
    ensures one || two || three ==> r == SelectDirect(g, one, two, three)
    ensures !one && !two && !three && leftEdge && !rightEdge ==> r == ShiftDown(g)
    ensures !one && !two && !three && !leftEdge && rightEdge ==> r == ShiftUp(g)
    ensures !one && !two && !three && leftEdge && rightEdge ==> r == (if g == 1 then 2 else g)
    ensures !one && !two && !three && !leftEdge && !rightEdge ==> r == g
  {
    var down := if leftEdge then ShiftDown(g) else g;
    var up := if rightEdge then ShiftUp(down) else down;
    SelectDirect(up, one, two, three)
  }

  /** Shifting down and back up (or up and back down) returns to the starting gear
      unless the first shift hit a limit. */
  lemma ShiftsUndo(g: Gear)
    ensures g > 1 ==> ShiftUp(ShiftDown(g)) == g
    ensures g < 3 ==> ShiftDown(ShiftUp(g)) == g
    ensures ShiftDown(ShiftDown(ShiftDown(g))) == 1
    ensures ShiftUp(ShiftUp(ShiftUp(g))) == 3
  {
  }

  /** A higher gear never turns the pedal faster. */
  lemma MultiplierDecreasing(g1: Gear, g2: Gear)
    requires g1 < g2
    ensures Multiplier(g1) > Multiplier(g2)
  {
  }
}
