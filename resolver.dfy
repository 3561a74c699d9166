/**
  The direction resolver: from the resting positions of the two blocks of a
  merged pair, decide which block leads a tip in a given direction (the
  dominant block) and which settle geometry (the mode) applies.

  The game writes one pair of functions per direction (NorthDOM/NorthMode,
  ...); they are modelled here one to one, and each is tied to a single
  direction-generic rule (Leader, MotionOf and ModeCode) that says what the
  answer means.
*/
module Resolver {
  import opened Geometry

  function Abs(n: int): nat {
    if n < 0 then -n else n
  }

  /** Layout case 1: same x and height, different y (the pair lies along y). */
  predicate LiesAlongY(c0: Vec3, c1: Vec3) {
    c0.x == c1.x && c0.y != c1.y && c0.z == c1.z
  }

  /** Layout case 2: different x, same y and height (the pair lies along x). */
  predicate LiesAlongX(c0: Vec3, c1: Vec3) {
    c0.x != c1.x && c0.y == c1.y && c0.z == c1.z
  }

  /** Layout case 3: same cell, different heights (one block on the other). */
  predicate Stacked(c0: Vec3, c1: Vec3) {
    c0.x == c1.x && c0.y == c1.y && c0.z != c1.z
  }

  predicate LiesAlong(c0: Vec3, c1: Vec3, a: Axis) {
    if a == X then LiesAlongX(c0, c1) else LiesAlongY(c0, c1)
  }

  /** One of the three layouts the resolver recognises; it has no answer for any other. */
  predicate InLayout(c0: Vec3, c1: Vec3) {
    LiesAlongY(c0, c1) || LiesAlongX(c0, c1) || Stacked(c0, c1)
  }

  /** The blocks touch: one cell apart side by side, or one block height apart on one cell. */
  predicate Adjacent(c0: Vec3, c1: Vec3) {
    || (LiesAlongY(c0, c1) && Abs(c0.y - c1.y) == 1)
    || (LiesAlongX(c0, c1) && Abs(c0.x - c1.x) == 1)
    || (Stacked(c0, c1) && Abs(c0.z - c1.z) == Unit)
  }

  function Pick(r: int, c0: Vec3, c1: Vec3): Vec3 {
    if r == 0 then c0 else c1
  }

  /**
    The direction-generic dominance rule: on a stacked pair the lower block
    leads; on a pair lying along the direction of travel the block further
    ahead leads; on a pair lying across it the block with the larger
    cross coordinate leads.
  */
  function Leader(d: Direction, c0: Vec3, c1: Vec3): (r: int)
    requires InLayout(c0, c1)
    ensures r == 0 || r == 1
    ensures var lead, trail := Pick(r, c0, c1), Pick(1 - r, c0, c1);
      && (Stacked(c0, c1) ==> lead.z < trail.z)
      && (LiesAlong(c0, c1, d.Along()) ==>
            d.Sign() * Coord(lead, d.Along()) > d.Sign() * Coord(trail, d.Along()))
      && (LiesAlong(c0, c1, Across(d.Along())) ==>
            Coord(lead, Across(d.Along())) > Coord(trail, Across(d.Along())))
  {
    var a := d.Along();
    if Stacked(c0, c1) then
      (if c0.z < c1.z then 0 else 1)
    else if LiesAlong(c0, c1, a) then
      (if d.Sign() * Coord(c0, a) > d.Sign() * Coord(c1, a) then 0 else 1)
    else
      (if Coord(c0, Across(a)) > Coord(c1, Across(a)) then 0 else 1)
  }

  /**
    What a merged tip does to the pair: a pair lying along the direction of
    travel rolls up onto one cell, a pair lying across it slides one cell,
    and a stacked pair rolls down to lie along the direction of travel.
  */
  datatype Motion = RollUp | Slide | RollDown

  function MotionOf(d: Direction, c0: Vec3, c1: Vec3): Motion
    requires InLayout(c0, c1)
  {
    if Stacked(c0, c1) then RollDown
    else if LiesAlong(c0, c1, d.Along()) then RollUp
    else Slide
  }

  /**
    The game's mode number for a motion. North and East number the motions
    1, 2, 3 as RollUp, Slide, RollDown; South and West number them the other
    way round, matching how their settle branches are written.
  */
  function ModeCode(d: Direction, m: Motion): int {
    match m
    case Slide => 2
    case RollUp => if d.Sign() > 0 then 1 else 3
    case RollDown => if d.Sign() > 0 then 3 else 1
  }

  function NorthDom(c0: Vec3, c1: Vec3): (r: int)
    requires InLayout(c0, c1)
    ensures r == Leader(North, c0, c1)
  {
    if LiesAlongY(c0, c1) then (if c0.y > c1.y then 0 else 1)
    else if LiesAlongX(c0, c1) then (if c0.x > c1.x then 0 else 1)
    else (if c0.z < c1.z then 0 else 1)
  }

  function NorthMode(c0: Vec3, c1: Vec3): (m: int)
    requires InLayout(c0, c1)
    ensures m == ModeCode(North, MotionOf(North, c0, c1))
  {
    if LiesAlongY(c0, c1) then 1
    else if LiesAlongX(c0, c1) then 2
    else 3
  }

  function SouthDom(c0: Vec3, c1: Vec3): (r: int)
    requires InLayout(c0, c1)
    ensures r == Leader(South, c0, c1)
  {
    if LiesAlongY(c0, c1) then (if c0.y < c1.y then 0 else 1)
    else if LiesAlongX(c0, c1) then (if c0.x > c1.x then 0 else 1)
    else (if c0.z < c1.z then 0 else 1)
  }

  function SouthMode(c0: Vec3, c1: Vec3): (m: int)
    requires InLayout(c0, c1)
    ensures m == ModeCode(South, MotionOf(South, c0, c1))
  {
    if LiesAlongY(c0, c1) then 3
    else if LiesAlongX(c0, c1) then 2
    else 1
  }

  function EastDom(c0: Vec3, c1: Vec3): (r: int)
    requires InLayout(c0, c1)
    ensures r == Leader(East, c0, c1)
  {
    if LiesAlongY(c0, c1) then (if c0.y > c1.y then 0 else 1)
    else if LiesAlongX(c0, c1) then (if c0.x > c1.x then 0 else 1)
    else (if c0.z < c1.z then 0 else 1)
  }

  function EastMode(c0: Vec3, c1: Vec3): (m: int)
    requires InLayout(c0, c1)
    ensures m == ModeCode(East, MotionOf(East, c0, c1))
  {
    if LiesAlongY(c0, c1) then 2
    else if LiesAlongX(c0, c1) then 1
    else 3
  }

  function WestDom(c0: Vec3, c1: Vec3): (r: int)
    requires InLayout(c0, c1)
    ensures r == Leader(West, c0, c1)
  {
    if LiesAlongY(c0, c1) then (if c0.y > c1.y then 0 else 1)
    else if LiesAlongX(c0, c1) then (if c0.x < c1.x then 0 else 1)
    else (if c0.z < c1.z then 0 else 1)
  }

  function WestMode(c0: Vec3, c1: Vec3): (m: int)
    requires InLayout(c0, c1)
    ensures m == ModeCode(West, MotionOf(West, c0, c1))
  {
    if LiesAlongY(c0, c1) then 2
    else if LiesAlongX(c0, c1) then 3
    else 1
  }

  /** The dominant block for a direction, as the activation of a merged tip selects it. */
  function Dominant(d: Direction, c0: Vec3, c1: Vec3): (r: int)
    requires InLayout(c0, c1)
    ensures r == Leader(d, c0, c1)
  {
    match d
    case North => NorthDom(c0, c1)
    case South => SouthDom(c0, c1)
    case West => WestDom(c0, c1)
    case East => EastDom(c0, c1)
  }

  /** The mode for a direction, as the activation of a merged tip selects it. */
  function Mode(d: Direction, c0: Vec3, c1: Vec3): (m: int)
    requires InLayout(c0, c1)
    ensures m == ModeCode(d, MotionOf(d, c0, c1))
  {
    match d
    case North => NorthMode(c0, c1)
    case South => SouthMode(c0, c1)
    case West => WestMode(c0, c1)
    case East => EastMode(c0, c1)
  }

  /**
    The resolver answers exactly one layout: the three cases exclude each
    other, so the order in which the game tests them does not matter, and a
    touching pair is always in one of them.
  */
  lemma LayoutsExclusive(c0: Vec3, c1: Vec3)
    ensures !(LiesAlongY(c0, c1) && LiesAlongX(c0, c1))
    ensures !(LiesAlongY(c0, c1) && Stacked(c0, c1))
    ensures !(LiesAlongX(c0, c1) && Stacked(c0, c1))
    ensures Adjacent(c0, c1) ==> InLayout(c0, c1)
  {
  }

  /** Swapping the block labels swaps the dominant block and keeps the mode. */
  lemma ResolverSymmetric(d: Direction, c0: Vec3, c1: Vec3)
    requires InLayout(c0, c1)
    ensures InLayout(c1, c0)
    ensures Dominant(d, c1, c0) == 1 - Dominant(d, c0, c1)
    ensures Mode(d, c1, c0) == Mode(d, c0, c1)
  {
  }
}
