/**
  Grid geometry shared by the puzzle model: block positions, the four move
  directions and the two tilt angles of a block.

  Heights are counted in tenths of a grid unit, so that the floor tile's
  half thickness (0.1), a block's half extent (0.5) and the fall step (0.1)
  of the game are all whole numbers. Horizontal coordinates are grid cells.
*/
module Geometry {

  /** The board is Dim x Dim tiles. */
  const Dim: int := 10

  /** Half thickness of a floor tile (0.1), in tenths. */
  const Floor: int := 1
  /** Half extent of a block (0.5), in tenths. */
  const HalfExtent: int := 5
  /** Height of the centre of a block resting on the floor: 0.1 + 0.5. */
  const Standing: int := Floor + HalfExtent
  /** Height of one block. */
  const Unit: int := 2 * HalfExtent
  /** Height of the centre of the upper block of a stacked pair: 0.1 + 3 * 0.5. */
  const Upper: int := Floor + 3 * HalfExtent

  /** A block position: grid cell (x, y) and height z in tenths. */
  datatype Vec3 = Vec3(x: int, y: int, z: int) {
    function Plus(d: Vec3): Vec3 {
      Vec3(x + d.x, y + d.y, z + d.z)
    }
  }

  datatype Axis = X | Y

  function Coord(p: Vec3, a: Axis): int {
    if a == X then p.x else p.y
  }

  function Across(a: Axis): Axis {
    if a == X then Y else X
  }

  /**
    The four move directions. North and South tip about the x axis and move
    along y; West and East tip about the y axis and move along x. North and
    East move towards larger coordinates.
  */
  datatype Direction = North | South | West | East {

    /** The input code the game uses for the direction. */
    function Code(): int {
      match this
      case North => 1
      case South => 2
      case West => 3
      case East => 4
    }

    /** The horizontal axis the direction moves along (and whose tilt changes). */
    function Along(): Axis {
      if this == North || this == South then Y else X
    }

    /** +1 when the direction moves towards larger coordinates, -1 otherwise. */
    function Sign(): int {
      if this == North || this == East then 1 else -1
    }

    /** One grid cell in this direction. */
    function Step(): (s: Vec3)
      ensures s.z == 0
      ensures Coord(s, Along()) == Sign() && Coord(s, Across(Along())) == 0
    {
      if Along() == X then Vec3(Sign(), 0, 0) else Vec3(0, Sign(), 0)
    }
  }

  predicate IsDirectionCode(c: int) {
    1 <= c <= 4
  }

  /** The direction an input code stands for. */
  function DirectionOf(c: int): (d: Direction)
    requires IsDirectionCode(c)
    ensures d.Code() == c
  {
    if c == 1 then North else if c == 2 then South else if c == 3 then West else East
  }

  /** A block's tilt (theta), origin (ori) and limit angles: degrees about the x and y axes. */
  datatype Tilt = Tilt(x: int, y: int) {

    /** The angle of a move along the given axis: moving along x turns theta.x, along y theta.y. */
    function At(a: Axis): int {
      if a == X then x else y
    }

    function With(a: Axis, v: int): (t: Tilt)
      ensures t.At(a) == v && t.At(Across(a)) == At(Across(a))
    {
      if a == X then Tilt(v, y) else Tilt(x, v)
    }
  }
}
