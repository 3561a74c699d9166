/**
  The topple state machine on block values: activation of a tip, the
  per-tick angle stepping, the completion test and the grid positions a tip
  settles on, for a merged pair (the game's CuboidTopple* functions) and for
  a single block of a split pair (CubeTopple*).

  The game also computes each block's in-flight position from the tilt with
  sin, cos and sqrt(2); that is presentation only and is not modelled:
  here a block keeps its resting position until the tick on which the tip
  completes, and then snaps to its new cell.
*/
module Topple {
  import opened Geometry
  import opened Resolver

  /** Angular speed of a block in degrees per tick (cube[i].speed). */
  const Speed: int := 10
  /** A tip turns the leading block through a quarter turn. */
  const QuarterTurn: int := 90
  /** Magnitude of the resting tilt. */
  const RestTilt: int := 45

  /**
    The puzzle state of one block: its position, the resting position
    captured when a tip starts (back), the signed angular rate (dr) and the
    three tilt vectors (current tilt theta, origin ori, completion limit).
  */
  datatype Block = Block(pos: Vec3, back: Vec3, dr: int, theta: Tilt, ori: Tilt, limit: Tilt)

  /** The tilt a leading block starts a tip from: -45 moving North or East, +45 moving South or West. */
  function StartTilt(d: Direction): int {
    -d.Sign() * RestTilt
  }

  /** Activation of the block that leads a tip: the dominant block, or the chosen block of a split pair. */
  function Lead(b: Block, d: Direction): (r: Block)
    ensures r.pos == b.pos && r.back == b.pos
    ensures (r.dr > 0 <==> d == North || d == East) && Abs(r.dr) == Speed
    ensures r.theta.At(d.Along()) == r.ori.At(d.Along()) == (if d == North || d == East then -RestTilt else RestTilt)
    ensures r.limit.At(d.Along()) - r.theta.At(d.Along()) == 9 * r.dr
    ensures r.theta.At(Across(d.Along())) == b.theta.At(Across(d.Along()))
    ensures r.ori.At(Across(d.Along())) == b.ori.At(Across(d.Along()))
    ensures r.limit.At(Across(d.Along())) == b.limit.At(Across(d.Along()))
  {
    var a := d.Along();
    var start := StartTilt(d);
    b.(back := b.pos, dr := d.Sign() * Speed, theta := b.theta.With(a, start),
       ori := b.ori.With(a, start), limit := b.limit.With(a, start + d.Sign() * QuarterTurn))
  }

  /**
    Activation of the recessive block of a merged pair: it captures its
    position and rate like the leader, but its tilt is not reset, and its
    limit is a quarter turn from whatever tilt it had.
  */
  function Follow(b: Block, d: Direction): (r: Block)
    ensures r.pos == b.pos && r.back == b.pos && r.theta == b.theta && r.ori == b.ori
    ensures (r.dr > 0 <==> d == North || d == East) && Abs(r.dr) == Speed
    ensures r.limit.At(d.Along()) - b.theta.At(d.Along()) == 9 * r.dr
    ensures r.limit.At(Across(d.Along())) == b.limit.At(Across(d.Along()))
  {
    var a := d.Along();
    b.(back := b.pos, dr := d.Sign() * Speed, limit := b.limit.With(a, b.theta.At(a) + d.Sign() * QuarterTurn))
  }

  /** One tick of angle stepping: the tilt about the axis of motion advances by dr. */
  function Turn(b: Block, d: Direction): (r: Block)
    ensures r.pos == b.pos && r.back == b.back && r.dr == b.dr && r.ori == b.ori && r.limit == b.limit
    ensures r.theta.At(d.Along()) == b.theta.At(d.Along()) + b.dr
    ensures r.theta.At(Across(d.Along())) == b.theta.At(Across(d.Along()))
  {
    b.(theta := b.theta.With(d.Along(), b.theta.At(d.Along()) + b.dr))
  }

  /** The completion test: the tilt has reached or passed the limit, in the sense of motion. */
  predicate Passed(d: Direction, b: Block) {
    var a := d.Along();
    if d.Sign() > 0 then b.theta.At(a) >= b.limit.At(a) else b.theta.At(a) <= b.limit.At(a)
  }

  /** n ticks of angle stepping. */
  function Turns(b: Block, d: Direction, n: nat): Block {
    if n == 0 then b else Turn(Turns(b, d, n - 1), d)
  }

  /**
    The tilt a single block is left at when its tip completes: North keeps
    the limit it reached, East takes the negated limit, South and West reset
    to -45.
  */
  function SingleRestTilt(d: Direction, b: Block): int {
    match d
    case North => b.limit.y
    case South => -RestTilt
    case West => -RestTilt
    case East => -b.limit.x
  }

  /**
    The tilt each block of a merged pair is left at when the tip completes.
    As in the game, a North tip gives BOTH blocks the recessive block's limit.
  */
  function MergedRestTilt(d: Direction, own: Block, follower: Block): int {
    if d == North then follower.limit.y else SingleRestTilt(d, own)
  }

  /**
    Where the recessive block settles, for the three modes: mode 1 and mode 3
    put it two cells ahead one block height higher or lower (which of the two
    depends on the direction's numbering), mode 2 puts it one cell ahead.
  */
  function Landing(d: Direction, mode: int, back: Vec3): Vec3
    requires 1 <= mode <= 3
  {
    var s := d.Step();
    if mode == 2 then back.Plus(s)
    else
      var lift := if mode == 1 then d.Sign() * Unit else -d.Sign() * Unit;
      back.Plus(s).Plus(s).Plus(Vec3(0, 0, lift))
  }

  /** The settle position of a recessive block; a mode outside 1..3 leaves it where it is. */
  function FollowTarget(d: Direction, mode: int, f: Block): Vec3 {
    if 1 <= mode <= 3 then Landing(d, mode, f.back) else f.pos
  }

  /** One tick of a single block's tip (CubeTopple*): turn, and settle one cell ahead once passed. */
  function CubeTick(d: Direction, b: Block): Block {
    var t := Turn(b, d);
    if Passed(d, t) then t.(pos := t.back.Plus(d.Step()), theta := t.theta.With(d.Along(), SingleRestTilt(d, t)))
    else t
  }

  /** One tick of a merged tip (CuboidTopple*), for the dominant block. */
  function LeadTick(d: Direction, lead: Block, follower: Block): Block {
    var t, f := Turn(lead, d), Turn(follower, d);
    if Passed(d, t) then t.(pos := t.back.Plus(d.Step()), theta := t.theta.With(d.Along(), MergedRestTilt(d, t, f)))
    else t
  }

  /** One tick of a merged tip (CuboidTopple*), for the recessive block. */
  function FollowTick(d: Direction, mode: int, lead: Block, follower: Block): Block {
    var t, f := Turn(lead, d), Turn(follower, d);
    if Passed(d, t) then f.(pos := FollowTarget(d, mode, f), theta := f.theta.With(d.Along(), MergedRestTilt(d, f, f)))
    else f
  }

  /** Ticking changes only the tilt about the axis of motion, by dr per tick. */
  lemma {:induction false} TurnsAdvance(b: Block, d: Direction, n: nat)
    ensures Turns(b, d, n) == b.(theta := b.theta.With(d.Along(), b.theta.At(d.Along()) + n * b.dr))
  {
    if n > 0 {
      TurnsAdvance(b, d, n - 1);
    }
  }

  /** After an activation the tilt passes the limit on the ninth tick and on no earlier one. */
  lemma NinthTickCompletes(b: Block, d: Direction)
    ensures forall k: nat :: k < 9 ==> !Passed(d, Turns(Lead(b, d), d, k))
    ensures Passed(d, Turns(Lead(b, d), d, 9))
  {
    var a := Lead(b, d);
    forall k: nat | k <= 9
      ensures Turns(a, d, k).theta.At(d.Along()) == StartTilt(d) + k * d.Sign() * Speed
      ensures Turns(a, d, k).limit == a.limit
    {
      TurnsAdvance(a, d, k);
    }
  }

  /**
    A single block's tip: the first eight ticks only turn it; the ninth moves
    it exactly one cell in the direction of travel, at the same height, and
    leaves it at a resting tilt of +45 after a North tip (the limit it
    reached) and -45 after any other.
  */
  lemma SingleToppleSettles(b: Block, d: Direction)
    ensures forall k: nat :: k < 8 ==> CubeTick(d, Turns(Lead(b, d), d, k)) == Turns(Lead(b, d), d, k + 1)
    ensures var e := CubeTick(d, Turns(Lead(b, d), d, 8));
      && e.pos == b.pos.Plus(d.Step())
      && e.theta.At(d.Along()) == (if d == North then RestTilt else -RestTilt)
      && e.theta.At(Across(d.Along())) == b.theta.At(Across(d.Along()))
  {
    NinthTickCompletes(b, d);
    var a := Lead(b, d);
    TurnsAdvance(a, d, 8);
  }

  /**
    A merged tip: the first eight ticks only turn both blocks; on the ninth
    the leader moves one cell ahead and the recessive block moves to its
    landing cell. The tilts it leaves are those of the game: a North tip
    leaves both blocks at the recessive block's old tilt plus 90 (so repeated
    North tips wind that tilt up), an East tip leaves the recessive block at
    minus its old tilt minus 90, and South and West reset both to -45.
  */
  lemma MergedToppleSettles(lb: Block, fb: Block, d: Direction, mode: int)
    ensures forall k: nat :: k < 8 ==>
      && LeadTick(d, Turns(Lead(lb, d), d, k), Turns(Follow(fb, d), d, k)) == Turns(Lead(lb, d), d, k + 1)
      && FollowTick(d, mode, Turns(Lead(lb, d), d, k), Turns(Follow(fb, d), d, k)) == Turns(Follow(fb, d), d, k + 1)
    ensures var l8, f8 := Turns(Lead(lb, d), d, 8), Turns(Follow(fb, d), d, 8);
      var l, f := LeadTick(d, l8, f8), FollowTick(d, mode, l8, f8);
      && l.pos == lb.pos.Plus(d.Step())
      && (1 <= mode <= 3 ==> f.pos == Landing(d, mode, fb.pos))
      && (d == North ==> l.theta.y == f.theta.y == fb.theta.y + QuarterTurn)
      && (d == East ==> l.theta.x == -RestTilt && f.theta.x == -fb.theta.x - QuarterTurn)
      && (d == South || d == West ==> l.theta.At(d.Along()) == f.theta.At(d.Along()) == -RestTilt)
  {
    NinthTickCompletes(lb, d);
    var a, f := Lead(lb, d), Follow(fb, d);
    forall k: nat | k < 8
      ensures LeadTick(d, Turns(a, d, k), Turns(f, d, k)) == Turns(a, d, k + 1)
      ensures FollowTick(d, mode, Turns(a, d, k), Turns(f, d, k)) == Turns(f, d, k + 1)
    {
      assert !Passed(d, Turns(a, d, k + 1));
    }
    TurnsAdvance(f, d, 8);
    TurnsAdvance(a, d, 8);
  }

  /** Every block of the pair rests on the floor: side by side at floor height, or the lower one of a stack. */
  predicate OnFloor(c0: Vec3, c1: Vec3) {
    if Stacked(c0, c1) then (if c0.z < c1.z then c0.z else c1.z) == Standing else c0.z == Standing && c1.z == Standing
  }

  /** The settle mode of a merged tip, in the game's numbering. */
  function SettleMode(d: Direction, c0: Vec3, c1: Vec3): (m: int)
    requires InLayout(c0, c1)
    ensures 1 <= m <= 3
  {
    ModeCode(d, MotionOf(d, c0, c1))
  }

  /** A pair lying along the direction, the follower just behind: it rolls up onto the leader's new cell. */
  lemma RollUpLands(d: Direction, lead: Vec3, trail: Vec3)
    requires LiesAlong(lead, trail, d.Along()) && Coord(trail, d.Along()) == Coord(lead, d.Along()) - d.Sign()
    ensures var lead', trail' := lead.Plus(d.Step()), Landing(d, ModeCode(d, RollUp), trail);
      Stacked(lead', trail') && trail'.z == lead'.z + Unit && lead'.z == lead.z
  {
  }

  /** A stacked pair, the follower on top: it rolls down to lie in front of the leader. */
  lemma RollDownLands(d: Direction, lead: Vec3, trail: Vec3)
    requires Stacked(lead, trail) && trail.z == lead.z + Unit
    ensures var lead', trail' := lead.Plus(d.Step()), Landing(d, ModeCode(d, RollDown), trail);
      LiesAlong(lead', trail', d.Along()) && trail' == lead'.Plus(d.Step()) && lead'.z == lead.z
  {
  }

  /** A pair lying across the direction slides one cell. */
  lemma SlideLands(d: Direction, lead: Vec3, trail: Vec3)
    requires LiesAlong(lead, trail, Across(d.Along())) && Abs(Coord(lead, Across(d.Along())) - Coord(trail, Across(d.Along()))) == 1
    ensures var lead', trail' := lead.Plus(d.Step()), Landing(d, ModeCode(d, Slide), trail);
      trail' == trail.Plus(d.Step()) && LiesAlong(lead', trail', Across(d.Along()))
      && Abs(Coord(lead', Across(d.Along())) - Coord(trail', Across(d.Along()))) == 1
  {
  }

  /**
    A completed merged tip keeps the pair together. The dominant block moves
    exactly one cell in the direction of travel at its own height. A pair
    lying along the direction rolls up onto the leader's new cell with the
    recessive block on top; a stacked pair rolls down to lie along the
    direction with the recessive block in front; a pair lying across the
    direction slides one cell. A pair resting on the floor still rests on it.
  */
  lemma MergedLandingKeepsPair(d: Direction, c0: Vec3, c1: Vec3)
    requires Adjacent(c0, c1)
    ensures InLayout(c0, c1)
    ensures var r := Leader(d, c0, c1);
      var lead, trail := Pick(r, c0, c1), Pick(1 - r, c0, c1);
      var lead', trail' := lead.Plus(d.Step()), Landing(d, SettleMode(d, c0, c1), trail);
      && Adjacent(lead', trail')
      && (OnFloor(c0, c1) ==> OnFloor(lead', trail'))
      && (MotionOf(d, c0, c1) == RollUp ==> Stacked(lead', trail') && trail'.z == lead'.z + Unit)
      && (MotionOf(d, c0, c1) == RollDown ==>
            LiesAlong(lead', trail', d.Along()) && trail' == lead'.Plus(d.Step()))
      && (MotionOf(d, c0, c1) == Slide ==>
            trail' == trail.Plus(d.Step()) && LiesAlong(lead', trail', Across(d.Along())))
  {
    var r := Leader(d, c0, c1);
    var lead, trail := Pick(r, c0, c1), Pick(1 - r, c0, c1);
    if Stacked(c0, c1) {
      RollDownLands(d, lead, trail);
    } else if LiesAlong(c0, c1, d.Along()) {
      RollUpLands(d, lead, trail);
    } else {
      SlideLands(d, lead, trail);
    }
  }
}
