/**
  The game session: the two blocks, the board, the rule flags and the
  session counters, updated in place by the game's per-frame engine
  (gameEngine), its checkers, the topple activation and Initialize.
*/
module Game {
  import opened Geometry
  import opened Resolver
  import opened Topple
  import opened Levels
  import opened Rules

  /** Size of the per-level move and timer counters. */
  const Counters: int := 10
  /** Height lost per tick of a fall (0.1), in tenths. */
  const FallStep: int := 1
  /** A fall ends once the watched block is at or below this height (-10.0), in tenths. */
  const FallDepth: int := -100
  /** Tilt both blocks are given when a level is entered. */
  const EntryTilt: Tilt := Tilt(-RestTilt, -RestTilt)

  /** A fall tick: the block sinks by one step. */
  function Sink(b: Block): (r: Block)
    ensures r.pos.x == b.pos.x && r.pos.y == b.pos.y && r.pos.z == b.pos.z - FallStep
    ensures r.(pos := b.pos) == b
  {
    b.(pos := b.pos.(z := b.pos.z - FallStep))
  }

  /** n fall ticks. */
  function Sunk(b: Block, n: nat): Block {
    if n == 0 then b else Sink(Sunk(b, n - 1))
  }

  /** Each fall tick lowers the block by one step and changes nothing else. */
  lemma {:induction false} SunkLowers(b: Block, n: nat)
    ensures Sunk(b, n) == b.(pos := b.pos.(z := b.pos.z - n * FallStep))
  {
    if n > 0 {
      SunkLowers(b, n - 1);
    }
  }

  /**
    A fall ends: a block above the depth at which a fall is over reaches it
    after exactly as many ticks as tenths separate the two, and not before.
  */
  lemma FallEnds(b: Block)
    requires b.pos.z > FallDepth
    ensures Sunk(b, b.pos.z - FallDepth).pos.z == FallDepth
    ensures forall k: nat :: k < b.pos.z - FallDepth ==> Sunk(b, k).pos.z > FallDepth
  {
    forall k: nat | k <= b.pos.z - FallDepth
      ensures Sunk(b, k).pos.z == b.pos.z - k
    {
      SunkLowers(b, k);
    }
  }

  /** The pair lies along one axis: same x and different y, or same y and different x. */
  predicate Aligned(p: Vec3, q: Vec3) {
    (p.x == q.x && p.y != q.y) || (p.y == q.y && p.x != q.x)
  }

  /** A fall tick on the pair: a merged pair sinks together; of a split pair only block w sinks. */
  function SinkPair(p: seq<Block>, together: bool, w: int): (r: seq<Block>)
    requires |p| == 2 && (w == 0 || w == 1)
    ensures |r| == 2 && r[w].pos.z == p[w].pos.z - FallStep
    ensures r[w] == Sink(p[w]) && r[1 - w] == if together then Sink(p[1 - w]) else p[1 - w]
  {
    if together then [Sink(p[0]), Sink(p[1])] else p[w := Sink(p[w])]
  }

  class Game {
    const board: array2<int>
    const cube: array<Block>
    const moves: array<int>
    const timer: array<int>
    /** The level table as the game built it, and the level store played on, which differs from it only in switch flags. */
    const table: seq<Level>
    var levels: seq<Level>
    var score: int
    var currentLevel: int
    /** Dominant (leading) and recessive block of the current tip. */
    var dom: int
    var rec: int
    var mode: int
    /** 0 when no tip is under way, otherwise the direction code of the tip. */
    var toppling: int
    var merged: bool
    /** The block a split pair moves. */
    var chosen: int
    var paused: bool
    var falling: bool
    /** The block the fall watches (hola) and the other one. */
    var hola: int
    var other: int
    /** The pair dropped through the goal tile: the level is completed when the fall ends. */
    var rightMove: bool
    var gameOver: bool

    /** The tile under (x, y); a cell off the board reads as empty. */
    function TileAt(x: int, y: int): int
      reads this, board
      requires board.Length0 == Dim && board.Length1 == Dim
    {
      if InBounds(x, y) then board[x, y] else Empty
    }

    /** The block at p stands on a tile. */
    predicate Supported(p: Vec3)
      reads this, board
      requires board.Length0 == Dim && board.Length1 == Dim
    {
      InBounds(p.x, p.y) && board[p.x, p.y] != Empty
    }

    /**
      The facts that hold at every moment, also once the game is over (see
      Store): the shapes of the arrays, the level store, the ranges of the
      indices, a merged pair touching, and a merged tip resolved from where it
      started.
    */
    predicate Shape()
      reads this, board, cube, moves
    {
      && board.Length0 == Dim && board.Length1 == Dim
      && cube.Length == 2 && moves.Length == Counters && timer.Length == Counters && moves != timer
      && Intact(levels, table)
      && 0 <= currentLevel <= 3
      && 0 <= toppling <= 4
      && (dom == 0 || dom == 1) && (chosen == 0 || chosen == 1) && (hola == 0 || hola == 1)
      && (toppling != 0 ==> rec == 1 - dom)
      && (falling ==> other == 1 - hola)
      && (forall i :: 0 <= i < Counters ==> moves[i] >= 0)
      && (rightMove ==> !gameOver && moves[currentLevel] >= 1)
      && (merged ==> Adjacent(cube[0].pos, cube[1].pos))
      && (toppling != 0 && merged ==>
            var d, b0, b1 := DirectionOf(toppling), cube[0].back, cube[1].back;
            Adjacent(b0, b1) && dom == Leader(d, b0, b1) && mode == SettleMode(d, b0, b1))
    }

    /** Shape, and the game is over exactly when the level index is past the last level. */
    predicate Store()
      reads this, board, cube, moves
    {
      Shape() && (gameOver <==> currentLevel == 3)
    }

    /** The pair is where the current level put it and nothing has happened yet. */
    predicate AtStart()
      reads this, board, cube, moves
      requires Store() && currentLevel < 3
    {
      var l := levels[currentLevel];
      && cube[0].pos == l.cube0 && cube[1].pos == l.cube1
      && merged && toppling == 0 && !falling && !rightMove
      && board[l.cube0.x, l.cube0.y] != Empty && board[l.cube1.x, l.cube1.y] != Empty
    }

    /**
      The facts that hold while the game is being played: the level timer has
      started, a level with no moves yet is at its start, the pair dropping
      through the goal is falling, a block moving in a tip
      has not left its starting cell, and blocks that are not falling rest on
      the floor.
    */
    predicate Valid()
      reads this, board, cube, moves, timer
    {
      && Store()
      && (!gameOver ==>
            && timer[currentLevel] >= 1
            && (moves[currentLevel] == 0 ==> AtStart())
            && (rightMove ==> falling)
            && (toppling != 0 && !falling ==>
                  cube[dom].pos == cube[dom].back && (merged ==> cube[rec].pos == cube[rec].back))
            && (!merged && !falling ==> cube[0].pos.z == Standing && cube[1].pos.z == Standing)
            && (merged && !falling ==> OnFloor(cube[0].pos, cube[1].pos)))
    }

    /** Program start: the level table is built, level 1 is entered and the score is zero. */
    constructor ()
      ensures Valid()
      ensures score == 0 && currentLevel == 0 && !gameOver && !paused
      ensures table == Table() && merged && toppling == 0 && !falling && dom == 0
      ensures cube[0].pos == table[0].cube0 && cube[1].pos == table[0].cube1
      ensures forall x, y :: InBounds(x, y) ==> board[x, y] == EntryTile(table[0], x, y)
      ensures forall i :: 0 <= i < Counters ==> moves[i] == 0
    {
      board := new int[Dim, Dim]((x, y) => Empty);
      cube := new Block[2](i => Block(Vec3(i, 0, Standing), Vec3(0, 0, 0), 0, Tilt(0, 0), Tilt(0, 0), Tilt(0, 0)));
      moves := new int[Counters](i => 0);
      timer := new int[Counters](i => 0);
      table := Table();
      levels := table;
      score := 0;
      currentLevel := 0;
      dom, rec, mode, toppling := 0, 0, 0, 0;
      merged, chosen, paused, falling := false, 0, false, false;
      hola, other := 0, 0;
      rightMove, gameOver := false, false;
      new;
      TableWellFormed();
      Initialize();
      score := 0;
    }

    /** updateScore: add the points of the completed level. */
    method UpdateScore()
      requires Store() && currentLevel < 3 && moves[currentLevel] >= 1 && timer[currentLevel] >= 1
      modifies this`score
      ensures score == old(score) + ScoreGain(moves[currentLevel], timer[currentLevel])
    {
      score := score + ScoreGain(moves[currentLevel], timer[currentLevel]);
    }

    /**
      Initialize: complete the level when the pair dropped through the goal,
      then enter the current level, or end the game after the last one.
    */
    method Initialize()
      requires Store() && (rightMove ==> timer[currentLevel] >= 1)
      modifies this`score, this`currentLevel, this`rightMove, this`gameOver
      modifies this`dom, this`merged, this`toppling, this`falling, this`paused, this`levels, board, cube, timer
      ensures Valid() && !rightMove
      ensures currentLevel == old(currentLevel) + (if old(rightMove) then 1 else 0)
      ensures score == old(score) + (if old(rightMove) then ScoreGain(old(moves[currentLevel]), old(timer[currentLevel])) else 0)
      ensures gameOver <==> currentLevel > 2
      ensures forall i :: 0 <= i < Counters && i != currentLevel ==> timer[i] == old(timer[i])
      ensures gameOver ==> timer[currentLevel] == (if old(rightMove) then 0 else old(timer[currentLevel]))
      ensures gameOver ==> (cube[..] == old(cube[..]) && levels == old(levels) && toppling == old(toppling)
        && merged == old(merged) && falling == old(falling) && dom == old(dom) && paused == old(paused)
        && forall x, y :: InBounds(x, y) ==> board[x, y] == old(board[x, y]))
      ensures !gameOver ==> AtStart()
      ensures !gameOver ==>
        var l := old(levels)[currentLevel];
        && levels == old(levels)[currentLevel := l.(switches := Armed(l.switches))]
        && dom == 0 && merged && toppling == 0 && !falling && !paused && timer[currentLevel] == 1
        && cube[0] == old(cube[0]).(pos := l.cube0, theta := EntryTilt, ori := EntryTilt)
        && cube[1] == old(cube[1]).(pos := l.cube1, theta := EntryTilt, ori := EntryTilt)
        && forall x, y :: InBounds(x, y) ==> board[x, y] == EntryTile(l, x, y)
    {
      if rightMove {
        CompleteLevel();
      }
      if currentLevel > 2 {
        gameOver := true;
        return;
      }
      EnterLevel();
    }

    /** The first half of Initialize, taken when the pair dropped through the goal: score the level and move on. */
    method CompleteLevel()
      requires Store() && rightMove && timer[currentLevel] >= 1
      modifies this`score, this`currentLevel, this`rightMove, timer
      ensures Shape() && !rightMove && !gameOver
      ensures currentLevel == old(currentLevel) + 1
      ensures score == old(score) + ScoreGain(old(moves[currentLevel]), old(timer[currentLevel]))
      ensures timer[..] == old(timer[..])[currentLevel := 0]
    {
      UpdateScore();
      currentLevel := currentLevel + 1;
      timer[currentLevel] := 0;
      rightMove := false;
    }

    /** The second half of Initialize: the pair, the board and the flags are set up for the current level. */
    method EnterLevel()
      requires Store() && currentLevel < 3 && !rightMove
      modifies this`dom, this`merged, this`toppling, this`falling, this`paused, this`levels, board, cube, timer
      ensures Valid() && AtStart()
      ensures var l := old(levels)[currentLevel];
        && levels == old(levels)[currentLevel := l.(switches := Armed(l.switches))]
        && dom == 0 && merged && toppling == 0 && !falling && !paused
        && timer[..] == old(timer[..])[currentLevel := 1]
        && cube[0] == old(cube[0]).(pos := l.cube0, theta := EntryTilt, ori := EntryTilt)
        && cube[1] == old(cube[1]).(pos := l.cube1, theta := EntryTilt, ori := EntryTilt)
        && forall x, y :: InBounds(x, y) ==> board[x, y] == EntryTile(l, x, y)
    {
      var l := levels[currentLevel];
      SetUpBoard();
      IntactUpdate(old(levels), table, currentLevel, Armed(l.switches));
      EntryTiles(l);
      PlacePair();
    }

    /** The board and switch part of entering a level: the copy, the switch pass and the cross pass. */
    method SetUpBoard()
      requires board.Length0 == Dim && board.Length1 == Dim
      requires 0 <= currentLevel < |levels| && WellFormedLevel(levels[currentLevel])
      modifies this`levels, board
      ensures var l := old(levels)[currentLevel];
        && levels == old(levels)[currentLevel := l.(switches := Armed(l.switches))]
        && forall x, y :: InBounds(x, y) ==> board[x, y] == EntryTile(l, x, y)
    {
      var l := levels[currentLevel];
      LoadBoard(l);
      ArmSwitches();
      MarkCrosses();
    }

    /** The block and flag part of entering a level: the pair at its start cells, resting, merged and idle. */
    method PlacePair()
      requires Shape() && currentLevel < 3 && !rightMove && !gameOver
      requires var l := levels[currentLevel];
        board[l.cube0.x, l.cube0.y] != Empty && board[l.cube1.x, l.cube1.y] != Empty
      modifies this`dom, this`merged, this`toppling, this`falling, this`paused, cube, timer
      ensures Valid() && AtStart()
      ensures var l := levels[currentLevel];
        && dom == 0 && merged && toppling == 0 && !falling && !paused
        && timer[..] == old(timer[..])[currentLevel := 1]
        && cube[0] == old(cube[0]).(pos := l.cube0, theta := EntryTilt, ori := EntryTilt)
        && cube[1] == old(cube[1]).(pos := l.cube1, theta := EntryTilt, ori := EntryTilt)
    {
      var l := levels[currentLevel];
      assert WellFormedLevel(l);
      cube[0], cube[1] := cube[0].(pos := l.cube0, theta := EntryTilt, ori := EntryTilt),
                          cube[1].(pos := l.cube1, theta := EntryTilt, ori := EntryTilt);
      timer[currentLevel] := 1;
      dom, merged, toppling, falling, paused := 0, true, 0, false, false;
    }

    /** The board copy of Initialize: every tile is taken from the level's matrix. */
    method LoadBoard(l: Level)
      requires board.Length0 == Dim && board.Length1 == Dim && WellFormedLevel(l)
      modifies board
      ensures forall x, y :: InBounds(x, y) ==> board[x, y] == l.matrix[x][y]
    {
      var i := 0;
      while i < Dim
        invariant 0 <= i <= Dim
        invariant forall x, y :: 0 <= x < i && 0 <= y < Dim ==> board[x, y] == l.matrix[x][y]
      {
        var j := 0;
        while j < Dim
          invariant 0 <= j <= Dim
          invariant forall x, y :: 0 <= x < i && 0 <= y < Dim ==> board[x, y] == l.matrix[x][y]
          invariant forall y :: 0 <= y < j ==> board[i, y] == l.matrix[i][y]
        {
          board[i, j] := l.matrix[i][j];
          j := j + 1;
        }
        i := i + 1;
      }
    }

    /** The switch pass of Initialize: every switch of the level is armed and its trigger becomes a switch tile. */
    method ArmSwitches()
      requires board.Length0 == Dim && board.Length1 == Dim
      requires 0 <= currentLevel < |levels| && WellFormedLevel(levels[currentLevel])
      modifies this`levels, board
      ensures var l := old(levels)[currentLevel]; levels == old(levels)[currentLevel := l.(switches := Armed(l.switches))]
      ensures var sws := old(levels)[currentLevel].switches;
        forall x, y :: InBounds(x, y) ==>
          board[x, y] == if SwitchAmong(sws, |sws|, x, y) then SwitchTile else old(board[x, y])
    {
      var l := levels[currentLevel];
      var sws := l.switches;
      var armed := sws;
      var k := 0;
      while k < |sws|
        modifies board
        invariant 0 <= k <= |sws| && |armed| == |sws|
        invariant forall n :: 0 <= n < |sws| ==> armed[n] == if n < k then sws[n].(used := false) else sws[n]
        invariant forall x, y :: InBounds(x, y) ==>
          board[x, y] == if SwitchAmong(sws, k, x, y) then SwitchTile else old(board[x, y])
      {
        armed := armed[k := armed[k].(used := false)];
        var p := sws[k].place;
        board[p.x, p.y] := SwitchTile;
        forall x, y | InBounds(x, y) {
          SwitchAmongStep(sws, k, x, y);
        }
        k := k + 1;
      }
      assert armed == Armed(sws);
      levels := levels[currentLevel := l.(switches := armed)];
    }

    /** The cross pass of Initialize: every cross place becomes a cross tile. */
    method MarkCrosses()
      requires board.Length0 == Dim && board.Length1 == Dim
      requires 0 <= currentLevel < |levels| && WellFormedLevel(levels[currentLevel])
      modifies board
      ensures var cs := levels[currentLevel].crosses;
        forall x, y :: InBounds(x, y) ==>
          board[x, y] == if CrossAmong(cs, |cs|, x, y) then CrossTile else old(board[x, y])
    {
      var cs := levels[currentLevel].crosses;
      var k := 0;
      while k < |cs|
        invariant 0 <= k <= |cs|
        invariant forall x, y :: InBounds(x, y) ==>
          board[x, y] == if CrossAmong(cs, k, x, y) then CrossTile else old(board[x, y])
      {
        var p := cs[k].place;
        board[p.x, p.y] := CrossTile;
        forall x, y | InBounds(x, y) {
          CrossAmongStep(cs, k, x, y);
        }
        k := k + 1;
      }
    }

    /** What a level with no moves yet looks like to the checkers: an idle pair lying side by side on two tiles. */
    lemma StartFacts()
      requires Valid() && !gameOver && moves[currentLevel] == 0
      ensures merged && toppling == 0 && !falling && !rightMove
      ensures !(cube[0].pos.x == cube[1].pos.x && cube[0].pos.y == cube[1].pos.y)
      ensures Supported(cube[0].pos) && Supported(cube[1].pos)
    {
      assert WellFormedLevel(levels[currentLevel]);
    }

    /**
      merge_checker: a split pair whose blocks come to rest on neighbouring
      cells becomes a merged pair again.
    */
    method MergeChecker()
      requires Valid() && !gameOver
      modifies this`merged
      ensures Valid()
      ensures merged <==> old(merged) || (Neighbours(cube[0].pos, cube[1].pos) && toppling == 0 && !falling)
    {
      if Neighbours(cube[0].pos, cube[1].pos) {
        if !merged && toppling == 0 && !falling {
          merged := true;
        }
      }
    }

    /** The pair stands stacked, idle, on a tile of the given kind: the trigger of orange_checker and black_checker. */
    predicate StackedOn(tile: int)
      reads this, board, cube
      requires board.Length0 == Dim && board.Length1 == Dim && cube.Length == 2
    {
      StackedPair(cube[0].pos, cube[1].pos) && merged && !falling && TileAt(cube[0].pos.x, cube[0].pos.y) == tile
    }

    /** orange_checker: a stacked pair standing idle on an orange tile starts to drop, watching block 0. */
    method OrangeChecker()
      requires Valid() && !gameOver
      modifies this`falling, this`hola, this`other
      ensures Valid()
      ensures old(StackedOn(Orange)) && toppling == 0 ==> falling && hola == 0 && other == 1
      ensures !(old(StackedOn(Orange)) && toppling == 0) ==>
        falling == old(falling) && hola == old(hola) && other == old(other)
    {
      if StackedPair(cube[0].pos, cube[1].pos) && toppling == 0 && merged && !falling
        && TileAt(cube[0].pos.x, cube[0].pos.y) == Orange
      {
        if moves[currentLevel] == 0 {
          StartFacts();
        }
        falling, hola, other := true, 0, 1;
      }
    }

    /**
      black_checker: a stacked pair standing on the goal tile drops through
      it, watching block 0, and the level counts as completed when the fall
      ends. Unlike the orange tile, a tip being under way does not stop it.
    */
    method BlackChecker()
      requires Valid() && !gameOver
      modifies this`falling, this`hola, this`other, this`rightMove
      ensures Valid()
      ensures old(StackedOn(Black)) ==> falling && hola == 0 && other == 1 && rightMove
      ensures !old(StackedOn(Black)) ==>
        falling == old(falling) && hola == old(hola) && other == old(other) && rightMove == old(rightMove)
    {
      if StackedPair(cube[0].pos, cube[1].pos) && merged && !falling
        && TileAt(cube[0].pos.x, cube[0].pos.y) == Black
      {
        if moves[currentLevel] == 0 {
          StartFacts();
        }
        falling, hola, other, rightMove := true, 0, 1, true;
      }
    }

    /** The guard of cross_checker apart from the place: an idle merged pair standing on one cell. */
    predicate OnOneCell()
      reads this, cube
      requires cube.Length == 2
    {
      merged && !falling && toppling == 0 && cube[0].pos.x == cube[1].pos.x && cube[0].pos.y == cube[1].pos.y
    }

    /**
      cross_checker: an idle stacked pair on the place of a cross splits,
      block 0 staying on the place and block 1 going to the cross's other
      cell, and block 0 becomes the chosen one. Only the first cross of the
      level whose place matches acts.
    */
    method CrossChecker()
      requires Valid() && !gameOver
      modifies cube, this`merged, this`chosen
      ensures Valid()
      ensures var cs, p0 := levels[currentLevel].crosses, old(cube[0].pos);
        var k := FirstCross(cs, p0.x, p0.y);
        if old(OnOneCell()) && k >= 0 then
          && cube[0] == old(cube[0]).(pos := cs[k].place) && cube[1] == old(cube[1]).(pos := cs[k].other)
          && !merged && chosen == 0
        else
          cube[0] == old(cube[0]) && cube[1] == old(cube[1]) && merged == old(merged) && chosen == old(chosen)
    {
      var cs := levels[currentLevel].crosses;
      assert WellFormedLevel(levels[currentLevel]);
      ghost var p0 := cube[0].pos;
      var k := 0;
      while k < |cs|
        invariant 0 <= k <= |cs|
        invariant cube[0] == old(cube[0]) && cube[1] == old(cube[1]) && merged == old(merged) && chosen == old(chosen)
        invariant OnOneCell() ==> forall j :: 0 <= j < k ==> !OnCell(cs[j].place, p0.x, p0.y)
      {
        if OnOneCell() && OnCell(cs[k].place, cube[0].pos.x, cube[0].pos.y) {
          if moves[currentLevel] == 0 {
            StartFacts();
          }
          cube[0], cube[1] := cube[0].(pos := cs[k].place), cube[1].(pos := cs[k].other);
          merged, chosen := false, 0;
          break;
        }
        k := k + 1;
      }
    }

    /** The inner loop of switch_checker: every cell of the list becomes a normal tile. */
    method RevealCells(cells: seq<Cell>)
      requires board.Length0 == Dim && board.Length1 == Dim
      requires forall j :: 0 <= j < |cells| ==> InBounds(cells[j].x, cells[j].y)
      modifies board
      ensures forall x, y :: InBounds(x, y) ==> board[x, y] == if Cell(x, y) in cells then Normal else old(board[x, y])
    {
      var j := 0;
      while j < |cells|
        invariant 0 <= j <= |cells|
        invariant forall x, y :: InBounds(x, y) ==>
          board[x, y] == if Cell(x, y) in cells[..j] then Normal else old(board[x, y])
      {
        assert cells[..j + 1] == cells[..j] + [cells[j]];
        board[cells[j].x, cells[j].y] := Normal;
        j := j + 1;
      }
      assert cells[..j] == cells;
    }

    /**
      switch_checker: while the pair is idle, every switch with a block on its
      trigger that has not fired since the level was entered fires: it is
      marked used and the cells it lists become normal tiles. No other tile
      changes.
    */
    method SwitchChecker()
      requires Valid() && !gameOver
      modifies this`levels, board
      ensures Valid()
      ensures var l, p0, p1 := old(levels[currentLevel]), cube[0].pos, cube[1].pos;
        var idle := !falling && toppling == 0;
        && levels == old(levels)[currentLevel := if idle then l.(switches := VisitAll(l.switches, p0, p1)) else l]
        && forall x, y :: InBounds(x, y) ==>
          board[x, y] == if idle && RevealedBy(l.switches, |l.switches|, p0, p1, x, y) then Normal else old(board[x, y])
    {
      var l := levels[currentLevel];
      assert WellFormedLevel(l);
      var visited := VisitSwitches(l.switches, cube[0].pos, cube[1].pos, !falling && toppling == 0);
      IntactUpdate(levels, table, currentLevel, visited);
      levels := levels[currentLevel := l.(switches := visited)];
    }

    /** The loop of switch_checker over the level's switches, returning the switches with their new flags. */
    method VisitSwitches(sws: seq<Switch>, p0: Vec3, p1: Vec3, idle: bool) returns (visited: seq<Switch>)
      requires board.Length0 == Dim && board.Length1 == Dim
      requires forall k, j :: 0 <= k < |sws| && 0 <= j < |sws[k].locations| ==>
        InBounds(sws[k].locations[j].x, sws[k].locations[j].y)
      modifies board
      ensures visited == if idle then VisitAll(sws, p0, p1) else sws
      ensures forall x, y :: InBounds(x, y) ==>
        board[x, y] == if idle && RevealedBy(sws, |sws|, p0, p1, x, y) then Normal else old(board[x, y])
    {
      visited := sws;
      var k := 0;
      while k < |sws|
        invariant 0 <= k <= |sws| && |visited| == |sws|
        invariant forall n :: 0 <= n < |sws| ==> visited[n] == if n < k && idle then Visit(sws[n], p0, p1) else sws[n]
        invariant forall x, y :: InBounds(x, y) ==>
          board[x, y] == if idle && RevealedBy(sws, k, p0, p1, x, y) then Normal else old(board[x, y])
      {
        if idle && (OnCell(p0, sws[k].place.x, sws[k].place.y) || OnCell(p1, sws[k].place.x, sws[k].place.y)) {
          if !visited[k].used {
            visited := visited[k := visited[k].(used := true)];
            RevealCells(sws[k].locations);
          }
        }
        forall x, y | InBounds(x, y) {
          RevealedByStep(sws, k, p0, p1, x, y);
        }
        k := k + 1;
      }
      if idle {
        assert visited == VisitAll(sws, p0, p1);
      } else {
        assert visited == sws;
      }
    }

    /** fall_checker: the first block, in index order, that is off the board or over an empty cell, or -1 when both are supported. */
    function FallCandidate(): (r: int)
      reads this, board, cube
      requires board.Length0 == Dim && board.Length1 == Dim && cube.Length == 2
      ensures -1 <= r <= 1
      ensures r == -1 <==> Supported(cube[0].pos) && Supported(cube[1].pos)
      ensures r >= 0 ==> !Supported(cube[r].pos) && (r == 1 ==> Supported(cube[0].pos))
    {
      if !Supported(cube[0].pos) then 0 else if !Supported(cube[1].pos) then 1 else -1
    }

    /**
      The pair as the start of a fall watching block c leaves it: a merged
      pair that is not lying along an axis is re-stacked on c's cell, c on
      top; any other pair stays where it is.
    */
    function Restacked(c: int): (p: seq<Block>)
      reads this, cube
      requires cube.Length == 2 && (c == 0 || c == 1)
      ensures |p| == 2 && p[c].pos.x == cube[c].pos.x && p[c].pos.y == cube[c].pos.y
      ensures merged && !Aligned(cube[1 - c].pos, cube[c].pos) ==>
        && p[c] == cube[c].(pos := cube[c].pos.(z := Upper))
        && p[1 - c] == cube[1 - c].(pos := Vec3(cube[c].pos.x, cube[c].pos.y, Standing))
      ensures !(merged && !Aligned(cube[1 - c].pos, cube[c].pos)) ==> p == cube[..]
      ensures cube[0].pos.z >= Standing && cube[1].pos.z >= Standing ==> p[0].pos.z >= Standing && p[1].pos.z >= Standing
    {
      var h, o := cube[c], cube[1 - c];
      if merged && !Aligned(o.pos, h.pos) then
        cube[..][c := h.(pos := h.pos.(z := Upper))][1 - c := o.(pos := Vec3(h.pos.x, h.pos.y, Standing))]
      else
        cube[..]
    }

    /** The block a fall watches: the watched block of a merged pair, the block that moved last of a split one. */
    function Watched(): int
      reads this
    {
      if merged then hola else dom
    }

    /** A fall is under way and its next tick takes the watched block to the depth at which the fall ends. */
    predicate Lands()
      reads this, cube
      requires cube.Length == 2 && (hola == 0 || hola == 1) && (dom == 0 || dom == 1)
    {
      falling && cube[Watched()].pos.z - FallStep <= FallDepth
    }

    /**
      The start of a fall in gameEngine: an idle pair with a block over
      nothing starts to drop, watching that block. A merged pair that is not
      lying along an axis is first re-stacked on the watched block's cell,
      the watched block on top.
    */
    method StartFall()
      requires Valid() && !gameOver
      modifies this`hola, this`other, this`toppling, this`falling, cube
      ensures Valid()
      ensures var c := old(FallCandidate());
        if c != -1 && old(toppling) == 0 && !old(falling) then
          hola == c && other == 1 - c && falling && toppling == 0 && cube[..] == old(Restacked(c))
        else
          && hola == old(hola) && other == old(other) && toppling == old(toppling) && falling == old(falling)
          && cube[0] == old(cube[0]) && cube[1] == old(cube[1])
    {
      if FallCandidate() != -1 && toppling == 0 && !falling {
        BeginFall(FallCandidate());
      }
    }

    /** The body of the fall start: watch block c, re-stack the pair when it must be, and drop. */
    method BeginFall(c: int)
      requires Valid() && !gameOver && c == FallCandidate() && c != -1 && toppling == 0 && !falling
      modifies this`hola, this`other, this`toppling, this`falling, cube
      ensures Valid()
      ensures hola == c && other == 1 - c && falling && toppling == 0 && cube[..] == old(Restacked(c))
    {
      if moves[currentLevel] == 0 {
        StartFacts();
      }
      hola := c;
      other := 1 - hola;
      if merged {
        if cube[other].pos.x == cube[hola].pos.x && cube[other].pos.y != cube[hola].pos.y {
        } else if cube[other].pos.y == cube[hola].pos.y && cube[other].pos.x != cube[hola].pos.x {
        } else {
          Restack();
        }
      }
      toppling := 0;
      falling := true;
    }

    /** The re-stacking of a merged pair that starts to fall while not lying along an axis: the watched block ends on top. */
    method Restack()
      requires Valid() && !gameOver && merged && toppling == 0 && !falling && moves[currentLevel] >= 1
      requires (hola == 0 || hola == 1) && other == 1 - hola
      modifies cube
      ensures Valid()
      ensures var h, o := old(cube[hola]), old(cube[other]);
        cube[hola] == h.(pos := h.pos.(z := Upper)) && cube[other] == o.(pos := Vec3(h.pos.x, h.pos.y, Standing))
      ensures !Aligned(old(cube[other].pos), old(cube[hola].pos)) ==> cube[..] == old(Restacked(hola))
    {
      var h := cube[hola].pos;
      cube[other] := cube[other].(pos := Vec3(h.x, h.y, Standing));
      cube[hola] := cube[hola].(pos := h.(z := Upper));
      assert Stacked(cube[0].pos, cube[1].pos) && Abs(cube[0].pos.z - cube[1].pos.z) == Unit;
    }

    /**
      One tick of a fall in gameEngine: a merged pair sinks together and the
      watched block decides when the fall is over; of a split pair only the
      block that moved last sinks, and it decides.
    */
    method Descend() returns (landed: bool)
      requires Valid() && !gameOver && falling
      modifies cube
      ensures Valid()
      ensures cube[..] == SinkPair(old(cube[..]), merged, Watched())
      ensures landed <==> cube[Watched()].pos.z <= FallDepth
    {
      if merged {
        cube[other] := Sink(cube[other]);
        cube[hola] := Sink(cube[hola]);
        landed := cube[hola].pos.z <= FallDepth;
      } else {
        cube[dom] := Sink(cube[dom]);
        landed := cube[dom].pos.z <= FallDepth;
      }
    }

    /**
      CubeActivateTopple: starts a tip in the direction with the given code,
      unless one is under way. Every accepted key press counts as a move, even
      one with an unknown code. A merged pair is resolved into its dominant
      and recessive block; a split pair tips its chosen block alone.
    */
    method ActivateTopple(dir: int)
      requires Valid()
      modifies this`dom, this`rec, this`mode, this`toppling, cube, moves
      ensures Valid()
      ensures old(toppling) != 0 ==>
        && dom == old(dom) && rec == old(rec) && mode == old(mode) && toppling == old(toppling)
        && cube[0] == old(cube[0]) && cube[1] == old(cube[1]) && moves[..] == old(moves[..])
      ensures old(toppling) == 0 ==> moves[..] == old(moves[..])[currentLevel := old(moves[currentLevel]) + 1]
      ensures old(toppling) == 0 && !IsDirectionCode(dir) ==>
        && dom == old(dom) && rec == old(rec) && mode == old(mode) && toppling == 0
        && cube[0] == old(cube[0]) && cube[1] == old(cube[1])
      ensures old(toppling) == 0 && IsDirectionCode(dir) ==>
        var d, c := DirectionOf(dir), old(cube[..]);
        && toppling == dir && rec == 1 - dom
        && (merged ==>
              && InLayout(c[0].pos, c[1].pos)
              && dom == Dominant(d, c[0].pos, c[1].pos) && mode == Mode(d, c[0].pos, c[1].pos)
              && cube[dom] == Lead(c[dom], d) && cube[rec] == Follow(c[rec], d))
        && (!merged ==> dom == chosen && mode == old(mode) && cube[dom] == Lead(c[dom], d) && cube[rec] == c[rec])
    {
      if toppling != 0 {
        return;
      }
      moves[currentLevel] := moves[currentLevel] + 1;
      if IsDirectionCode(dir) {
        if merged {
          ActivateMerged(dir);
        } else {
          ActivateSingle(dir);
        }
      }
    }

    /** The merged branch of CubeActivateTopple: the resolver picks the leader and the mode, and both blocks start turning. */
    method ActivateMerged(dir: int)
      requires Valid() && toppling == 0 && merged && IsDirectionCode(dir) && (!gameOver ==> moves[currentLevel] >= 1)
      modifies this`dom, this`rec, this`mode, this`toppling, cube
      ensures Valid()
      ensures var d, c := DirectionOf(dir), old(cube[..]);
        && InLayout(c[0].pos, c[1].pos) && toppling == dir && rec == 1 - dom
        && dom == Dominant(d, c[0].pos, c[1].pos) && mode == Mode(d, c[0].pos, c[1].pos)
        && cube[dom] == Lead(c[dom], d) && cube[rec] == Follow(c[rec], d)
    {
      var d := DirectionOf(dir);
      LayoutsExclusive(cube[0].pos, cube[1].pos);
      dom := Dominant(d, cube[0].pos, cube[1].pos);
      rec := 1 - dom;
      mode := Mode(d, cube[0].pos, cube[1].pos);
      toppling := dir;
      ghost var c0, c1 := cube[0].pos, cube[1].pos;
      cube[dom], cube[rec] := Lead(cube[dom], d), Follow(cube[rec], d);
      assert cube[0].pos == cube[0].back == c0 && cube[1].pos == cube[1].back == c1;
    }

    /** The split branch of CubeActivateTopple: the chosen block alone starts turning. */
    method ActivateSingle(dir: int)
      requires Valid() && toppling == 0 && !merged && IsDirectionCode(dir) && (!gameOver ==> moves[currentLevel] >= 1)
      modifies this`dom, this`rec, this`toppling, cube
      ensures Valid()
      ensures var d, c := DirectionOf(dir), old(cube[..]);
        && toppling == dir && dom == chosen && rec == 1 - dom
        && cube[dom] == Lead(c[dom], d) && cube[rec] == c[rec]
    {
      var d := DirectionOf(dir);
      dom := chosen;
      rec := 1 - dom;
      toppling := dir;
      cube[dom] := Lead(cube[dom], d);
    }

    /**
      One tick of the tip under way (the CuboidTopple and CubeTopple
      functions): the blocks turn, and once the leader's tilt passes its
      limit they settle on their new cells and the tip is over.
    */
    method ToppleStep()
      requires Valid() && toppling != 0 && !falling
      modifies cube, this`toppling
      ensures Valid()
      ensures var d, c := DirectionOf(old(toppling)), old(cube[..]);
        && (merged ==> cube[dom] == LeadTick(d, c[dom], c[rec]) && cube[rec] == FollowTick(d, mode, c[dom], c[rec]))
        && (!merged ==> cube[dom] == CubeTick(d, c[dom]) && cube[rec] == c[rec])
        && toppling == if Passed(d, Turn(c[dom], d)) then 0 else old(toppling)
    {
      var d := DirectionOf(toppling);
      if merged {
        MergedTick(d);
      } else {
        SingleTick(d);
      }
    }

    /** A tick of a merged tip: both blocks turn; on completion the pair lands, still touching and still on the floor. */
    method MergedTick(d: Direction)
      requires Valid() && toppling != 0 && !falling && merged && d == DirectionOf(toppling)
      modifies cube, this`toppling
      ensures Valid()
      ensures var c := old(cube[..]);
        && cube[dom] == LeadTick(d, c[dom], c[rec]) && cube[rec] == FollowTick(d, mode, c[dom], c[rec])
        && toppling == if Passed(d, Turn(c[dom], d)) then 0 else old(toppling)
    {
      var l, f := cube[dom], cube[rec];
      cube[dom], cube[rec] := Turn(l, d), Turn(f, d);
      if Passed(d, cube[dom]) {
        MergedSettle(d);
      }
    }

    /** The settle branch of a merged tip: the leader moves one cell on and the recessive block to its landing cell. */
    method MergedSettle(d: Direction)
      requires Valid() && toppling != 0 && !falling && merged && d == DirectionOf(toppling)
      modifies cube, this`toppling
      ensures Valid() && toppling == 0
      ensures var t, f := old(cube[dom]), old(cube[rec]);
        && cube[dom] == t.(pos := t.back.Plus(d.Step()), theta := t.theta.With(d.Along(), MergedRestTilt(d, t, f)))
        && cube[rec] == f.(pos := FollowTarget(d, mode, f), theta := f.theta.With(d.Along(), MergedRestTilt(d, f, f)))
    {
      var t, f := cube[dom], cube[rec];
      ghost var b0, b1 := cube[0].back, cube[1].back;
      MergedLandingKeepsPair(d, b0, b1);
      cube[dom], cube[rec] := t.(pos := t.back.Plus(d.Step()), theta := t.theta.With(d.Along(), MergedRestTilt(d, t, f))),
                              f.(pos := FollowTarget(d, mode, f), theta := f.theta.With(d.Along(), MergedRestTilt(d, f, f)));
      toppling := 0;
      assert Adjacent(cube[0].pos, cube[1].pos) && (OnFloor(b0, b1) ==> OnFloor(cube[0].pos, cube[1].pos));
    }

    /** A tick of a single block's tip: only the moving block turns, and it lands one cell on. */
    method SingleTick(d: Direction)
      requires Valid() && toppling != 0 && !falling && !merged && d == DirectionOf(toppling)
      modifies cube, this`toppling
      ensures Valid()
      ensures var c := old(cube[..]);
        && cube[dom] == CubeTick(d, c[dom]) && cube[rec] == c[rec]
        && toppling == if Passed(d, Turn(c[dom], d)) then 0 else old(toppling)
    {
      var b := cube[dom];
      cube[dom] := CubeTick(d, b);
      if Passed(d, Turn(b, d)) {
        toppling := 0;
      }
    }

    /**
      gameEngine: one frame of the rules, in the game's order: merge, orange,
      black, cross and switch checks, the start of a fall, a fall tick (whose
      end re-enters a level through Initialize) and a tip tick. The game runs
      it only while it is neither paused nor over.

      A fall under way takes the whole frame: no checker acts and the tip, if
      any, does not tick; a fall ending in the frame completes or re-enters
      the level. A fall that starts in a frame does not end in it. A tip
      under way ticks unless the pair drops through the goal; no tip starts
      in a frame.
    */
    method GameEngine()
      requires Valid() && !gameOver
      modifies this`merged, this`falling, this`hola, this`other, this`rightMove, this`chosen, this`levels, board, cube
      modifies this`toppling, this`score, this`currentLevel, this`gameOver, this`dom, this`paused, timer
      ensures Valid()
      ensures score >= old(score)
      ensures currentLevel == old(currentLevel) || currentLevel == old(currentLevel) + 1
      ensures old(Lands()) ==>
        && !falling && !rightMove
        && currentLevel == old(currentLevel) + (if old(rightMove) then 1 else 0)
        && score == old(score) + (if old(rightMove) then ScoreGain(old(moves[currentLevel]), old(timer[currentLevel])) else 0)
        && (gameOver || (AtStart() && timer[currentLevel] == 1))
      ensures old(falling) && !old(Lands()) ==>
        && falling && hola == old(hola) && merged == old(merged) && dom == old(dom) && toppling == old(toppling)
        && score == old(score) && currentLevel == old(currentLevel) && rightMove == old(rightMove) && levels == old(levels)
        && cube[..] == SinkPair(old(cube[..]), merged, Watched())
      ensures !old(falling) ==> !gameOver && score == old(score) && currentLevel == old(currentLevel)
      ensures old(toppling) == 0 ==> toppling == 0
      ensures !old(falling) && old(toppling) != 0 ==>
        if old(StackedOn(Black)) then
          && falling && rightMove && hola == 0 && toppling == old(toppling)
          && cube[..] == [Sink(old(cube[0])), Sink(old(cube[1]))]
        else
          var d, c := DirectionOf(old(toppling)), old(cube[..]);
          && !falling && merged == old(merged) && levels == old(levels)
          && (merged ==> cube[dom] == LeadTick(d, c[dom], c[rec]) && cube[rec] == FollowTick(d, mode, c[dom], c[rec]))
          && (!merged ==> cube[dom] == CubeTick(d, c[dom]) && cube[rec] == c[rec])
          && toppling == if Passed(d, Turn(c[dom], d)) then 0 else old(toppling)
    {
      RunCheckers();
      assert old(falling) || old(toppling) != 0 ==> cube[..] == old(cube[..]);
      assert old(falling) ==> Lands() == old(Lands());
      FallAndTip();
    }

    /** The part of gameEngine after the checkers: the fall phase, then a tick of the tip under way when no fall is. */
    method FallAndTip()
      requires Valid() && !gameOver
      modifies this`falling, this`hola, this`other, this`toppling, cube
      modifies this`score, this`currentLevel, this`rightMove, this`gameOver, this`dom, this`merged, this`paused, this`levels, board, timer
      ensures Valid()
      ensures score >= old(score)
      ensures currentLevel == old(currentLevel) || currentLevel == old(currentLevel) + 1
      ensures old(Lands()) ==>
        && !falling && !rightMove
        && currentLevel == old(currentLevel) + (if old(rightMove) then 1 else 0)
        && score == old(score) + (if old(rightMove) then ScoreGain(old(moves[currentLevel]), old(timer[currentLevel])) else 0)
        && (gameOver || (AtStart() && timer[currentLevel] == 1 && toppling == 0))
        && (old(toppling) == 0 ==> toppling == 0)
      ensures !old(Lands()) ==>
        && !gameOver && score == old(score) && currentLevel == old(currentLevel) && rightMove == old(rightMove)
        && levels == old(levels) && merged == old(merged) && dom == old(dom)
      ensures old(falling) && !old(Lands()) ==>
        && falling && hola == old(hola) && toppling == old(toppling) && cube[..] == SinkPair(old(cube[..]), merged, Watched())
      ensures !old(falling) && old(toppling) == 0 ==>
        && toppling == 0
        && (falling <==> old(FallCandidate()) != -1)
        && (falling ==> hola == old(FallCandidate()) && cube[..] == SinkPair(old(Restacked(FallCandidate())), merged, Watched()))
        && (!falling ==> cube[..] == old(cube[..]))
      ensures !old(falling) && old(toppling) != 0 ==>
        var d, c := DirectionOf(old(toppling)), old(cube[..]);
        && !falling
        && (merged ==> cube[dom] == LeadTick(d, c[dom], c[rec]) && cube[rec] == FollowTick(d, mode, c[dom], c[rec]))
        && (!merged ==> cube[dom] == CubeTick(d, c[dom]) && cube[rec] == c[rec])
        && toppling == if Passed(d, Turn(c[dom], d)) then 0 else old(toppling)
    {
      RunFall();
      if toppling != 0 && !falling {
        ToppleStep();
      }
    }

    /**
      The checker phase of gameEngine: merge, orange, black, cross and switch,
      in that order. Each sees what the ones before it did: the merge check
      never acts on a pair on one cell, a pair the orange or the goal tile
      starts to drop is not split, and the switches see the pair where the
      cross check left it.
    */
    method RunCheckers()
      requires Valid() && !gameOver
      modifies this`merged, this`falling, this`hola, this`other, this`rightMove, this`chosen, this`levels, board, cube
      ensures Valid() && !gameOver
      ensures var orange, black := old(StackedOn(Orange)) && toppling == 0, old(StackedOn(Black));
        && (falling <==> old(falling) || orange || black)
        && (rightMove <==> old(rightMove) || black)
        && (if orange || black then hola == 0 && other == 1 else hola == old(hola) && other == old(other))
      ensures var cs, p0 := old(levels[currentLevel].crosses), old(cube[0].pos);
        var k := FirstCross(cs, p0.x, p0.y);
        if old(OnOneCell()) && !old(StackedOn(Orange)) && !old(StackedOn(Black)) && k >= 0 then
          && cube[0] == old(cube[0]).(pos := cs[k].place) && cube[1] == old(cube[1]).(pos := cs[k].other)
          && !merged && chosen == 0
        else
          && cube[0] == old(cube[0]) && cube[1] == old(cube[1]) && chosen == old(chosen)
          && (merged <==> old(merged) || (old(Neighbours(cube[0].pos, cube[1].pos)) && toppling == 0 && !old(falling)))
      ensures var l, p0, p1 := old(levels[currentLevel]), cube[0].pos, cube[1].pos;
        var idle := !falling && toppling == 0;
        && levels == old(levels)[currentLevel := if idle then l.(switches := VisitAll(l.switches, p0, p1)) else l]
        && forall x, y :: InBounds(x, y) ==>
          board[x, y] == if idle && RevealedBy(l.switches, |l.switches|, p0, p1, x, y) then Normal else old(board[x, y])
      ensures old(falling) ==>
        && falling && cube[0] == old(cube[0]) && cube[1] == old(cube[1]) && merged == old(merged)
        && hola == old(hola) && rightMove == old(rightMove) && levels == old(levels)
      ensures !old(falling) ==> !Lands()
      ensures !old(falling) && old(toppling) != 0 ==>
        && cube[0] == old(cube[0]) && cube[1] == old(cube[1]) && merged == old(merged) && levels == old(levels)
        && (falling <==> old(StackedOn(Black)))
        && (if falling then hola == 0 && rightMove else rightMove == old(rightMove))
    {
      DropCheckers();
      PairCheckers();
    }

    /** The cross and switch checks: the ones that move the blocks or the tiles. */
    method PairCheckers()
      requires Valid() && !gameOver
      modifies this`merged, this`chosen, this`levels, board, cube
      ensures Valid() && !gameOver
      ensures var cs, p0 := old(levels[currentLevel].crosses), old(cube[0].pos);
        var k := FirstCross(cs, p0.x, p0.y);
        if old(OnOneCell()) && k >= 0 then
          && cube[0] == old(cube[0]).(pos := cs[k].place) && cube[1] == old(cube[1]).(pos := cs[k].other)
          && !merged && chosen == 0
        else
          cube[0] == old(cube[0]) && cube[1] == old(cube[1]) && merged == old(merged) && chosen == old(chosen)
      ensures var l, p0, p1 := old(levels[currentLevel]), cube[0].pos, cube[1].pos;
        var idle := !falling && toppling == 0;
        && levels == old(levels)[currentLevel := if idle then l.(switches := VisitAll(l.switches, p0, p1)) else l]
        && forall x, y :: InBounds(x, y) ==>
          board[x, y] == if idle && RevealedBy(l.switches, |l.switches|, p0, p1, x, y) then Normal else old(board[x, y])
      ensures falling || toppling != 0 ==> cube[0] == old(cube[0]) && cube[1] == old(cube[1]) && merged == old(merged) && levels == old(levels)
    {
      CrossChecker();
      SwitchChecker();
    }

    /** The merge, orange and black checks: the ones that decide whether the pair starts to drop. */
    method DropCheckers()
      requires Valid() && !gameOver
      modifies this`merged, this`falling, this`hola, this`other, this`rightMove
      ensures Valid() && !gameOver
      ensures var orange, black := old(StackedOn(Orange)) && toppling == 0, old(StackedOn(Black));
        && (falling <==> old(falling) || orange || black)
        && (rightMove <==> old(rightMove) || black)
        && (if orange || black then hola == 0 && other == 1 else hola == old(hola) && other == old(other))
        && (merged <==> old(merged) || (old(Neighbours(cube[0].pos, cube[1].pos)) && toppling == 0 && !old(falling)))
        && (OnOneCell() <==> old(OnOneCell()) && !old(StackedOn(Orange)) && !old(StackedOn(Black)))
      ensures falling && !old(falling) ==> cube[0].pos.z >= Standing && cube[1].pos.z >= Standing
    {
      ghost var orange, black, single := StackedOn(Orange), StackedOn(Black), OnOneCell();
      MergeChecker();
      assert StackedOn(Orange) == orange && StackedOn(Black) == black && OnOneCell() == single;
      OrangeChecker();
      BlackChecker();
    }

    /**
      The fall phase of gameEngine: a fall may start, a fall under way sinks
      by a tick, and a fall that has ended re-enters a level, completing the
      current one first when the pair dropped through the goal. A fall that
      starts in this phase does not end in it, so a fall ends exactly when
      one was under way and its next tick reaches the depth.
    */
    method RunFall()
      requires Valid() && !gameOver
      modifies this`falling, this`hola, this`other, this`toppling, cube
      modifies this`score, this`currentLevel, this`rightMove, this`gameOver, this`dom, this`merged, this`paused, this`levels, board, timer
      ensures Valid()
      ensures score >= old(score)
      ensures currentLevel == old(currentLevel) || currentLevel == old(currentLevel) + 1
      ensures old(Lands()) ==>
        && !falling && !rightMove
        && currentLevel == old(currentLevel) + (if old(rightMove) then 1 else 0)
        && score == old(score) + (if old(rightMove) then ScoreGain(old(moves[currentLevel]), old(timer[currentLevel])) else 0)
        && (gameOver || (AtStart() && timer[currentLevel] == 1))
        && toppling == (if gameOver then old(toppling) else 0)
      ensures !old(Lands()) ==>
        && !gameOver && score == old(score) && currentLevel == old(currentLevel) && rightMove == old(rightMove)
        && levels == old(levels) && merged == old(merged) && dom == old(dom) && toppling == old(toppling)
        && (forall x, y :: InBounds(x, y) ==> board[x, y] == old(board[x, y]))
        && (falling <==> old(falling) || (old(FallCandidate()) != -1 && old(toppling) == 0))
        && (old(falling) ==> hola == old(hola) && cube[..] == SinkPair(old(cube[..]), merged, Watched()))
        && (falling && !old(falling) ==>
              hola == old(FallCandidate()) && other == 1 - hola
              && cube[..] == SinkPair(old(Restacked(FallCandidate())), merged, Watched()))
        && (!falling ==> hola == old(hola) && cube[..] == old(cube[..]))
    {
      ghost var was, lands := falling, Lands();
      ghost var c := FallCandidate();
      if !was {
        assert cube[0].pos.z >= Standing && cube[1].pos.z >= Standing;
      }
      StartFall();
      if falling {
        if !was {
          assert cube[..] == old(Restacked(c));
          assert cube[0].pos.z >= Standing && cube[1].pos.z >= Standing;
          assert !Lands();
        } else {
          assert cube[..] == old(cube[..]) && Lands() == lands;
        }
        FallTick();
      }
    }

    /** A tick of the fall under way, ending it through Initialize once the watched block reaches the depth. */
    method FallTick()
      requires Valid() && !gameOver && falling
      modifies cube, this`falling, this`score, this`currentLevel, this`rightMove, this`gameOver
      modifies this`dom, this`merged, this`toppling, this`paused, this`levels, board, timer
      ensures Valid()
      ensures old(Lands()) ==>
        && !falling && !rightMove
        && currentLevel == old(currentLevel) + (if old(rightMove) then 1 else 0)
        && score == old(score) + (if old(rightMove) then ScoreGain(old(moves[currentLevel]), old(timer[currentLevel])) else 0)
        && (gameOver || (AtStart() && timer[currentLevel] == 1))
        && toppling == (if gameOver then old(toppling) else 0)
      ensures !old(Lands()) ==>
        && falling && !gameOver && score == old(score) && currentLevel == old(currentLevel) && rightMove == old(rightMove)
        && levels == old(levels) && merged == old(merged) && dom == old(dom) && toppling == old(toppling)
        && (forall x, y :: InBounds(x, y) ==> board[x, y] == old(board[x, y]))
        && cube[..] == SinkPair(old(cube[..]), merged, Watched())
    {
      var landed := Descend();
      if landed {
        falling := false;
        Initialize();
      }
    }
  }
}
