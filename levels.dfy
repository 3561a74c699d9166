/**
  The level store: tile codes, switch and cross descriptors, the three
  levels of the game (Level_creator), and the tiles a level starts with
  when it is entered.
*/
module Levels {
  import opened Geometry
  import opened Resolver

  /** Tile codes of the board. */
  const Empty: int := 0
  const Normal: int := 1
  /** A stacked pair standing on it drops and the level restarts. */
  const Orange: int := 2
  const CrossTile: int := 7
  const SwitchTile: int := 8
  /** The goal: a stacked pair standing on it drops and the level is completed. */
  const Black: int := 9

  datatype Cell = Cell(x: int, y: int)

  predicate InBounds(x: int, y: int) {
    0 <= x < Dim && 0 <= y < Dim
  }

  /** A switch: its trigger cell, the cells it reveals, and whether it has fired since the level was entered. */
  datatype Switch = Switch(used: bool, place: Cell, locations: seq<Cell>)

  /** A cross: standing on its place splits the pair, block 0 to place and block 1 to other. */
  datatype CrossLink = CrossLink(place: Vec3, other: Vec3)

  datatype Level = Level(matrix: seq<seq<int>>, cube0: Vec3, cube1: Vec3,
                         switches: seq<Switch>, crosses: seq<CrossLink>)

  /** The facts about a level that make entering and playing it well defined. */
  predicate WellFormedLevel(l: Level) {
    && |l.matrix| == Dim
    && (forall i :: 0 <= i < Dim ==> |l.matrix[i]| == Dim)
    && (forall k :: 0 <= k < |l.switches| ==> InBounds(l.switches[k].place.x, l.switches[k].place.y))
    && (forall k, j :: 0 <= k < |l.switches| && 0 <= j < |l.switches[k].locations| ==>
          InBounds(l.switches[k].locations[j].x, l.switches[k].locations[j].y))
    && (forall k :: 0 <= k < |l.crosses| ==>
          InBounds(l.crosses[k].place.x, l.crosses[k].place.y)
          && l.crosses[k].place.z == Standing && l.crosses[k].other.z == Standing)
    && Adjacent(l.cube0, l.cube1) && l.cube0.z == Standing && l.cube1.z == Standing
    && InBounds(l.cube0.x, l.cube0.y) && InBounds(l.cube1.x, l.cube1.y)
    && l.matrix[l.cube0.x][l.cube0.y] != Empty && l.matrix[l.cube1.x][l.cube1.y] != Empty
  }

  predicate WellFormed(ls: seq<Level>) {
    |ls| == 3 && forall i :: 0 <= i < |ls| ==> WellFormedLevel(ls[i])
  }

  /** Some switch among the first n of the level has its trigger on (x, y). */
  predicate SwitchAmong(sws: seq<Switch>, n: int, x: int, y: int)
    requires n <= |sws|
  {
    exists k :: 0 <= k < n && sws[k].place == Cell(x, y)
  }

  /** Some cross among the first n of the level has its place on (x, y). */
  predicate CrossAmong(cs: seq<CrossLink>, n: int, x: int, y: int)
    requires n <= |cs|
  {
    exists k :: 0 <= k < n && cs[k].place.x == x && cs[k].place.y == y
  }

  /** Extending the switches considered by one. */
  lemma SwitchAmongStep(sws: seq<Switch>, n: int, x: int, y: int)
    requires 0 <= n < |sws|
    ensures SwitchAmong(sws, n + 1, x, y) <==> SwitchAmong(sws, n, x, y) || sws[n].place == Cell(x, y)
  {
    if SwitchAmong(sws, n + 1, x, y) && !SwitchAmong(sws, n, x, y) {
      var k :| 0 <= k < n + 1 && sws[k].place == Cell(x, y);
      assert k == n;
    }
  }

  /** Extending the crosses considered by one. */
  lemma CrossAmongStep(cs: seq<CrossLink>, n: int, x: int, y: int)
    requires 0 <= n < |cs|
    ensures CrossAmong(cs, n + 1, x, y) <==> CrossAmong(cs, n, x, y) || (cs[n].place.x == x && cs[n].place.y == y)
  {
    if CrossAmong(cs, n + 1, x, y) && !CrossAmong(cs, n, x, y) {
      var k :| 0 <= k < n + 1 && cs[k].place.x == x && cs[k].place.y == y;
      assert k == n;
    }
  }

  /**
    The tile (x, y) holds right after the level is entered: the level's
    matrix, with switch triggers painted as switch tiles and then cross
    places painted as cross tiles.
  */
  function EntryTile(l: Level, x: int, y: int): int
    requires WellFormedLevel(l) && InBounds(x, y)
  {
    if CrossAmong(l.crosses, |l.crosses|, x, y) then CrossTile
    else if SwitchAmong(l.switches, |l.switches|, x, y) then SwitchTile
    else l.matrix[x][y]
  }

  /**
    Entering a level leaves a cross tile on every cross place, a switch tile
    on every switch trigger no cross shares, the matrix elsewhere, and the
    two start cells supported.
  */
  lemma EntryTiles(l: Level)
    requires WellFormedLevel(l)
    ensures forall k :: 0 <= k < |l.crosses| ==> EntryTile(l, l.crosses[k].place.x, l.crosses[k].place.y) == CrossTile
    ensures forall k :: 0 <= k < |l.switches| ==>
      var c := l.switches[k].place;
      CrossAmong(l.crosses, |l.crosses|, c.x, c.y) || EntryTile(l, c.x, c.y) == SwitchTile
    ensures EntryTile(l, l.cube0.x, l.cube0.y) != Empty && EntryTile(l, l.cube1.x, l.cube1.y) != Empty
  {
    forall k | 0 <= k < |l.switches|
      ensures var c := l.switches[k].place;
        CrossAmong(l.crosses, |l.crosses|, c.x, c.y) || EntryTile(l, c.x, c.y) == SwitchTile
    {
      var c := l.switches[k].place;
      assert l.switches[k].place == Cell(c.x, c.y);
    }
  }

  /** The switches with every used flag cleared. */
  function Armed(sws: seq<Switch>): (r: seq<Switch>)
    ensures |r| == |sws| && forall k :: 0 <= k < |sws| ==> r[k] == sws[k].(used := false)
  {
    if sws == [] then [] else [sws[0].(used := false)] + Armed(sws[1..])
  }

  /** The level with every switch armed again, as entering it leaves the level store. */
  function Rearmed(l: Level): Level {
    l.(switches := Armed(l.switches))
  }

  /**
    Changing only the used flags of a level's switches keeps the level well
    formed and leaves the same level once it is re-armed.
  */
  lemma FlagsOnly(l: Level, sws: seq<Switch>)
    requires |sws| == |l.switches|
    requires forall k :: 0 <= k < |sws| ==> sws[k].place == l.switches[k].place && sws[k].locations == l.switches[k].locations
    ensures Rearmed(l.(switches := sws)) == Rearmed(l)
    ensures WellFormedLevel(l) ==> WellFormedLevel(l.(switches := sws))
  {
    var a, b := Rearmed(l.(switches := sws)), Rearmed(l);
    assert forall k :: 0 <= k < |sws| ==> a.switches[k] == b.switches[k];
    assert a.switches == b.switches;
  }

  /** A well-formed level store that differs from the table it was built from at most in its switch flags. */
  predicate Intact(ls: seq<Level>, table: seq<Level>) {
    |ls| == 3 && |table| == 3 && WellFormed(ls) && forall i :: 0 <= i < 3 ==> Rearmed(ls[i]) == Rearmed(table[i])
  }

  /** Replacing the switches of a level by ones that differ only in their flags keeps the store intact. */
  lemma IntactUpdate(ls: seq<Level>, table: seq<Level>, i: int, sws: seq<Switch>)
    requires Intact(ls, table) && 0 <= i < 3
    requires |sws| == |ls[i].switches|
    requires forall k :: 0 <= k < |sws| ==>
      sws[k].place == ls[i].switches[k].place && sws[k].locations == ls[i].switches[k].locations
    ensures Intact(ls[i := ls[i].(switches := sws)], table)
  {
    FlagsOnly(ls[i], sws);
  }

  const Row0: seq<int> := [0, 0, 0, 0, 0, 0, 0, 0, 0, 0]

  /** Level 1: no switches, no crosses, goal at (4, 7). */
  function Level1(): Level {
    Level(
      [ [1, 1, 2, 0, 0, 0, 0, 0, 0, 0],
        [1, 1, 1, 1, 2, 1, 0, 0, 0, 0],
        [1, 1, 1, 1, 1, 1, 1, 1, 1, 0],
        [0, 1, 1, 1, 1, 1, 1, 1, 1, 1],
        [0, 0, 0, 0, 0, 1, 1, 9, 1, 1],
        [0, 0, 0, 0, 0, 0, 1, 1, 1, 0],
        Row0, Row0, Row0, Row0 ],
      Vec3(0, 0, Standing), Vec3(0, 1, Standing), [], [])
  }

  /**
    Level 2: one switch at (2, 2) revealing (3, 4), one cross at (6, 4)
    sending block 1 to (4, 6), goal at (1, 8). Its start positions are the
    ones level 1 set, because the game reuses the same record.
  */
  function Level2(): Level {
    Level(
      [ [1, 1, 1, 1, 0, 0, 0, 1, 1, 1],
        [1, 1, 1, 1, 0, 0, 0, 1, 9, 1],
        [1, 1, 1, 1, 0, 0, 0, 1, 1, 1],
        [1, 1, 1, 1, 0, 0, 1, 1, 1, 1],
        [0, 0, 0, 0, 1, 1, 1, 0, 0, 0],
        [0, 0, 0, 0, 1, 1, 1, 0, 0, 0],
        [0, 0, 0, 0, 1, 1, 1, 0, 0, 0],
        Row0, Row0, Row0 ],
      Vec3(0, 0, Standing), Vec3(0, 1, Standing),
      [Switch(false, Cell(2, 2), [Cell(3, 4)])],
      [CrossLink(Vec3(6, 4, Standing), Vec3(4, 6, Standing))])
  }

  /** Level 3: one switch at (2, 7) revealing (4, 1) and (5, 1), goal at (8, 2). */
  function Level3(): Level {
    Level(
      [ [1, 1, 1, 1, 2, 2, 2, 2, 0, 0],
        [1, 1, 1, 1, 2, 2, 2, 2, 0, 0],
        [1, 1, 1, 1, 0, 0, 0, 1, 1, 1],
        [1, 1, 1, 1, 0, 0, 0, 0, 1, 1],
        [0, 0, 0, 0, 0, 0, 0, 0, 1, 1],
        [0, 0, 0, 0, 0, 0, 2, 2, 2, 2],
        [0, 1, 1, 1, 1, 1, 2, 2, 2, 2],
        [0, 1, 1, 1, 1, 1, 2, 1, 2, 2],
        [0, 1, 9, 1, 0, 0, 2, 2, 2, 2],
        [0, 1, 1, 1, 0, 0, 0, 0, 0, 0] ],
      Vec3(0, 0, Standing), Vec3(0, 1, Standing),
      [Switch(false, Cell(2, 7), [Cell(4, 1), Cell(5, 1)])],
      [])
  }

  /** The level table as Level_creator builds it. */
  function Table(): seq<Level> {
    [Level1(), Level2(), Level3()]
  }

  /** Every row of a level matrix has Dim tiles. */
  predicate Square(m: seq<seq<int>>) {
    |m| == Dim && forall i :: 0 <= i < Dim ==> |m[i]| == Dim
  }

  lemma Level1WellFormed()
    ensures WellFormedLevel(Level1())
  {
    var m := Level1().matrix;
    assert Square(m);
  }

  lemma Level2WellFormed()
    ensures WellFormedLevel(Level2())
  {
    var m := Level2().matrix;
    assert Square(m);
  }

  lemma Level3WellFormed()
    ensures WellFormedLevel(Level3())
  {
    var m := Level3().matrix;
    assert Square(m);
  }

  /** The level table is well formed. */
  lemma TableWellFormed()
    ensures WellFormed(Table())
  {
    Level1WellFormed();
    Level2WellFormed();
    Level3WellFormed();
  }

  /**
    Beyond well-formedness: every cross's target cell is on the board, every
    switch reveals only cells that are empty in its level's matrix, and every
    level has a goal tile.
  */
  lemma TableFacts()
    ensures forall i, k :: 0 <= i < 3 && 0 <= k < |Table()[i].crosses| ==>
      InBounds(Table()[i].crosses[k].other.x, Table()[i].crosses[k].other.y)
    ensures forall i, k, j :: 0 <= i < 3 && 0 <= k < |Table()[i].switches| && 0 <= j < |Table()[i].switches[k].locations| ==>
      var c := Table()[i].switches[k].locations[j]; Table()[i].matrix[c.x][c.y] == Empty
    ensures forall i :: 0 <= i < 3 ==> exists x, y :: InBounds(x, y) && Table()[i].matrix[x][y] == Black
  {
    assert Table()[0].matrix[4][7] == Black;
    assert Table()[1].matrix[1][8] == Black;
    assert Table()[2].matrix[8][2] == Black;
  }
}
