/**
  The pure parts of the tile rule engine and of the session: the conditions
  the checkers test, the search for the first matching cross, what a pass
  over the switches fires and reveals, and the score formula.
*/
module Rules {
  import opened Geometry
  import opened Resolver
  import opened Levels

  /** The two blocks are a stacked pair: on one cell, one block height apart. */
  predicate StackedPair(p0: Vec3, p1: Vec3) {
    p0.x == p1.x && p0.y == p1.y && Abs(p0.z - p1.z) == Unit
  }

  /** The cells of the two blocks are side neighbours (Manhattan distance one). */
  predicate Neighbours(p0: Vec3, p1: Vec3) {
    (Abs(p0.y - p1.y) == 1 && Abs(p0.x - p1.x) == 0) || (Abs(p0.y - p1.y) == 0 && Abs(p0.x - p1.x) == 1)
  }

  /** A block stands on cell c. */
  predicate OnCell(p: Vec3, x: int, y: int) {
    p.x == x && p.y == y
  }

  /**
    The index of the first cross whose place is the cell (x, y), or -1 when
    there is none.
  */
  function FirstCross(cs: seq<CrossLink>, x: int, y: int): (k: int)
    ensures -1 <= k < |cs|
    ensures k >= 0 ==> OnCell(cs[k].place, x, y) && forall j :: 0 <= j < k ==> !OnCell(cs[j].place, x, y)
    ensures k == -1 <==> forall j :: 0 <= j < |cs| ==> !OnCell(cs[j].place, x, y)
  {
    if |cs| == 0 then -1
    else if OnCell(cs[0].place, x, y) then 0
    else
      var r := FirstCross(cs[1..], x, y);
      if r < 0 then -1 else r + 1
  }

  /** Either block stands on the switch's trigger cell. */
  predicate OnTrigger(sw: Switch, p0: Vec3, p1: Vec3) {
    OnCell(p0, sw.place.x, sw.place.y) || OnCell(p1, sw.place.x, sw.place.y)
  }

  /** The switch fires on this visit: a block is on its trigger and it has not fired since the level was entered. */
  predicate Fires(sw: Switch, p0: Vec3, p1: Vec3) {
    !sw.used && OnTrigger(sw, p0, p1)
  }

  /** A switch after an idle visit: a switch with a block on its trigger is used from then on. */
  function Visit(sw: Switch, p0: Vec3, p1: Vec3): (r: Switch)
    ensures r.place == sw.place && r.locations == sw.locations
    ensures r.used <==> sw.used || OnTrigger(sw, p0, p1)
  {
    if OnTrigger(sw, p0, p1) && !sw.used then sw.(used := true) else sw
  }

  /** A pass over all switches of the level. */
  function VisitAll(sws: seq<Switch>, p0: Vec3, p1: Vec3): (r: seq<Switch>)
    ensures |r| == |sws| && forall k :: 0 <= k < |sws| ==> r[k] == Visit(sws[k], p0, p1)
  {
    seq(|sws|, k requires 0 <= k < |sws| => Visit(sws[k], p0, p1))
  }

  /** The cell (x, y) is revealed by one of the first n switches firing. */
  predicate RevealedBy(sws: seq<Switch>, n: int, p0: Vec3, p1: Vec3, x: int, y: int)
    requires n <= |sws|
  {
    exists k :: 0 <= k < n && Fires(sws[k], p0, p1) && Cell(x, y) in sws[k].locations
  }

  /**
    A pass over the switches is idempotent: a second pass with the blocks
    where they are fires no switch, reveals no cell and keeps every flag.
    Once used, a switch never fires again, whoever stands on it.
  */
  lemma SwitchPassIdempotent(sws: seq<Switch>, p0: Vec3, p1: Vec3)
    ensures VisitAll(VisitAll(sws, p0, p1), p0, p1) == VisitAll(sws, p0, p1)
    ensures forall x, y :: !RevealedBy(VisitAll(sws, p0, p1), |sws|, p0, p1, x, y)
    ensures forall k, q0, q1 :: 0 <= k < |sws| && VisitAll(sws, p0, p1)[k].used ==>
      !Fires(VisitAll(sws, p0, p1)[k], q0, q1)
  {
  }

  /** Extending the prefix of switches considered by one switch. */
  lemma RevealedByStep(sws: seq<Switch>, n: int, p0: Vec3, p1: Vec3, x: int, y: int)
    requires 0 <= n < |sws|
    ensures RevealedBy(sws, n + 1, p0, p1, x, y) <==>
      RevealedBy(sws, n, p0, p1, x, y) || (Fires(sws[n], p0, p1) && Cell(x, y) in sws[n].locations)
  {
    if RevealedBy(sws, n + 1, p0, p1, x, y) && !RevealedBy(sws, n, p0, p1, x, y) {
      var k :| 0 <= k < n + 1 && Fires(sws[k], p0, p1) && Cell(x, y) in sws[k].locations;
      assert k == n;
    }
  }

  /** Points a completed level earns: one million integer-divided by moves times seconds. */
  function ScoreGain(moves: int, seconds: int): (g: int)
    requires moves >= 1 && seconds >= 1
    ensures g >= 0
    ensures g * (moves * seconds) <= 1000000 < (g + 1) * (moves * seconds)
    ensures g >= 1 <==> moves * seconds <= 1000000
  {
    var p := moves * seconds;
    assert p >= 1 by {
      assert moves * seconds >= 1 * seconds;
    }
    var g := 1000000 / p;
    assert g * p + 1000000 % p == 1000000;
    assert g >= 1 ==> g * p >= p by {
      if g >= 1 {
        assert g * p >= 1 * p;
      }
    }
    assert g == 0 ==> p > 1000000;
    g
  }
}
