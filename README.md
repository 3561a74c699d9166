# Bloxorz-style puzzle core in Dafny

This project models the puzzle simulation of `Sample_GL3_2D.cpp`, a
three-level block-rolling game. Two unit blocks move over a 10 × 10 board of
tiles. While merged, they form a 1 × 1 × 2 cuboid that tips over its edges.
A cross tile splits the pair. Once split, the chosen block tips on its own,
and the pair merges again when the two blocks become side neighbours.

Tiles have these effects:

- An empty cell drops whatever stands over it.
- An orange tile drops a stacked pair, and the level restarts.
- A switch tile reveals hidden tiles the first time a block stands on it.
- The black goal tile drops a stacked pair, and the level counts as completed.

A completed level earns one million, integer-divided by the level's moves ×
the level's timer. The main loop's one-second tick increments `timer[current_level]`
(Sample_GL3_2D.cpp:2094), but that `current_level` is a local of `main`
declared at :2070 as 0, which shadows the global. So only level 1's timer
counts seconds. Levels 2 and 3 keep the timer of 1 that entering them sets
(:366), so their gain is one million integer-divided by the moves alone. The
model follows the code: the timer is a field that only the clock (left out)
advances, and the gain always reads the current level's timer.

The model is split by what the game does:

- `geometry.dfy` (Geometry) holds the board dimension and the heights, which
  are integers in tenths of the game's units: the floor is 1, a standing
  block's centre 6, a block's height 10, and the top block of a stack 16. It
  also holds positions, the four directions with their key codes (1 North,
  2 South, 3 West, 4 East), and tilt vectors.
- `resolver.dfy` (Resolver) holds the eight resolver functions (`NorthDOM` …
  `WestMode`). Each one is tied to one direction-generic rule, `Leader` plus
  `ModeCode`, which says what the answer means.
- `topple.dfy` (Topple) holds a tip on block values: activation, the integer
  angle stepping, the completion test and the settle offsets, with lemmas
  about where a tip ends.
- `levels.dfy` (Levels) holds the level store as `Level_creator` builds it
  (transcribed as data), its well-formedness, and the tiles a level starts
  with.
- `rules.dfy` (Rules) holds the pure parts of the tile rules: the first
  matching cross, the switch pass, and the score formula.
- `game.dfy` (Game) holds the session as a class. It has an `array2<int>`
  board, an `array<Block>` of the two blocks, the move and timer arrays, the
  flags, and the level store as a `seq<Level>` field. `Initialize`, the
  checkers, `gameEngine` and `CubeActivateTopple` update that state in place.
  The class invariant `Valid()` is established by the constructor and kept by
  the checkers, the fall and tip steps, GameEngine and ActivateTopple.
  Initialize, EnterLevel and PlacePair establish it from a weaker store
  invariant. CompleteLevel keeps only the array-shape part, and the
  board-building steps (SetUpBoard, LoadBoard, ArmSwitches, MarkCrosses) rely
  only on the board's dimensions and the level's well-formedness. `Valid()`
  bundles these facts:
  - the array shapes;
  - a merged pair always touches, which makes the resolver's precondition hold;
  - a merged tip is resolved from where it started;
  - a level with no moves yet is at its start;
  - the level timer has started, so the score division is defined;
  - blocks that are not falling rest on the floor.

The game computes a block's position during a tip from its tilt with sin,
cos and √2. That is presentation only. In this model a block keeps its
resting position until the tick on which the tip completes, and then snaps to
its new cell, as the game does on that tick.

## Model

| member | source | states |
|---|---|---|
| Resolver.NorthDom | Sample_GL3_2D.cpp:380-400 | The North resolver picks the block the generic rule picks: the lower block of a stack, the block further north, or the block with the larger x. |
| Resolver.NorthMode | Sample_GL3_2D.cpp:401-414 | North modes are 1/2/3 for the three layouts: roll up, slide, roll down. |
| Resolver.SouthDom | Sample_GL3_2D.cpp:415-435 | The South resolver picks the lower block of a stack, the block further south (smaller y), or the block with the larger x. |
| Resolver.SouthMode | Sample_GL3_2D.cpp:436-449 | South modes are 3/2/1 for the three layouts: roll up, slide and roll down in South's numbering. |
| Resolver.EastDom | Sample_GL3_2D.cpp:450-470 | The East resolver picks the lower block of a stack, the block further east (larger x), or the block with the larger y. |
| Resolver.EastMode | Sample_GL3_2D.cpp:471-484 | East modes are 2/1/3 for the three layouts: the y-lying pair slides and the x-lying pair rolls up. |
| Resolver.WestDom | Sample_GL3_2D.cpp:485-505 | The West resolver picks the lower block of a stack, the block further west (smaller x), or the block with the larger y. |
| Resolver.WestMode | Sample_GL3_2D.cpp:506-519 | West modes are 2/3/1 for the three layouts. |
| Resolver.Dominant | Sample_GL3_2D.cpp:763-885 | The per-direction dispatch to NorthDOM … WestDOM, which the activation of a merged tip calls, returns exactly the block the generic rule `Leader` picks. |
| Resolver.Mode | Sample_GL3_2D.cpp:763-885 | The per-direction dispatch to NorthMode … WestMode returns exactly the generic numbering `ModeCode` of the pair's motion (roll up, slide, roll down). |
| Resolver.Leader | Sample_GL3_2D.cpp:380-519 | The dominant block is 0 or 1. In a stack it is strictly lower; along the direction it is strictly ahead; across the direction its cross coordinate is strictly larger. |
| Resolver.LayoutsExclusive | Sample_GL3_2D.cpp:381-399 | The three layouts exclude each other, so the test order does not matter. A touching pair is always in one of them. |
| Resolver.ResolverSymmetric | Sample_GL3_2D.cpp:380-519 | Swapping the block labels swaps the dominant block and keeps the mode. |
| Topple.Lead | Sample_GL3_2D.cpp:763-885 | The leading block captures its position as `back`. Its rate is +10 for North/East and -10 for South/West. Its tilt and origin about the axis of motion are both reset to -45 for North/East and to +45 for South/West, and its limit is nine rate steps beyond. Tilt, origin and limit about the other axis are untouched. |
| Topple.Follow | Sample_GL3_2D.cpp:763-885 | The recessive block captures `back` and the same rate. Its tilt is not reset, and its limit is its own tilt ±90. |
| Topple.Turn | Sample_GL3_2D.cpp:547-548 | One tick advances only the tilt about the axis of motion, by the block's rate. Position, `back`, rate, origin, limit and the other tilt axis are unchanged. |
| Topple.Passed | Sample_GL3_2D.cpp:550 | The completion test is `theta >= limit` moving North/East and `theta <= limit` moving South/West. Its behaviour over a tip is stated by NinthTickCompletes. |
| Topple.Landing | Sample_GL3_2D.cpp:551-559 | The settle cell of the recessive block for modes 1-3. What it means for the pair is stated by RollUpLands, SlideLands, RollDownLands and MergedLandingKeepsPair. |
| Topple.CubeTick | Sample_GL3_2D.cpp:699-757 | One tick of a single block's tip (CubeTopple*). What nine ticks of it do is stated by SingleToppleSettles. |
| Topple.LeadTick | Sample_GL3_2D.cpp:520-694 | One tick of a merged tip (CuboidTopple*) for the dominant block. What nine ticks of it do is stated by MergedToppleSettles. |
| Topple.FollowTick | Sample_GL3_2D.cpp:520-694 | One tick of a merged tip for the recessive block. What nine ticks of it do is stated by MergedToppleSettles, and where it lands by MergedLandingKeepsPair. |
| Topple.TurnsAdvance | Sample_GL3_2D.cpp:547-548 | n ticks change only the tilt about the axis of motion, by n × dr. |
| Topple.NinthTickCompletes | Sample_GL3_2D.cpp:550 | After an activation the completion test fails on ticks 1-8 and holds on tick 9. |
| Topple.SingleToppleSettles | Sample_GL3_2D.cpp:699-757 | A single block's tip only turns for 8 ticks. On the 9th it moves exactly one cell in the direction of travel at the same height, and rests at a tilt of +45 after a North tip and -45 after a South, West or East tip. |
| Topple.MergedToppleSettles | Sample_GL3_2D.cpp:520-694 | A merged tip only turns both blocks for 8 ticks. On the 9th the leader moves one cell and the follower lands per its mode. A North tip gives both blocks the follower's old tilt +90, East negates, and South/West reset to -45. |
| Topple.MergedLandingKeepsPair | Sample_GL3_2D.cpp:550-563 | A completed merged tip leaves the pair touching and on the floor. A lying-along pair stacks with the follower on top; a stack lies down in front of the leader; a lying-across pair slides one cell. |
| Topple.RollUpLands | Sample_GL3_2D.cpp:551-553 | Mode "roll up": the follower lands one height above the leader's new cell. |
| Topple.RollDownLands | Sample_GL3_2D.cpp:557-559 | Mode "roll down": the follower lands one cell in front of the leader, at the leader's height. |
| Topple.SlideLands | Sample_GL3_2D.cpp:554-556 | Mode 2: both blocks shift one cell and stay side neighbours. |
| Levels.Level1 | Sample_GL3_2D.cpp:1934-1955 | Level 1 as `Level_creator` builds it: matrix, start cells, switches and crosses. Level1WellFormed states that it is well formed. |
| Levels.Level2 | Sample_GL3_2D.cpp:1957-1988 | Level 2 as `Level_creator` builds it. Level2WellFormed states that it is well formed. |
| Levels.Level3 | Sample_GL3_2D.cpp:1989-2018 | Level 3 as `Level_creator` builds it. Level3WellFormed states that it is well formed. |
| Levels.Table | Sample_GL3_2D.cpp:1933-2019 | The three levels in order. TableWellFormed and TableFacts state what the game relies on. |
| Levels.Level1WellFormed | Sample_GL3_2D.cpp:1934-1955 | Level 1 is well formed: a 10 × 10 matrix, switch, revealed and cross cells on the board, start cells side neighbours on tiles. |
| Levels.Level2WellFormed | Sample_GL3_2D.cpp:1957-1988 | Level 2 is well formed in the same sense. |
| Levels.Level3WellFormed | Sample_GL3_2D.cpp:1989-2018 | Level 3 is well formed in the same sense. |
| Levels.TableWellFormed | Sample_GL3_2D.cpp:1933-2019 | Every level matrix is 10 × 10. Every switch, revealed cell and cross place is on the board. The start cells are side neighbours on tiles. |
| Levels.TableFacts | Sample_GL3_2D.cpp:1933-2019 | Every cross target is on the board, every revealed cell is empty in its matrix, and every level has a goal tile. |
| Levels.EntryTile | Sample_GL3_2D.cpp:349-362 | The tile a cell holds once a level is entered: a cross tile on a cross place, else a switch tile on a switch trigger, else the matrix tile. EntryTiles states what that leaves on the board. |
| Levels.EntryTiles | Sample_GL3_2D.cpp:349-362 | After entry, every cross place holds a cross tile. Every switch place holds a switch tile unless a cross shares it. Both start cells are supported. |
| Levels.Armed | Sample_GL3_2D.cpp:354-357 | Re-arming keeps every switch but clears its used flag. |
| Rules.FirstCross | Sample_GL3_2D.cpp:1821-1833 | The result is the index of the first cross placed on the cell, or -1 exactly when none is. |
| Rules.Visit | Sample_GL3_2D.cpp:1839-1841 | An idle visit keeps a switch's place and cells, and makes it used exactly when it was used or a block is on its trigger. |
| Rules.VisitAll | Sample_GL3_2D.cpp:1837-1848 | The switch pass keeps the number of switches and visits each one in place. |
| Rules.SwitchPassIdempotent | Sample_GL3_2D.cpp:1836-1849 | A second pass with the blocks in place changes no flag and reveals nothing, and a used switch never fires again. |
| Rules.ScoreGain | Sample_GL3_2D.cpp:326 | The gain is the integer quotient of 1000000 by moves × seconds. It is at least 1 exactly when moves × seconds ≤ 1000000. |
| Game.Sink | Sample_GL3_2D.cpp:1883-1884 | A fall tick lowers a block by one tenth and changes nothing else. |
| Game.SunkLowers | Sample_GL3_2D.cpp:1881-1897 | n fall ticks lower a block by n tenths. |
| Game.FallEnds | Sample_GL3_2D.cpp:1885 | A falling block reaches the depth of -10 after exactly as many ticks as tenths above it, and not before. |
| Game.SinkPair | Sample_GL3_2D.cpp:1881-1897 | A fall tick on the pair lowers the watched block by one tenth. A merged pair sinks both blocks; of a split pair the other block is unchanged. |
| Game.Game.constructor | Sample_GL3_2D.cpp:2069-2072 | Program start builds the table from the levels and enters level 1 with score 0 and no moves. The pair is at level 1's start cells on the entry tiles. |
| Game.Game.UpdateScore | Sample_GL3_2D.cpp:325-327 | The score grows by the level's gain. |
| Game.Game.Initialize | Sample_GL3_2D.cpp:329-373 | A completion scores, advances the level and resets its timer to 0. Past the last level only `game_over` is set: the pair, board, level store, flags and `paused` are unchanged. Otherwise the level is entered: switches re-armed, board = entry tiles, pair at the start, merged, idle, unpaused, timer 1, tilts -45. Moves are not reset, and the invariant is re-established. |
| Game.Game.CompleteLevel | Sample_GL3_2D.cpp:331-340 | The score grows by the gain, the level index grows by one, its timer becomes 0, and `right_move` is cleared. |
| Game.Game.EnterLevel | Sample_GL3_2D.cpp:346-371 | The new state of a level entry, as in Initialize, with the invariant, and the pair is at the level's start. |
| Game.Game.SetUpBoard | Sample_GL3_2D.cpp:349-362 | The board becomes the level's entry tiles and the level's switches are re-armed. |
| Game.Game.PlacePair | Sample_GL3_2D.cpp:346-371 | The pair is at the level's start cells with tilts -45, merged and idle, and the level timer is 1. |
| Game.Game.LoadBoard | Sample_GL3_2D.cpp:349-353 | Every board tile is the level matrix's tile. |
| Game.Game.ArmSwitches | Sample_GL3_2D.cpp:354-358 | Every switch place becomes a switch tile, no other tile changes, and every switch of the level is armed. |
| Game.Game.MarkCrosses | Sample_GL3_2D.cpp:359-362 | Every cross place becomes a cross tile and no other tile changes. |
| Game.Game.StartFacts | Sample_GL3_2D.cpp:346-371 | A level with no moves yet has an idle merged pair, not on one cell, with both blocks over tiles. |
| Game.Game.MergeChecker | Sample_GL3_2D.cpp:1796-1802 | The pair is merged afterwards exactly when it was merged, or it is idle and the blocks are side neighbours. |
| Game.Game.OrangeChecker | Sample_GL3_2D.cpp:1813-1819 | A fall watching block 0 starts exactly when the pair is stacked, merged, idle and on an orange tile. |
| Game.Game.BlackChecker | Sample_GL3_2D.cpp:1803-1812 | A stacked, merged, not-falling pair on the goal tile starts a fall watching block 0 and sets `right_move`, even during a tip. Otherwise nothing changes. |
| Game.Game.CrossChecker | Sample_GL3_2D.cpp:1820-1835 | An idle merged pair on one cell that sits on a cross place splits at the first matching cross: block 0 goes to the place, block 1 to the target, and block 0 is chosen. Otherwise nothing changes. |
| Game.Game.SwitchChecker | Sample_GL3_2D.cpp:1836-1849 | When idle, the level's switches become their visited versions. A tile becomes normal exactly when a switch that fires lists it; every other tile is unchanged. |
| Game.Game.VisitSwitches | Sample_GL3_2D.cpp:1837-1848 | The loop returns the visited switches and writes exactly the revealed cells. |
| Game.Game.RevealCells | Sample_GL3_2D.cpp:1842-1844 | The listed cells become normal tiles; no other tile changes. |
| Game.Game.FallCandidate | Sample_GL3_2D.cpp:1779-1794 | The result is -1 exactly when both blocks are over tiles. Otherwise it is the first block in index order that is off the board or over an empty cell. |
| Game.Game.StartFall | Sample_GL3_2D.cpp:1860-1880 | An idle pair with an unsupported block starts falling, watches that block, and is rearranged as `Restacked` says. Otherwise nothing changes. |
| Game.Game.BeginFall | Sample_GL3_2D.cpp:1860-1880 | The start of a fall: the watched block is the fall candidate, the other is the other block, the tip is cleared, and the pair is as `Restacked` says. |
| Game.Game.Restacked | Sample_GL3_2D.cpp:1864-1876 | A merged pair not lying along an axis is stacked on the watched block's cell, watched block on top. Any other pair is unchanged. A pair resting at standing height or above stays there. |
| Game.Game.Watched | Sample_GL3_2D.cpp:1881-1897 | The block whose height ends a fall: `hola` for a merged pair, `dom` for a split one. |
| Game.Game.Lands | Sample_GL3_2D.cpp:1885-1891 | A fall under way ends on this tick exactly when the watched block's next height is at the depth. |
| Game.Game.Restack | Sample_GL3_2D.cpp:1870-1875 | The other block goes under the watched one at standing height, and the watched one goes on top. |
| Game.Game.Descend | Sample_GL3_2D.cpp:1881-1897 | The pair sinks as `SinkPair` says for the watched block, and the fall ends exactly when the watched block has reached the depth. |
| Game.Game.ActivateTopple | Sample_GL3_2D.cpp:763-885 | Nothing changes while a tip is under way. Otherwise the level's move count grows by exactly 1, and a known code starts the tip. A merged pair takes the resolver's dominant block and mode, the leader via Lead and the follower via Follow. A split pair has the chosen block lead and the other block unchanged. |
| Game.Game.ActivateMerged | Sample_GL3_2D.cpp:770-785 | The merged branch: dom and mode come from the resolver, and the blocks are activated as leader and follower. |
| Game.Game.ActivateSingle | Sample_GL3_2D.cpp:786-798 | The split branch: dom is the chosen block, only it is activated, and the other block is unchanged. |
| Game.Game.ToppleStep | Sample_GL3_2D.cpp:1898-1923 | The tick of the tip under way matches the settle functions of its direction. The tip ends exactly when the leader's tilt passes its limit. |
| Game.Game.MergedTick | Sample_GL3_2D.cpp:520-564 | Both blocks turn and the merged settle branch is taken once the leader passes its limit. The pair keeps touching and keeps resting on the floor. |
| Game.Game.MergedSettle | Sample_GL3_2D.cpp:550-563 | The leader moves one cell from `back`, the follower lands per its mode, both resting tilts per direction are as the game sets them, and the tip is over. |
| Game.Game.SingleTick | Sample_GL3_2D.cpp:699-713 | Only the moving block turns or settles, and the other block is unchanged. |
| Game.Game.GameEngine | Sample_GL3_2D.cpp:1851-1932 | One frame keeps the invariant, never lowers the score, and advances the level by at most one. A fall that lands ends, clears `right_move`, completes the level exactly when `right_move` was set, and leaves the game over or a level at its start: the next one after a completion, the same one otherwise. A fall that does not land keeps falling, sinks one tick, and changes no score, level or flag. Without a fall under way no level changes. No tip starts, and a tip under way ticks exactly as LeadTick/FollowTick or CubeTick say, unless the pair drops through the goal. |
| Game.Game.RunCheckers | Sample_GL3_2D.cpp:1852-1856 | The five checkers in the game's order. A fall starts exactly when an idle stack is on orange or a stack is on the goal; a pair on one cell that drops is not split; the cross check acts on the merged result; the switches are visited where the cross check left the pair. A fall under way is left as it was. |
| Game.Game.DropCheckers | Sample_GL3_2D.cpp:1852-1854 | Merge, orange and black in order: when a fall starts, what `right_move` becomes, which block is watched, and when the pair merges; a pair that starts to drop is no longer on one cell. |
| Game.Game.PairCheckers | Sample_GL3_2D.cpp:1855-1856 | Cross then switch: an idle merged pair on one cell on a cross place splits there, and the switches are visited with the blocks where the cross left them. |
| Game.Game.RunFall | Sample_GL3_2D.cpp:1860-1897 | A fall under way that lands completes or re-enters the level, as in GameEngine. Any other fall phase keeps score, level and flags. A fall under way sinks one tick. A fall starts exactly when the pair is idle with a block unsupported, and then it is restacked and sinks one tick. Otherwise nothing changes. |
| Game.Game.FallTick | Sample_GL3_2D.cpp:1881-1897 | One tick of a fall under way: it lands and ends through Initialize, or it sinks as `SinkPair` says and changes nothing else. |
| Game.Game.FallAndTip | Sample_GL3_2D.cpp:1860-1923 | The fall phase followed by the tip tick: the landing outcome, a fall start exactly when an idle pair has an unsupported block, and a tip that ticks exactly when one is under way and no fall is. |

## Left out

- Rendering, shaders, window and font handling, camera and colour maths, and `changeview` are presentation and foreign library calls.
- Sound cues (`system("aplay …")`) spawn processes and change no state, so they are dropped.
- In-flight positions during a tip (the sin/cos/√2 formulas) are floating point and drawn only. A block keeps its resting position until it settles. `black_checker` is the only rule that can look at a pair mid-tip. It sees the resting position, which is what the game sees on the frame the tip starts.
- The keyboard and mouse callbacks and the pause and chosen-block toggles are input mapping. Their effects are reachable as `ActivateTopple` and as the `paused` and `chosen` fields.
- The `'r'` restart key (Sample_GL3_2D.cpp:1025-1028, which `'v'` falls through into) calls `Initialize` and then clears `game_over` and sets the level to 0. That restart is not modelled as an operation.
- The main loop (Sample_GL3_2D.cpp:2069-2117) is real time: its one-second tick and its `!paused && !game_over` guard are not modelled. `GameEngine` requires `!gameOver` for this reason. That tick increments the timer of `main`'s own `current_level`, which is always 0, so no operation of the model advances a timer.
- The score text is rendering.
- Game.Game.GameEngine: for a frame that starts with no fall and no tip, its contract states only that no fall ends, no tip starts, and score and level are unchanged. What the checkers and the fall start do in such a frame is stated by RunCheckers and FallAndTip.
- Game.Game.ActivateTopple: `moves[]` and the score are unbounded integers here, so 32-bit `int` overflow is not modelled.
- Game.Game.Descend: the 0.1 fall step is exact integer tenths. The game subtracts floats, so its rounding is not modelled.
- Game.Game.FallCandidate: the game reads `boardMatrix` before its bounds tests, which is undefined behaviour in C++. The model tests bounds first. `orange_checker` and `black_checker` read the board without bounds tests; the model reads an off-board cell as empty.
- Game.Game.ToppleStep: after the last level, a fall that ends in `Initialize` sets `game_over` and returns early. A tip activated during that fall then still ticks once in the same frame. The model keeps this, but at game over proves only the shape invariant.
- A merged pair's rest tilt about the other axis, and the block fields `scale` and `speed`, are constants in the game (speed 10) and are not fields here.
