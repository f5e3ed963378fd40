# Seas of Yore: the game-state core in Dafny

Seas of Yore is a two-player Battleship game between the Britons and the Franks. Each side has a 10×10
grid and a fleet of five ships: crayer 2, hoy 3, galley 3, cog 4 and galleon 5. Play has two phases.
During setup the players take turns placing ships. During battle they fire at each other's grids,
either one shot per turn (classic) or a salvo of one shot per surviving ship.

This project models the rules that the Java classes listed below hold, and proves them:

- the two catalogues, `ShipType` and `Direction`;
- the ship heading and the cells it covers;
- a ship's deck health;
- a player's grid (`PlayerQuadrant`), stored as a 10×10 integer array;
- the player's fleet bookkeeping;
- the board, with its setup and battle phases and whose turn it is;
- the two battle rules.

Each class the source mutates in place is a Dafny `class` over the same state:

- `Ship` over an `array<int>` of decks;
- `PlayerQuadrant` over an `array2<int>`;
- `Player` over the `fleet` and `locations` arrays and the `placedShips` counter;
- `Board` over `currentPlayer` and `setupPhase`;
- the salvo phase over its shot counter and queues.

The enums and the pure computations are datatypes and functions.

Modules follow the source files:

| module | source |
|---|---|
| `ShipTypes` | `ShipType.java` |
| `Directions` | `Direction.java` |
| `Headings` | `ShipHeading.java`, plus the `Cell`/`Heading` values |
| `CellCodes` | the grid constants of `PlayerQuadrant.java` |
| `Ships` | `Ship.java` |
| `Quadrants` | `PlayerQuadrant.java` |
| `Players` | `Player.java` |
| `Boards` | `Board.java` |
| `ClassicBattle` | `BattlePhase.java` plus the fire-then-sync step of `QuadrantPanel.fireAtCell` |
| `SalvoBattle` | `SalvoBattlePhase.java` |

`Wrappers` holds `Option`.

Main modelling choices:

- A player stores each ship's heading as a value, `Option<Heading>`, instead of a shared `ShipHeading` object.
- The board's cross-wiring is a class invariant, `Board.Valid`: each player's enemy grid is the other player's friendly grid.
- A battle report is a datatype (`Missed`, `HitShip`, `SankShip`) in place of the terminal message.
- A turn ends in `Victory(winner)` or `TurnPasses`.
- Reports are specified twice, and the two are proved equal:
  - once from the ship decks, which is what `getHitIdentifier` reads (`Classify`);
  - once from the grid alone, through the cells hit before the shot and the shots fired since (`Predict`).

## Model

| member | source | states |
|---|---|---|
| `ShipTypes.ValuesAtOrdinal` | src/seasofyore/core/ShipType.java:38 | `VALUES[t.ordinal()]` is t |
| `ShipTypes.Length` | src/seasofyore/core/ShipType.java:13-33 | every type's length lies between 2 and 5 |
| `ShipTypes.NextPreviousIndexValues` | src/seasofyore/core/ShipType.java:87-100 | the `next` and `previous` tables are exactly `VALUES[(ordinal() + 1) % 5]` and `VALUES[(ordinal() - 1 + 5) % 5]` |
| `ShipTypes.AscendingList` | src/seasofyore/core/ShipType.java:107-110 | five types, each at its own ordinal, so each type appears once, in declaration order |
| `ShipTypes.NextTable` | src/seasofyore/core/ShipType.java:87-90 | `next` goes crayer→hoy→galley→cog→galleon→crayer |
| `ShipTypes.PreviousTable` | src/seasofyore/core/ShipType.java:97-100 | `previous` goes the reverse way, crayer→galleon |
| `ShipTypes.PreviousInvertsNext` | src/seasofyore/core/ShipType.java:87-100 | `t.next().previous() == t` and `t.previous().next() == t` |
| `ShipTypes.NextOrdinal` | src/seasofyore/core/ShipType.java:87-90 | `next` adds one to the ordinal, modulo 5 |
| `ShipTypes.NextIteratedAdd` | src/seasofyore/core/ShipType.java:87-90 | a + b `next` steps are b steps after a steps |
| `ShipTypes.NextFiveTimes` | src/seasofyore/core/ShipType.java:87-90 | five `next` steps return to the start |
| `ShipTypes.NextPeriodIsFive` | src/seasofyore/core/ShipType.java:87-90 | any multiple of five `next` steps returns to the start |
| `ShipTypes.FleetLengthIs17` | src/seasofyore/core/ShipType.java:13-33 | the lengths of the five types sum to 17 |
| `Directions.Ordinal` | src/seasofyore/core/core/Direction.java:45 | `VALUES[d.ordinal()]` is d |
| `Directions.Offsets` | src/seasofyore/core/core/Direction.java:116-119 | `getOffsets` is a unit step along one axis: \|dx\| + \|dy\| = 1 |
| `Directions.RowColOffsets` | src/seasofyore/core/core/Direction.java:127-130 | `getRowColOffsets` is `getOffsets` with its components swapped |
| `Directions.NextPreviousIndexValues` | src/seasofyore/core/core/Direction.java:95-109 | the `next` and `previous` tables are exactly the source's index arithmetic modulo 4 |
| `Directions.FindByOffsets` | src/seasofyore/core/core/Direction.java:142-144 | the loop's answer has the requested offsets, and a failed search means no listed direction has them |
| `Directions.FromOffsets` | src/seasofyore/core/core/Direction.java:140-147 | the result has offsets (dx, dy); the exception (None) is raised exactly when no direction has them |
| `Directions.NextTable` | src/seasofyore/core/core/Direction.java:95-98 | `next` goes north→east→south→west→north |
| `Directions.PreviousInvertsNext` | src/seasofyore/core/core/Direction.java:95-109 | `previous` undoes `next`, and `next` undoes `previous` |
| `Directions.NextIsClockwiseQuarterTurn` | src/seasofyore/core/core/Direction.java:91-98 | with y growing downwards, `next` maps the offset (dx, dy) to (-dy, dx) |
| `Directions.NextOrdinal` | src/seasofyore/core/core/Direction.java:95-98 | `next` adds one to the ordinal, modulo 4 |
| `Directions.NextIteratedAdd` | src/seasofyore/core/core/Direction.java:95-98 | a + b `next` steps are b steps after a steps |
| `Directions.NextFourTimes` | src/seasofyore/core/core/Direction.java:95-98 | four `next` steps are the identity |
| `Directions.NextPeriodIsFour` | src/seasofyore/core/core/Direction.java:95-98 | any multiple of four `next` steps is the identity |
| `Directions.FromOffsetsRoundTrip` | src/seasofyore/core/core/Direction.java:140-147 | `fromOffsets(d.getXOffset(), d.getYOffset()) == d` for every d |
| `Directions.OffsetsInjective` | src/seasofyore/core/core/Direction.java:15-30 | no two directions share an offset |
| `Headings.OccupiedCells` | build/classes/seasofyore/core/ShipHeading.java:119-129 | a heading covers exactly n cells (none for a negative n), and the first is the rear |
| `Headings.OccupiedAt` | build/classes/seasofyore/core/ShipHeading.java:125-126 | cell i is (xPos + i·dx, yPos + i·dy) |
| `Headings.OccupiedStep` | build/classes/seasofyore/core/ShipHeading.java:122-126 | consecutive cells differ by exactly the direction's unit offset |
| `Headings.OccupiedDistinct` | build/classes/seasofyore/core/ShipHeading.java:122-126 | the occupied cells are pairwise distinct |
| `Headings.AdjustedRearTranslates` | build/classes/seasofyore/core/ShipHeading.java:137-141 | moving the rear by (dx, dy) moves every occupied cell by (dx, dy) and keeps their order |
| `Headings.ShipHeading.constructor` | build/classes/seasofyore/core/ShipHeading.java:51-56 | the heading holds the given rear and direction |
| `Headings.ShipHeading.GetRear` | build/classes/seasofyore/core/ShipHeading.java:76-79 | the rear is the first occupied cell |
| `Headings.ShipHeading.GetDirection` | build/classes/seasofyore/core/ShipHeading.java:86-89 | the heading's direction |
| `Headings.ShipHeading.SetDirection` | build/classes/seasofyore/core/ShipHeading.java:96-99 | only the direction changes |
| `Headings.ShipHeading.SetRear` | build/classes/seasofyore/core/ShipHeading.java:107-111 | only the position changes |
| `Headings.ShipHeading.AdjustRear` | build/classes/seasofyore/core/ShipHeading.java:137-141 | the rear shifts by (dx, dy), the direction is kept, and every occupied list is translated by (dx, dy) |
| `Headings.ShipHeading.GetOccupiedCells` | build/classes/seasofyore/core/ShipHeading.java:119-129 | the loop builds exactly `OccupiedCells` of the heading and leaves the heading unchanged |
| `CellCodes.InBounds` | build/classes/source/seasofyore/core/PlayerQuadrant.java:151-154 | `cellInBounds` holds iff 0 ≤ x < 10 and 0 ≤ y < 10 |
| `CellCodes.AfterShot` | build/classes/source/seasofyore/core/PlayerQuadrant.java:251-262 | a fired cell keeps its code; a shot at an unfired cell fires it, and it turns HIT exactly when it held SHIP |
| `CellCodes.ShotIsTerminal` | build/classes/source/seasofyore/core/PlayerQuadrant.java:253-261 | a fired cell stays fired, and a second shot adds nothing to the first |
| `CellCodes.ShotKeepsCode` | build/classes/source/seasofyore/core/PlayerQuadrant.java:255-258 | a shot keeps a cell within WATER, SHIP, HIT and MISS |
| `Ships.ShipLength` | build/classes/seasofyore/core/Ship.java:43-55 | `getAShipLength` agrees with `ShipType.getLength` for every type |
| `Ships.DeckSumCounts` | build/classes/seasofyore/core/Ship.java:168-176 | with health codes only, the deck sum is the intact count minus the destroyed count |
| `Ships.DamagedMeansHalfDestroyed` | build/classes/seasofyore/core/Ship.java:168-176 | as written, `isDamaged` holds iff at least half of the decks are destroyed |
| `Ships.OneHitGalleonNotDamaged` | build/classes/seasofyore/core/Ship.java:163-176 | a galleon with one destroyed deck is not damaged by `isDamaged`, though a deck is destroyed |
| `Ships.HasDestroyedDeckOnFirstHit` | build/classes/seasofyore/core/Ship.java:163-167 | with the documented meaning, destroying any deck makes the ship damaged, and a sunk ship is damaged |
| `Ships.IntactShipIsSound` | build/classes/seasofyore/core/Ship.java:151-176 | a ship of intact decks is neither sunk nor damaged |
| `Ships.Ship.constructor` | build/classes/seasofyore/core/Ship.java:104-111 | a new ship has `getAShipLength(t)` decks, all intact (1), in a fresh array |
| `Ships.Ship.GetShipLength` | build/classes/seasofyore/core/Ship.java:62-65 | the deck count is the type's length |
| `Ships.Ship.GetLength` | build/classes/seasofyore/core/Ship.java:72-75 | `getLength` equals `getShipLength` |
| `Ships.Ship.SetDeck` | build/classes/seasofyore/core/Ship.java:93-99 | an index in range writes exactly that deck; any other index changes nothing |
| `Ships.Ship.DestroyDeck` | build/classes/seasofyore/core/Ship.java:130-144 | true iff the index is in range and that deck is not yet destroyed; then only that deck becomes -1, otherwise nothing changes |
| `Ships.Ship.IsSunk` | build/classes/seasofyore/core/Ship.java:151-161 | the scan answers `Sunk`: no deck holds the SHIP code 1 |
| `Ships.Ship.IsDamaged` | build/classes/seasofyore/core/Ship.java:168-176 | the loop answers `Damaged`: the deck sum is at most 0 |
| `Quadrants.PlayerQuadrant.constructor` | build/classes/source/seasofyore/core/PlayerQuadrant.java:62-72 | a fresh 10×10 grid in which every cell is WATER |
| `Quadrants.PlayerQuadrant.QuadrantAt` | build/classes/source/seasofyore/core/PlayerQuadrant.java:271-274 | a cell of a well-formed grid holds one of the four codes |
| `Quadrants.PlayerQuadrant.GetCellType` | build/classes/source/seasofyore/core/PlayerQuadrant.java:223-230 | the stored code inside the grid; -2 (NULL) exactly outside it |
| `Quadrants.PlayerQuadrant.CellClassification` | build/classes/source/seasofyore/core/PlayerQuadrant.java:163-214 | outside the grid every predicate is false; inside it, targetable means water or ship, and fired means not targetable |
| `Quadrants.PlayerQuadrant.IsRangeInBounds` | build/classes/source/seasofyore/core/PlayerQuadrant.java:114-124 | true iff every cell is inside the grid |
| `Quadrants.PlayerQuadrant.IsRangeEmpty` | build/classes/source/seasofyore/core/PlayerQuadrant.java:132-142 | true iff every cell is WATER |
| `Quadrants.PlayerQuadrant.ValidHeading` | build/classes/source/seasofyore/core/PlayerQuadrant.java:81-85 | true iff the ship's cells are all in bounds and all WATER; the grid is not changed |
| `Quadrants.PlayerQuadrant.PlaceShip` | build/classes/source/seasofyore/core/PlayerQuadrant.java:94-106 | on an invalid heading: false, grid unchanged; on a valid one: true, exactly the occupied cells become SHIP, every other cell is kept, and the four codes are kept |
| `Quadrants.PlayerQuadrant.SetCellType` | build/classes/source/seasofyore/core/PlayerQuadrant.java:239-242 | exactly the one cell is written; a cell code keeps the grid well formed |
| `Quadrants.PlayerQuadrant.FireAtCell` | build/classes/source/seasofyore/core/PlayerQuadrant.java:251-262 | true iff the cell was targetable; then SHIP→HIT or WATER→MISS at that cell only, else no change; the hit cells grow by the cell iff it held SHIP |
| `Quadrants.PlayerQuadrant.EraseCells` | src/seasofyore/core/Player.java:158 | every cell becomes WATER |
| `Quadrants.PlayerQuadrant.SetQuadrantAt` | build/classes/source/seasofyore/core/PlayerQuadrant.java:283-286 | writes column x of row y and no other cell |
| `Players.Player.constructor` | src/seasofyore/core/Player.java:57-64 | the given civilization and grids, an empty fleet in fresh arrays, and no ship placed |
| `Players.Player.ShipCells` | src/seasofyore/core/Player.java:202 | a placed ship covers as many cells as it has decks, which is its type's length |
| `Players.Player.PlaceVessel` | src/seasofyore/core/Player.java:123-133 | succeeds iff the grid accepts the heading; on success ship and heading go into slot `placedShips`, which then grows by one; on failure nothing changes; the fleet stays on SHIP or HIT cells |
| `Players.Player.RecordVessel` | src/seasofyore/core/Player.java:128-129 | slot `placedShips` gets the ship and its heading, the counter grows by one, and earlier ships keep their cells |
| `Players.Player.Reset` | src/seasofyore/core/Player.java:153-159 | fresh empty fleet and location arrays, no ship placed, and a friendly grid of WATER |
| `Players.Player.FireAtEnemyCell` | src/seasofyore/core/Player.java:168-174 | true iff the enemy cell was targetable; the shot lands there only; the friendly grid is untouched |
| `Players.Player.TryEnemyShipDamage` | src/seasofyore/core/Player.java:185-193 | true iff the enemy cell held SHIP; only then is it fired on, so a miss is never recorded |
| `Players.Player.SyncDecksToQuadrantState` | src/seasofyore/core/Player.java:198-211 | every placed ship's decks equal the friendly grid's codes at its cells, and nothing else is written |
| `Players.Player.GetShipsPlaced` | src/seasofyore/core/Player.java:252-255 | between 0 and 5, and 5 exactly when all ships are placed |
| `Players.Player.GetRemainingShipsToPlace` | src/seasofyore/core/Player.java:262-265 | 5 minus the ships placed; 0 exactly when all are placed |
| `Players.Player.UnsunkCount` | src/seasofyore/core/Player.java:272-279 | at most k, and 0 exactly when each of the first k ships is sunk |
| `Players.Player.GetRemainingShips` | src/seasofyore/core/Player.java:272-279 | the count of ships not sunk over a full fleet; 0 exactly when every ship is sunk |
| `Players.Player.HasLostAsWritten` | src/seasofyore/core/Player.java:218-221 | as written: fails (None) exactly when the fleet is incomplete, and otherwise answers `Defeated` |
| `Players.Player.HasLost` | src/seasofyore/core/Player.java:218-231 | with the guard first: true iff all five ships are placed and all are sunk |
| `Players.Player.IsShipPlaced` | src/seasofyore/core/Player.java:239-245 | true iff the ship object is in a filled slot |
| `Players.Player.FirstShipAt` | src/seasofyore/core/Player.java:288-301 | the first slot from `from` on whose ship covers c, or none when no such slot exists |
| `Players.Player.GetShipAt` | src/seasofyore/core/Player.java:288-301 | the first fleet ship covering (x, y), or null when none does; it needs a full fleet only when no placed ship covers the cell |
| `Players.Player.SunkIffAllHit` | src/seasofyore/core/Player.java:198-211 | after a sync, a placed ship is sunk iff every one of its cells is HIT |
| `Players.Player.DefeatedIffEveryShipCellHit` | src/seasofyore/core/Player.java:218-221 | after a sync, a player has lost iff the fleet is complete and every cell of every ship is HIT |
| `Boards.Board.constructor` | src/seasofyore/core/Board.java:54-64 | two water grids wired crosswise, the Britons to move, setup under way, no ship placed |
| `Boards.Board.GetNextPlayer` | src/seasofyore/core/Board.java:184-187 | always the player who is not current |
| `Boards.Board.GetCurrentPlayer` | src/seasofyore/core/Board.java:174-177 | one of the two players, and not the next one |
| `Boards.Board.GetNextQuadrant` | src/seasofyore/core/Board.java:234-237 | the next player's own grid, which is the current player's enemy grid |
| `Boards.Board.GetCurrentQuadrant` | src/seasofyore/core/Board.java:244-247 | the current player's own grid, which is the next player's enemy grid |
| `Boards.Board.HasCurrentFinishedSetup` | src/seasofyore/core/Board.java:143-146 | the current fleet is complete; always so once setup is over |
| `Boards.Board.HasNextFinishedSetup` | src/seasofyore/core/Board.java:153-156 | the next fleet is complete; with the current one complete too, placement is final |
| `Boards.Board.Defender` | src/seasofyore/core/Board.java:100 | the other player, whose friendly grid is the attacker's enemy grid |
| `Boards.Board.SwitchTurns` | src/seasofyore/core/Board.java:111-116 | the current player always flips; setup ends exactly when both fleets are complete, and never starts again |
| `Boards.Board.PlaceShip` | src/seasofyore/core/Board.java:74-84 | outside setup or for the wrong player: false and nothing changes; otherwise true iff the heading fits the player's grid, exactly the ship's cells become SHIP on success and the grid is untouched on failure, the next slot records ship and heading on success and the count, fleet and locations are unchanged on failure; a success that completes the fleet passes the turn, and setup ends iff the other fleet is complete too |
| `Boards.Board.FireAtCell` | src/seasofyore/core/Board.java:95-105 | during setup: the exception, with no grid changed; otherwise the shot lands on the defender's friendly grid, and the result is whether that cell held SHIP before |
| `Boards.Board.IsGameOverAsWritten` | src/seasofyore/core/Board.java:123-126 | as written: fails (None) exactly when the Britons' fleet is incomplete, or the Britons have not lost and the Franks' fleet is incomplete; otherwise true iff either player is defeated |
| `Boards.Board.IsGameOver` | src/seasofyore/core/Board.java:123-126 | over the corrected `hasLost`: true iff either player is defeated, on every board including one in setup |
| `ClassicBattle.Classify` | build/classes/source/seasofyore/BattlePhase.java:158-169 | a miss iff no ship covers the cell; otherwise the type of the first ship covering it, which is sunk iff none of its decks is intact |
| `ClassicBattle.Predict` | build/classes/source/seasofyore/BattlePhase.java:158-169 | the grid-only reading of the report: sunk iff every cell of the first covering ship was hit before or has been shot since |
| `ClassicBattle.FirstBerthIsFirstShip` | src/seasofyore/core/Player.java:288-301 | the berth search and `getShipAt` pick the same slot |
| `ClassicBattle.ClassifyReadsGrid` | build/classes/source/seasofyore/BattlePhase.java:158-169 | with the decks synced, the deck-based report equals the grid-based one |
| `ClassicBattle.ReportPredicted` | build/classes/source/seasofyore/BattlePhase.java:158-169 | after a sync, the deck-based report is the one predicted from the grid before the shots |
| `ClassicBattle.CanFireOnMeansTargetable` | build/classes/source/seasofyore/CellPanel.java:190-193 | on a grid cell, `canFireOn` holds iff the cell takes clicks and is targetable |
| `ClassicBattle.FireOnGrid` | src/seasofyore/ui/ui/QuadrantPanel.java:540 | the grid shot: registered iff the cell was targetable; the fleet's hit cells grow exactly by the shot cell where it covers it |
| `ClassicBattle.FireOnPanel` | src/seasofyore/ui/ui/QuadrantPanel.java:538-543 | the shot lands on the owner's grid and then the decks match the grid; the flag means "registered", not "hit" |
| `ClassicBattle.GetHitIdentifier` | build/classes/source/seasofyore/BattlePhase.java:158-169 | the report read off the first ship at the cell: sunk, hit or miss |
| `ClassicBattle.ReportShot` | build/classes/source/seasofyore/BattlePhase.java:104 | after a registered shot and its sync, the report is the one the grid before the shot predicts |
| `ClassicBattle.LandShot` | build/classes/source/seasofyore/BattlePhase.java:102-117 | registered iff the cell was targetable; a registered shot is reported, an unregistered one is a miss; `lost` iff the owner is defeated |
| `ClassicBattle.BattlePhase.constructor` | build/classes/source/seasofyore/BattlePhase.java:73-79 | the target is the next player |
| `ClassicBattle.BattlePhase.HandleCellClick` | build/classes/source/seasofyore/BattlePhase.java:90-121 | a cell that cannot be fired on is turned away with nothing changed; otherwise one shot and its report; victory for the current player iff the target is defeated; otherwise the grid stops taking clicks |
| `SalvoBattle.ResolveShot` | src/seasofyore/core/SalvoBattlePhase.java:110-114 | one queued shot lands with its sync, and its report is the one the grid before it predicts |
| `SalvoBattle.VolleyReports` | src/seasofyore/core/SalvoBattlePhase.java:103-124 | the first report followed by those of the rest are, in order, the predictions from the grid before the volley |
| `SalvoBattle.PlayVolley` | src/seasofyore/core/SalvoBattlePhase.java:103-125 | every queued cell is fired on, in order (a repeated cell changes nothing); the fleet's new hits are those among the volley; report k is predicted from the grid before the volley and the first k+1 shots |
| `SalvoBattle.LandVolley` | src/seasofyore/core/SalvoBattlePhase.java:103-141 | the volley lands, then there is one victory check: victory for the attacker iff the target is defeated |
| `SalvoBattle.SalvoBattlePhase.constructor` | src/seasofyore/core/SalvoBattlePhase.java:47-57 | the target is the next player; both queues start empty; the allowance and the shots remaining are the current player's un-sunk ships |
| `SalvoBattle.SalvoBattlePhase.PollQueues` | src/seasofyore/core/SalvoBattlePhase.java:107-110 | both queues end empty, the shots go out in queue order, and the grids are untouched |
| `SalvoBattle.SalvoBattlePhase.PlayNextAnimation` | src/seasofyore/core/SalvoBattlePhase.java:103-141 | the whole queue lands in order, both queues end empty, and the reports and the single victory check are as `LandVolley` states |
| `SalvoBattle.SalvoBattlePhase.QueueShot` | src/seasofyore/core/SalvoBattlePhase.java:83-91 | the shot joins the tail of the queue with its stone, one shot is used, and the grids are untouched |
| `SalvoBattle.SalvoBattlePhase.FireLastShot` | src/seasofyore/core/SalvoBattlePhase.java:93-94 | the last shot is queued and the whole queue, ending with it, lands |
| `SalvoBattle.SalvoBattlePhase.HandleCellClick` | src/seasofyore/core/SalvoBattlePhase.java:68-95 | no shots left, or a cell that cannot be fired on: refused with nothing changed. Otherwise the shot is queued and one shot used. The click that uses the last shot lands the queue in order, reports every shot and checks victory once. Queued + landed + remaining always equals the allowance |
| `SalvoBattle.SalvoBattlePhase.Cleanup` | src/seasofyore/core/SalvoBattlePhase.java:161-167 | the stones are cleared and no shot is left; the shot queue is kept |

## Left out

- Everything Swing draws, and the animation timers, terminal messages and win screen, are not modelled; the battle rules keep only what is decided.
- Randomness is left out: `Direction.getRandom` and `Player.randomVesselPlacement`.
- `ShipType` descriptions are free text and are left out.
- Board's `getCurrentQuadrantPanel` and `getNextQuadrantPanel` build interface objects and are left out.
- The trivial getters (`getShipType`, `getCiv`, `getFleet`, `getFriendlyQuad`, `isSetupPhase`, `getBritons` and the like) are fields of the model.
- `PlayerQuadrant.eraseCells` is not part of this model. `EraseCells` assumes the effect `Player.reset` relies on: every cell becomes water.
- Animation callbacks are synchronous. Classic: the shot lands within the click. Salvo: the recursive `playNextAnimation` lands the whole queue in one call, in queue order.
- Salvo: the animation queue holds only stones, so it is modelled as its length.
- Salvo: the red SALVO border of `lockCellForSALVO`/`unlockForSALVO` is not modelled. `canFireOn` ignores it, so one cell can be queued twice; its second landing is a shot that changes nothing, and the model keeps that.
- A cell's interaction flag belongs to the interface. The click handlers take it as a parameter and return its new value.
- The classic phase's `cleanup` only resets the interface, so it is not modelled.
- `Next` and `Previous` in both catalogues are written as the tables they compute. `NextPreviousIndexValues` proves each table equal to the source's `VALUES[(ordinal() ± 1 + length) % length]`.
- `hasLost` inside the battle rules is evaluated through `UnsunkCount`, the function that `Player.HasLost` and `Player.GetRemainingShips` are proved against. The salvo winner is the attacker captured on entry, which is the board's current player, since the turn does not change during the phase.
- Players.Player.PlaceVessel: requires `placedShips < 5`. The source would write the grid and then overflow `fleet[5]`. It also requires that the new ship's deck array is not already in the fleet: every caller passes a freshly built ship, and a sync would otherwise write one array for two ships.
- Boards.Board.PlaceShip: requires the same as `PlaceVessel`, but only when the call reaches it (during setup, for the current player).
- ClassicBattle.BattlePhase.HandleCellClick: requires the clicked cell to be inside the grid. The interface only ever sends such cells, and `getCellAt` has no cell outside it.
- SalvoBattle.SalvoBattlePhase.HandleCellClick: requires the clicked cell to be inside the grid, for the same reason.
- Players.Player.GetRemainingShips: requires a full fleet, because the source's loop calls `isSunk()` on all five slots and fails on an empty one.
- Players.Player.GetShipAt: requires a full fleet or a placed ship covering the cell. The source returns at the first covering slot, so it reaches an empty slot, and fails there, only when neither holds. Its one caller runs in battle, where the fleet is full.
- Quadrants.PlayerQuadrant.SetCellType and Quadrants.PlayerQuadrant.SetQuadrantAt: require the cell to be inside the grid. The source indexes the array directly and throws an index exception for a cell outside it; that exception is not modelled. Inside the core, `setQuadrantAt` is reached only after a bounds check (placement checks the range, `fireAtCell` checks targetability), and `setCellType` has no caller in the files modelled.
- Boards.Board.IsGameOver: answers from the corrected `hasLost`, so it returns false during setup where the source's `isGameOver` fails while a fleet it inspects is incomplete (a fresh board, for one). `IsGameOverAsWritten` models that failure.
- Integers are unbounded. No value in this core comes near the 32-bit range: grid coordinates are below 10 and counts below 6.

## Findings

| source | as written | input that shows it | evidently intended | confidence | as-written member | corrected member |
|---|---|---|---|---|---|---|
| src/seasofyore/core/Player.java:218-221 | `hasLost` calls `getRemainingShips()` before checking `hasPlacedAllShips()`, and `getRemainingShips()` calls `isSunk()` on every slot | a player with fewer than five ships placed: the loop reaches an empty (null) slot and fails instead of answering false | check the fleet is complete first, then count un-sunk ships | not executed | `Players.Player.HasLostAsWritten` | `Players.Player.HasLost` |
| src/seasofyore/core/Board.java:123-126 | `isGameOver` calls `britons.hasLost()` and then, unless the Britons have lost, `franks.hasLost()`, each with the order above | a fresh board, or a board whose Britons have placed all five ships and the Franks fewer: `hasLost` fails instead of answering false | false while no complete fleet is sunk | not executed | `Boards.Board.IsGameOverAsWritten` | `Boards.Board.IsGameOver` |
| build/classes/seasofyore/core/Ship.java:163-176 | `isDamaged` answers "deck sum ≤ 0" | a galleon with decks [-1, 1, 1, 1, 1] has sum 3, so it is not damaged, though one deck is destroyed | as its comment says, damaged as soon as any deck is destroyed | not executed | `Ships.OneHitGalleonNotDamaged` | `Ships.HasDestroyedDeckOnFirstHit` |
