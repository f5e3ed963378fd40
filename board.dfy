/**
 * The game board (src/seasofyore/core/Board.java): the two players, their two
 * grids wired crosswise, whose turn it is, and whether the game is still in
 * its setup phase.
 */
module Boards {
  import opened Wrappers
  import opened CellCodes
  import opened Headings
  import opened Ships
  import opened Quadrants
  import opened Players

  /** What `fireAtCell` ends in: the pre-shot hit flag, or the exception it throws during setup. */
  datatype FireResult = Fired(hit: bool) | FiredDuringSetup

  class Board {
    const britons: Player
    const franks: Player
    const bQuad: PlayerQuadrant
    const fQuad: PlayerQuadrant
    var currentPlayer: Player
    var setupPhase: bool

    /**
     * Each player's friendly grid is the other's enemy grid, the two grids
     * and the two players' arrays are distinct, the current player is one
     * of the two, and the battle phase is only reached once both fleets are
     * complete.
     */
    ghost predicate Valid()
      reads this, britons, franks, britons.fleet, britons.locations, franks.fleet, franks.locations
    {
      britons != franks &&
      britons.Valid() && franks.Valid() &&
      britons.civ == Civilization.Britons && franks.civ == Civilization.Franks &&
      britons.friendlyQuad == bQuad && britons.enemyQuad == fQuad &&
      franks.friendlyQuad == fQuad && franks.enemyQuad == bQuad &&
      bQuad.quad != fQuad.quad &&
      britons.fleet != franks.fleet && britons.locations != franks.locations &&
      (currentPlayer == britons || currentPlayer == franks) &&
      (!setupPhase ==> britons.placedShips == FLEET_SIZE && franks.placedShips == FLEET_SIZE)
    }

    /** Both grids hold only cell codes and each fleet still lies on SHIP or HIT cells. */
    ghost predicate Sound()
      reads britons, franks, britons.fleet, britons.locations, franks.fleet, franks.locations
      reads bQuad.quad, fQuad.quad, britons.friendlyQuad.quad, franks.friendlyQuad.quad
    {
      bQuad.WellFormed() && fQuad.WellFormed() &&
      britons.Valid() && britons.FleetAfloatOrHit() &&
      franks.Valid() && franks.FleetAfloatOrHit()
    }

    /** `Board()`: two water grids, the Britons to move first, setup under way. */
    constructor ()
      ensures Valid() && Sound()
      ensures currentPlayer == britons && setupPhase
      ensures britons.placedShips == 0 && franks.placedShips == 0
      ensures forall y, x :: 0 <= y < GRID_SIZE && 0 <= x < GRID_SIZE ==>
        bQuad.quad[y, x] == WATER && fQuad.quad[y, x] == WATER
    {
      var b := new PlayerQuadrant();
      var f := new PlayerQuadrant();
      bQuad := b;
      fQuad := f;
      var first := new Player(Civilization.Britons, b, f);
      britons := first;
      franks := new Player(Civilization.Franks, f, b);
      currentPlayer := first;
      setupPhase := true;
    }

    /** `getNextPlayer`: the player who is not the current one. */
    function GetNextPlayer(): (p: Player)
      requires Valid()
      reads this, britons, franks, britons.fleet, britons.locations, franks.fleet, franks.locations
      ensures p != currentPlayer && (p == britons || p == franks)
      ensures currentPlayer == britons <==> p == franks
    {
      if britons == currentPlayer then franks else britons
    }

    /** `getCurrentPlayer` */
    function GetCurrentPlayer(): (p: Player)
      requires Valid()
      reads this, britons, franks, britons.fleet, britons.locations, franks.fleet, franks.locations
      ensures p != GetNextPlayer() && (p == britons || p == franks)
    {
      currentPlayer
    }

    /** `getNextQuadrant`: the next player's own grid, which is the grid the current player fires at. */
    function GetNextQuadrant(): (q: PlayerQuadrant)
      requires Valid()
      reads this, britons, franks, britons.fleet, britons.locations, franks.fleet, franks.locations
      ensures q == currentPlayer.enemyQuad && q != currentPlayer.friendlyQuad
    {
      GetNextPlayer().friendlyQuad
    }

    /** `getCurrentQuadrant`: the current player's own grid, which is the grid the next player fires at. */
    function GetCurrentQuadrant(): (q: PlayerQuadrant)
      requires Valid()
      reads this, britons, franks, britons.fleet, britons.locations, franks.fleet, franks.locations
      ensures q == GetNextPlayer().enemyQuad && q != GetNextQuadrant()
    {
      GetCurrentPlayer().friendlyQuad
    }

    /** `isPlacementFinal`: both fleets are complete. */
    predicate IsPlacementFinal()
      reads this, britons, franks
    {
      britons.HasPlacedAllShips() && franks.HasPlacedAllShips()
    }

    /** `hasCurrentFinishedSetup`: the current player's fleet is complete. */
    function HasCurrentFinishedSetup(): (done: bool)
      requires Valid()
      reads this, britons, franks, britons.fleet, britons.locations, franks.fleet, franks.locations
      ensures done <==> currentPlayer.placedShips == FLEET_SIZE
      ensures !setupPhase ==> done
    {
      GetCurrentPlayer().HasPlacedAllShips()
    }

    /** `hasNextFinishedSetup`: the next player's fleet is complete. */
    function HasNextFinishedSetup(): (done: bool)
      requires Valid()
      reads this, britons, franks, britons.fleet, britons.locations, franks.fleet, franks.locations
      ensures done <==> GetNextPlayer().placedShips == FLEET_SIZE
      ensures done && HasCurrentFinishedSetup() <==> IsPlacementFinal()
    {
      GetNextPlayer().HasPlacedAllShips()
    }

    /** The player the given attacker fires at. */
    function Defender(attacker: Player): (p: Player)
      requires Valid() && (attacker == britons || attacker == franks)
      reads this, britons, franks, britons.fleet, britons.locations, franks.fleet, franks.locations
      ensures p != attacker && (p == britons || p == franks)
      ensures p.friendlyQuad == attacker.enemyQuad
    {
      if attacker == britons then franks else britons
    }

    /**
     * `switchTurns`: the other player moves next, and setup ends exactly
     * when both fleets are complete; nothing turns setup back on.
     */
    method SwitchTurns()
      requires Valid()
      modifies this
      ensures Valid()
      ensures currentPlayer == old(GetNextPlayer())
      ensures setupPhase <==> old(setupPhase) && !old(IsPlacementFinal())
    {
      if IsPlacementFinal() && setupPhase {
        setupPhase := false;
      }
      currentPlayer := if currentPlayer == britons then franks else britons;
    }

    /**
     * `placeShip`: only the current player may place, and only during setup;
     * a placement that completes the player's fleet passes the turn.
     */
    method PlaceShip(player: Player, ship: Ship, heading: ShipHeading) returns (success: bool)
      requires Valid() && ship.Valid()
      requires setupPhase && player == currentPlayer ==>
        player.placedShips < FLEET_SIZE && ship.decks !in player.DeckArrays()
      modifies this, player, player.fleet, player.locations, player.friendlyQuad.quad
      ensures Valid()
      ensures success <==>
        old(setupPhase) && player == old(currentPlayer) &&
        old(player.friendlyQuad.Fits(OccupiedCells(heading.Value(), ShipTypes.Length(ship.shipType))))
      ensures !(old(setupPhase) && player == old(currentPlayer)) ==>
        unchanged(this, player, player.friendlyQuad.quad) && unchanged(old(player.fleet), old(player.locations))
      ensures success ==>
        player.placedShips == old(player.placedShips) + 1 &&
        player.fleet[..] == old(player.fleet[..])[old(player.placedShips) := ship] &&
        player.locations[..] == old(player.locations[..])[old(player.placedShips) := Some(heading.Value())]
      ensures !success ==>
        player.placedShips == old(player.placedShips) &&
        player.fleet[..] == old(player.fleet[..]) && player.locations[..] == old(player.locations[..])
      ensures old(setupPhase) && player == old(currentPlayer) ==>
        player.friendlyQuad.PlacedOn(OccupiedCells(heading.Value(), ShipTypes.Length(ship.shipType)), success)
      ensures success && player.placedShips == FLEET_SIZE ==>
        currentPlayer == old(GetNextPlayer()) &&
        (setupPhase <==> old(GetNextPlayer()).placedShips < FLEET_SIZE)
      ensures !(success && player.placedShips == FLEET_SIZE) ==>
        currentPlayer == old(currentPlayer) && setupPhase == old(setupPhase)
      ensures old(Sound()) ==> Sound()
    {
      if !setupPhase || player != currentPlayer {
        return false;
      }
      ghost var other := if player == britons then franks else britons;
      success := player.PlaceVessel(ship, heading);
      assert unchanged(other, other.fleet, other.locations, other.friendlyQuad.quad);
      if success && player.HasPlacedAllShips() {
        SwitchTurns();
      }
    }

    /**
     * `fireAtCell`: during setup it throws; otherwise it reports whether the
     * defender's cell held a ship before the shot and fires through the
     * attacker's enemy grid, which is the defender's friendly grid. No deck
     * is synced.
     */
    method FireAtCell(attacker: Player, x: int, y: int) returns (r: FireResult)
      requires Valid() && (attacker == britons || attacker == franks)
      modifies attacker.enemyQuad.quad
      ensures Valid()
      ensures old(setupPhase) ==> r == FiredDuringSetup && unchanged(bQuad.quad, fQuad.quad)
      ensures !old(setupPhase) ==> r == Fired(old(Defender(attacker).friendlyQuad.CellIsShip(x, y)))
      ensures !old(setupPhase) ==> Defender(attacker).friendlyQuad.ShotAt(x, y, true)
      ensures old(Sound()) ==> Sound()
    {
      if setupPhase {
        return FiredDuringSetup;
      }
      var defender := if attacker == britons then franks else britons;
      var hit := defender.friendlyQuad.CellIsShip(x, y);
      var fired := attacker.FireAtEnemyCell(x, y);
      return Fired(hit);
    }

    /**
     * `isGameOver` as written: `britons.hasLost()` fails while the Britons'
     * fleet is incomplete; when the Britons have not lost, `franks.hasLost()`
     * runs and fails while the Franks' fleet is incomplete. `None` stands
     * for that failure, which a fresh board meets.
     */
    method IsGameOverAsWritten() returns (over: Option<bool>)
      requires Valid()
      ensures over.None? <==>
        britons.placedShips < FLEET_SIZE || (!britons.Defeated() && franks.placedShips < FLEET_SIZE)
      ensures over.Some? ==> (over.value <==> britons.Defeated() || franks.Defeated())
    {
      var lostB := britons.HasLostAsWritten();
      if lostB.None? {
        return None;
      }
      if lostB.value {
        return Some(true);
      }
      var lostF := franks.HasLostAsWritten();
      if lostF.None? {
        return None;
      }
      return Some(lostF.value);
    }

    /** `isGameOver` over the corrected `hasLost`: either player has lost. */
    method IsGameOver() returns (over: bool)
      requires Valid()
      ensures over <==> britons.Defeated() || franks.Defeated()
    {
      over := britons.HasLost();
      if !over {
        over := franks.HasLost();
      }
    }
  }
}
