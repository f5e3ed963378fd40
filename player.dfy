/**
 * A player's fleet bookkeeping (src/seasofyore/core/Player.java): the ships
 * placed so far, where they lie, and references to the player's own grid
 * and to the opponent's grid.
 */
module Players {
  import opened Wrappers
  import opened CellCodes
  import opened Headings
  import opened Ships
  import opened Quadrants

  /** The two sides of the game. */
  datatype Civilization = Britons | Franks

  const FLEET_SIZE: int := 5

  class Player {
    const civ: Civilization
    const friendlyQuad: PlayerQuadrant
    const enemyQuad: PlayerQuadrant
    var fleet: array<Ship?>
    var locations: array<Option<Heading>>
    var placedShips: int

    /**
     * The fleet is filled from slot 0 upwards: exactly the first
     * `placedShips` slots hold a ship and its heading, and no two placed
     * ships share a deck array.
     */
    ghost predicate Valid()
      reads this, fleet, locations
    {
      friendlyQuad.Valid() && enemyQuad.Valid() &&
      fleet.Length == FLEET_SIZE && locations.Length == FLEET_SIZE &&
      0 <= placedShips <= FLEET_SIZE &&
      (forall i :: 0 <= i < FLEET_SIZE ==> (fleet[i] != null <==> i < placedShips)) &&
      (forall i :: 0 <= i < FLEET_SIZE ==> (locations[i].Some? <==> i < placedShips)) &&
      (forall i :: 0 <= i < placedShips ==> fleet[i].Valid()) &&
      (forall i, j :: 0 <= i < j < placedShips ==> fleet[i].decks != fleet[j].decks)
    }

    /** The deck arrays of the placed ships: what a deck sync writes. */
    ghost function DeckArrays(): set<array<int>>
      reads this, fleet
    {
      set i | 0 <= i < placedShips && i < fleet.Length && fleet[i] != null :: fleet[i].decks
    }

    /** The occupied cells of placed ship i, rear first. */
    function ShipCells(i: int): (cells: seq<Cell>)
      requires Valid() && 0 <= i < placedShips
      reads this, fleet, locations
      ensures |cells| == fleet[i].decks.Length == ShipTypes.Length(fleet[i].shipType)
    {
      OccupiedCells(locations[i].value, fleet[i].GetLength())
    }

    /** Every cell of every placed ship is inside the friendly grid and still SHIP there, or HIT. */
    ghost predicate FleetAfloatOrHit()
      requires Valid()
      reads this, fleet, locations, friendlyQuad.quad
    {
      forall i, j :: 0 <= i < placedShips && 0 <= j < |ShipCells(i)| ==>
        InBounds(ShipCells(i)[j].x, ShipCells(i)[j].y) &&
        (friendlyQuad.quad[ShipCells(i)[j].y, ShipCells(i)[j].x] == SHIP ||
         friendlyQuad.quad[ShipCells(i)[j].y, ShipCells(i)[j].x] == HIT)
    }

    /** Every placed ship's decks hold the friendly grid's codes at its cells. */
    ghost predicate Synced()
      requires Valid()
      reads this, fleet, locations, friendlyQuad.quad
      reads set k | 0 <= k < placedShips && k < fleet.Length && fleet[k] != null :: fleet[k].decks
    {
      forall i :: 0 <= i < placedShips ==> fleet[i].decks[..] == friendlyQuad.CellTypes(ShipCells(i))
    }

    /** `Player(thisCiv, fQ, eQ)`: an empty fleet over the given grids. */
    constructor (thisCiv: Civilization, fQ: PlayerQuadrant, eQ: PlayerQuadrant)
      requires fQ.Valid() && eQ.Valid()
      ensures Valid() && fresh(fleet) && fresh(locations)
      ensures civ == thisCiv && friendlyQuad == fQ && enemyQuad == eQ && placedShips == 0
    {
      civ := thisCiv;
      enemyQuad := eQ;
      friendlyQuad := fQ;
      fleet := new Ship?[FLEET_SIZE](_ => null);
      locations := new Option<Heading>[FLEET_SIZE](_ => None);
      placedShips := 0;
    }

    /**
     * `placeVessel`: places the ship on the friendly grid and, when that
     * succeeds, records ship and heading in the next free slot.
     */
    method PlaceVessel(vessel: Ship, heading: ShipHeading) returns (placed: bool)
      requires Valid() && vessel.Valid() && placedShips < FLEET_SIZE
      requires vessel.decks !in DeckArrays()
      modifies this, fleet, locations, friendlyQuad.quad
      ensures Valid() && fleet == old(fleet) && locations == old(locations)
      ensures placed <==> old(friendlyQuad.Fits(OccupiedCells(heading.Value(), ShipTypes.Length(vessel.shipType))))
      ensures friendlyQuad.PlacedOn(OccupiedCells(heading.Value(), ShipTypes.Length(vessel.shipType)), placed)
      ensures placed ==>
        placedShips == old(placedShips) + 1 &&
        fleet[..] == old(fleet[..])[old(placedShips) := vessel] &&
        locations[..] == old(locations[..])[old(placedShips) := Some(heading.Value())]
      ensures !placed ==>
        placedShips == old(placedShips) && fleet[..] == old(fleet[..]) && locations[..] == old(locations[..])
      ensures old(friendlyQuad.WellFormed()) ==> friendlyQuad.WellFormed()
      ensures old(FleetAfloatOrHit()) ==> FleetAfloatOrHit()
    {
      ghost var cells := OccupiedCells(heading.Value(), ShipTypes.Length(vessel.shipType));
      placed := friendlyQuad.PlaceShip(vessel, heading);
      if placed {
        RecordVessel(vessel, heading.Value());
      }
      if old(FleetAfloatOrHit()) {
        forall i, j | 0 <= i < placedShips && 0 <= j < |ShipCells(i)|
          ensures InBounds(ShipCells(i)[j].x, ShipCells(i)[j].y)
          ensures friendlyQuad.quad[ShipCells(i)[j].y, ShipCells(i)[j].x] in {SHIP, HIT}
        {
          var c := ShipCells(i)[j];
          if i < old(placedShips) {
            assert c == old(ShipCells(i))[j];
          } else {
            assert c == cells[j];
          }
        }
      }
    }

    /** The two stores and the increment of a successful `placeVessel`: ship and heading go into the next free slot. */
    method RecordVessel(vessel: Ship, h: Heading)
      requires Valid() && vessel.Valid() && placedShips < FLEET_SIZE
      requires vessel.decks !in DeckArrays()
      modifies this, fleet, locations
      ensures Valid() && fleet == old(fleet) && locations == old(locations)
      ensures placedShips == old(placedShips) + 1
      ensures fleet[..] == old(fleet[..])[old(placedShips) := vessel]
      ensures locations[..] == old(locations[..])[old(placedShips) := Some(h)]
      ensures ShipCells(old(placedShips)) == OccupiedCells(h, ShipTypes.Length(vessel.shipType))
      ensures forall i :: 0 <= i < old(placedShips) ==> ShipCells(i) == old(ShipCells(i))
    {
      forall i | 0 <= i < placedShips
        ensures fleet[i].decks != vessel.decks
      {
        assert fleet[i].decks in DeckArrays();
      }
      var k := placedShips;
      fleet[k] := vessel;
      locations[k] := Some(h);
      placedShips := k + 1;
      assert forall i :: 0 <= i < FLEET_SIZE ==> (fleet[i] != null <==> i < placedShips);
      assert forall i :: 0 <= i < FLEET_SIZE ==> (locations[i].Some? <==> i < placedShips);
    }

    /** `reset`: an empty fleet in fresh arrays and a friendly grid of water. */
    method Reset()
      requires Valid()
      modifies this, friendlyQuad.quad
      ensures Valid() && placedShips == 0 && fresh(fleet) && fresh(locations)
      ensures forall y, x :: 0 <= y < GRID_SIZE && 0 <= x < GRID_SIZE ==> friendlyQuad.quad[y, x] == WATER
      ensures friendlyQuad.WellFormed()
    {
      fleet := new Ship?[FLEET_SIZE](_ => null);
      locations := new Option<Heading>[FLEET_SIZE](_ => None);
      placedShips := 0;
      friendlyQuad.EraseCells();
    }

    /** `fireAtEnemyCell`: fires on a targetable enemy cell and reports whether it did. */
    method FireAtEnemyCell(x: int, y: int) returns (fired: bool)
      requires Valid()
      modifies enemyQuad.quad
      ensures fired <==> old(enemyQuad.CellIsTargetable(x, y))
      ensures enemyQuad.ShotAt(x, y, true)
      ensures old(enemyQuad.WellFormed()) ==> enemyQuad.WellFormed()
    {
      if !enemyQuad.CellIsTargetable(x, y) {
        return false;
      }
      fired := enemyQuad.FireAtCell(x, y);
      return true;
    }

    /**
     * `tryEnemyShipDamage`: fires only when the enemy cell holds an intact
     * ship deck, so a shot on water records no miss.
     */
    method TryEnemyShipDamage(x: int, y: int) returns (damaged: bool)
      requires Valid()
      modifies enemyQuad.quad
      ensures damaged <==> old(enemyQuad.CellIsShip(x, y))
      ensures enemyQuad.ShotAt(x, y, damaged)
    {
      damaged := enemyQuad.CellIsShip(x, y);
      if damaged {
        damaged := enemyQuad.FireAtCell(x, y);
      }
    }

    /** `syncDecksToQuadrantState`: copies the friendly grid's codes at each ship's cells into its decks. */
    method SyncDecksToQuadrantState()
      requires Valid()
      modifies DeckArrays()
      ensures Synced()
    {
      var i := 0;
      while i < placedShips
        invariant 0 <= i <= placedShips
        invariant forall k :: 0 <= k < i ==> fleet[k].decks[..] == friendlyQuad.CellTypes(ShipCells(k))
      {
        var area := OccupiedCells(locations[i].value, fleet[i].GetLength());
        var ship := fleet[i];
        var target := friendlyQuad.CellTypes(area);
        var j := 0;
        while j < ship.GetLength()
          invariant 0 <= j <= ship.decks.Length
          invariant ship.decks[..j] == target[..j]
          modifies ship.decks
        {
          ship.SetDeck(j, friendlyQuad.GetCellType(area[j].x, area[j].y));
          j := j + 1;
        }
        assert ship.decks[..] == ship.decks[..j];
        i := i + 1;
      }
    }

    /** `hasPlacedAllShips` */
    predicate HasPlacedAllShips()
      reads this
    {
      placedShips == FLEET_SIZE
    }

    /** `getShipsPlaced`: how many slots are filled. */
    function GetShipsPlaced(): (n: int)
      requires Valid()
      reads this, fleet, locations
      ensures 0 <= n <= FLEET_SIZE
      ensures n == FLEET_SIZE <==> HasPlacedAllShips()
    {
      placedShips
    }

    /** `getRemainingShipsToPlace`: the empty slots left. */
    function GetRemainingShipsToPlace(): (n: int)
      requires Valid()
      reads this, fleet, locations
      ensures 0 <= n <= FLEET_SIZE && n + GetShipsPlaced() == FLEET_SIZE
      ensures n == 0 <==> HasPlacedAllShips()
    {
      FLEET_SIZE - placedShips
    }

    /** How many of the first k placed ships are not sunk. */
    function UnsunkCount(k: int): (n: nat)
      requires Valid() && 0 <= k <= placedShips
      reads this, fleet, locations
      reads set k | 0 <= k < placedShips && k < fleet.Length && fleet[k] != null :: fleet[k].decks
      ensures n <= k
      ensures n == 0 <==> forall i :: 0 <= i < k ==> Sunk(fleet[i].decks[..])
      decreases k
    {
      if k == 0 then 0
      else UnsunkCount(k - 1) + (if Sunk(fleet[k - 1].decks[..]) then 0 else 1)
    }

    /**
     * `getRemainingShips`: the number of fleet ships not sunk. It visits all
     * five slots, so it needs a full fleet.
     */
    method GetRemainingShips() returns (count: int)
      requires Valid() && placedShips == FLEET_SIZE
      ensures count == UnsunkCount(FLEET_SIZE)
      ensures 0 <= count <= FLEET_SIZE
      ensures count == 0 <==> forall i :: 0 <= i < FLEET_SIZE ==> Sunk(fleet[i].decks[..])
    {
      count := 0;
      var i := 0;
      while i < fleet.Length
        invariant 0 <= i <= FLEET_SIZE
        invariant count == UnsunkCount(i)
      {
        var sunk := fleet[i].IsSunk();
        if !sunk {
          count := count + 1;
        }
        i := i + 1;
      }
    }

    /** The whole fleet is placed and every ship in it is sunk. */
    ghost predicate Defeated()
      requires Valid()
      reads this, fleet, locations
      reads set k | 0 <= k < placedShips && k < fleet.Length && fleet[k] != null :: fleet[k].decks
    {
      placedShips == FLEET_SIZE && forall i :: 0 <= i < FLEET_SIZE ==> Sunk(fleet[i].decks[..])
    }

    /**
     * `hasLost` as written: `getRemainingShips()` runs before the
     * `hasPlacedAllShips()` guard and meets an empty slot while the fleet
     * is incomplete; `None` stands for that failure.
     */
    method HasLostAsWritten() returns (lost: Option<bool>)
      requires Valid()
      ensures lost.None? <==> placedShips < FLEET_SIZE
      ensures lost.Some? ==> (lost.value <==> Defeated())
    {
      if placedShips < FLEET_SIZE {
        return None;
      }
      var remaining := GetRemainingShips();
      return Some(remaining == 0 && HasPlacedAllShips());
    }

    /** `hasLost` with the guard first: the whole fleet is placed and every ship is sunk. */
    method HasLost() returns (lost: bool)
      requires Valid()
      ensures lost <==> Defeated()
    {
      if !HasPlacedAllShips() {
        return false;
      }
      var remaining := GetRemainingShips();
      return remaining == 0;
    }

    /** `isShipPlaced`: the given ship object sits in one of the filled slots. */
    method IsShipPlaced(ship: Ship) returns (placed: bool)
      requires Valid()
      ensures placed <==> exists i :: 0 <= i < placedShips && fleet[i] == ship
    {
      var i := 0;
      while i < placedShips
        invariant 0 <= i <= placedShips
        invariant forall k :: 0 <= k < i ==> fleet[k] != ship
      {
        if fleet[i] == ship && locations[i].Some? {
          return true;
        }
        i := i + 1;
      }
      return false;
    }

    /** The first placed slot from `from` on whose ship covers cell c. */
    function FirstShipAt(c: Cell, from: int): (r: Option<int>)
      requires Valid() && 0 <= from <= placedShips
      reads this, fleet, locations
      ensures r.None? ==> forall i :: from <= i < placedShips ==> c !in ShipCells(i)
      ensures r.Some? ==>
        from <= r.value < placedShips && c in ShipCells(r.value) &&
        forall i :: from <= i < r.value ==> c !in ShipCells(i)
      decreases placedShips - from
    {
      if from == placedShips then None
      else if c in ShipCells(from) then Some(from)
      else FirstShipAt(c, from + 1)
    }

    /**
     * `getShipAt`: the first fleet ship covering (x, y), or null. It stops at
     * the first covering slot, so it reaches an empty slot, and fails there,
     * only when no placed ship covers the cell while the fleet is incomplete.
     */
    method GetShipAt(x: int, y: int) returns (ship: Ship?)
      requires Valid() && (placedShips == FLEET_SIZE || FirstShipAt(Cell(x, y), 0).Some?)
      ensures FirstShipAt(Cell(x, y), 0).None? ==> ship == null
      ensures FirstShipAt(Cell(x, y), 0).Some? ==> ship == fleet[FirstShipAt(Cell(x, y), 0).value]
    {
      var i := 0;
      while i < locations.Length
        invariant 0 <= i <= placedShips
        invariant FirstShipAt(Cell(x, y), 0) == FirstShipAt(Cell(x, y), i)
        invariant placedShips == FLEET_SIZE || FirstShipAt(Cell(x, y), i).Some?
      {
        var cells := OccupiedCells(locations[i].value, fleet[i].GetLength());
        var j := 0;
        while j < |cells|
          invariant 0 <= j <= |cells|
          invariant forall k :: 0 <= k < j ==> cells[k] != Cell(x, y)
        {
          if x == cells[j].x && y == cells[j].y {
            return fleet[i];
          }
          j := j + 1;
        }
        i := i + 1;
      }
      return null;
    }

    /** After a sync, a placed ship is sunk exactly when every one of its cells has been hit. */
    lemma SunkIffAllHit(i: int)
      requires Valid() && FleetAfloatOrHit() && Synced() && 0 <= i < placedShips
      ensures Sunk(fleet[i].decks[..]) <==>
        forall j :: 0 <= j < |ShipCells(i)| ==> friendlyQuad.CellIsHit(ShipCells(i)[j].x, ShipCells(i)[j].y)
    {
      var cells := ShipCells(i);
      assert forall j :: 0 <= j < |cells| ==> fleet[i].decks[..][j] == friendlyQuad.quad[cells[j].y, cells[j].x];
    }

    /**
     * With decks synced and the fleet still on its cells, the player is
     * defeated exactly when the fleet is complete and every cell of every
     * ship is hit.
     */
    lemma DefeatedIffEveryShipCellHit()
      requires Valid() && FleetAfloatOrHit() && Synced()
      ensures Defeated() <==>
        placedShips == FLEET_SIZE &&
        forall i, j :: 0 <= i < FLEET_SIZE && 0 <= j < |ShipCells(i)| ==>
          friendlyQuad.CellIsHit(ShipCells(i)[j].x, ShipCells(i)[j].y)
    {
      forall i | 0 <= i < placedShips {
        SunkIffAllHit(i);
      }
    }
  }
}
