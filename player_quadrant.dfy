/**
 * One player's 10×10 grid (build/classes/source/seasofyore/core/PlayerQuadrant.java).
 * The grid is stored row-major: the cell at column x, row y is `quad[y, x]`.
 */
module Quadrants {
  import opened CellCodes
  import opened Headings
  import opened Ships

  /** Every cell of a ship's range lies inside the grid. */
  predicate AllInBounds(cells: seq<Cell>)
  {
    forall i :: 0 <= i < |cells| ==> InBounds(cells[i].x, cells[i].y)
  }

  class PlayerQuadrant {
    const quad: array2<int>

    /** The grid has GRID_SIZE rows and GRID_SIZE columns. */
    predicate Valid()
    {
      quad.Length0 == GRID_SIZE && quad.Length1 == GRID_SIZE
    }

    /** Every stored cell holds one of WATER, SHIP, HIT and MISS. */
    ghost predicate WellFormed()
      reads quad
    {
      Valid() &&
      forall y, x :: 0 <= y < GRID_SIZE && 0 <= x < GRID_SIZE ==> IsCellCode(quad[y, x])
    }

    /** `PlayerQuadrant()`: a fresh grid of water. */
    constructor ()
      ensures Valid() && WellFormed() && fresh(quad)
      ensures forall y, x :: 0 <= y < GRID_SIZE && 0 <= x < GRID_SIZE ==> quad[y, x] == WATER
    {
      quad := new int[GRID_SIZE, GRID_SIZE];
      new;
      var j := 0;
      while j < GRID_SIZE
        invariant 0 <= j <= GRID_SIZE
        invariant forall y, x :: 0 <= y < j && 0 <= x < GRID_SIZE ==> quad[y, x] == WATER
      {
        var i := 0;
        while i < GRID_SIZE
          invariant 0 <= i <= GRID_SIZE
          invariant forall y, x :: 0 <= y < j && 0 <= x < GRID_SIZE ==> quad[y, x] == WATER
          invariant forall x :: 0 <= x < i ==> quad[j, x] == WATER
        {
          quad[j, i] := WATER;
          i := i + 1;
        }
        j := j + 1;
      }
    }

    /** `getQuadrantAt`: column x of row y. */
    function QuadrantAt(x: int, y: int): (v: int)
      requires Valid() && InBounds(x, y)
      reads quad
      ensures WellFormed() ==> IsCellCode(v)
    {
      quad[y, x]
    }

    /** `cellIsShip` */
    predicate CellIsShip(x: int, y: int)
      requires Valid()
      reads quad
    {
      InBounds(x, y) && QuadrantAt(x, y) == SHIP
    }

    /** `cellIsHit` */
    predicate CellIsHit(x: int, y: int)
      requires Valid()
      reads quad
    {
      InBounds(x, y) && QuadrantAt(x, y) == HIT
    }

    /** `cellIsMiss` */
    predicate CellIsMiss(x: int, y: int)
      requires Valid()
      reads quad
    {
      InBounds(x, y) && QuadrantAt(x, y) == MISS
    }

    /** `cellIsFired`: hit or miss. */
    predicate CellIsFired(x: int, y: int)
      requires Valid()
      reads quad
    {
      CellIsHit(x, y) || CellIsMiss(x, y)
    }

    /** `cellIsTargetable`: in the grid and not yet fired on. */
    predicate CellIsTargetable(x: int, y: int)
      requires Valid()
      reads quad
    {
      InBounds(x, y) && !CellIsFired(x, y)
    }

    /** `getCellType`: the stored code inside the grid, NULL outside it. */
    function GetCellType(x: int, y: int): (v: int)
      requires Valid()
      reads quad
      ensures InBounds(x, y) ==> v == quad[y, x]
      ensures WellFormed() ==> (v == NULL <==> !InBounds(x, y))
      ensures WellFormed() ==> (IsCellCode(v) <==> InBounds(x, y))
    {
      if InBounds(x, y) then QuadrantAt(x, y) else NULL
    }

    /** The codes of a list of cells, in order. */
    function CellTypes(cells: seq<Cell>): (codes: seq<int>)
      requires Valid()
      reads quad
      ensures |codes| == |cells|
      ensures forall j :: 0 <= j < |cells| ==> codes[j] == GetCellType(cells[j].x, cells[j].y)
    {
      seq(|cells|, j requires 0 <= j < |cells| reads quad => GetCellType(cells[j].x, cells[j].y))
    }

    /** A ship may go on these cells: all inside the grid and all water. */
    predicate Fits(cells: seq<Cell>)
      requires Valid()
      reads quad
    {
      AllInBounds(cells) &&
      forall i :: 0 <= i < |cells| ==> quad[cells[i].y, cells[i].x] == WATER
    }

    /** The grid after a placement: when `placed`, exactly `cells` became SHIP; every other cell kept its code. */
    twostate predicate PlacedOn(cells: seq<Cell>, placed: bool)
      requires Valid()
      reads quad
    {
      forall y, x :: 0 <= y < GRID_SIZE && 0 <= x < GRID_SIZE ==>
        quad[y, x] == if placed && Cell(x, y) in cells then SHIP else old(quad[y, x])
    }

    /** The grid after a shot that `lands` on (x, y): that cell took `AfterShot`, every other cell kept its code. */
    twostate predicate ShotAt(x: int, y: int, lands: bool)
      requires Valid()
      reads quad
    {
      forall yy, xx :: 0 <= yy < GRID_SIZE && 0 <= xx < GRID_SIZE ==>
        quad[yy, xx] == AfterShot(old(quad[yy, xx]), lands && xx == x && yy == y)
    }

    /** The grid after the given cells were each fired on, in any order and any number of times. */
    twostate predicate ShotAll(shots: seq<Cell>)
      requires Valid()
      reads quad
    {
      forall yy, xx :: 0 <= yy < GRID_SIZE && 0 <= xx < GRID_SIZE ==>
        quad[yy, xx] == AfterShot(old(quad[yy, xx]), Cell(xx, yy) in shots)
    }

    /** The cells that currently hold HIT. */
    ghost function HitCells(): (s: set<Cell>)
      requires Valid()
      reads quad
      ensures forall c :: c in s <==> InBounds(c.x, c.y) && quad[c.y, c.x] == HIT
    {
      set x, y | 0 <= x < GRID_SIZE && 0 <= y < GRID_SIZE && quad[y, x] == HIT :: Cell(x, y)
    }

    /** Inside the grid a well-formed cell is water, ship, hit or miss and nothing else; outside it every query is false. */
    lemma CellClassification(x: int, y: int)
      requires WellFormed()
      ensures !InBounds(x, y) ==>
        !CellIsShip(x, y) && !CellIsHit(x, y) && !CellIsMiss(x, y) &&
        !CellIsFired(x, y) && !CellIsTargetable(x, y) && GetCellType(x, y) == NULL
      ensures InBounds(x, y) ==> (CellIsTargetable(x, y) <==> GetCellType(x, y) == WATER || CellIsShip(x, y))
      ensures InBounds(x, y) ==> (CellIsFired(x, y) <==> !CellIsTargetable(x, y))
    {
    }

    /** `isRangeInBounds`: the scan that stops at the first cell outside the grid. */
    static method IsRangeInBounds(cells: seq<Cell>) returns (inBounds: bool)
      ensures inBounds <==> AllInBounds(cells)
    {
      var i := 0;
      while i < |cells|
        invariant 0 <= i <= |cells|
        invariant AllInBounds(cells[..i])
      {
        if !InBounds(cells[i].x, cells[i].y) {
          return false;
        }
        assert cells[..i + 1] == cells[..i] + [cells[i]];
        i := i + 1;
      }
      assert cells[..i] == cells;
      return true;
    }

    /** `isRangeEmpty`: the scan that stops at the first cell that is not water. */
    method IsRangeEmpty(cells: seq<Cell>) returns (empty: bool)
      requires Valid() && AllInBounds(cells)
      ensures empty <==> Fits(cells)
    {
      var i := 0;
      while i < |cells|
        invariant 0 <= i <= |cells|
        invariant forall k :: 0 <= k < i ==> quad[cells[k].y, cells[k].x] == WATER
      {
        if QuadrantAt(cells[i].x, cells[i].y) != WATER {
          return false;
        }
        i := i + 1;
      }
      return true;
    }

    /** `validHeading`: the ship's occupied cells are all inside the grid and all water. */
    method ValidHeading(ship: Ship, heading: ShipHeading) returns (valid: bool)
      requires Valid() && ship.Valid()
      ensures valid <==> Fits(OccupiedCells(heading.Value(), ShipTypes.Length(ship.shipType)))
    {
      var occupied := heading.GetOccupiedCells(ship.GetShipLength());
      valid := IsRangeInBounds(occupied);
      if valid {
        valid := IsRangeEmpty(occupied);
      }
    }

    /**
     * `placeShip`: when the heading is valid, exactly the occupied cells become
     * SHIP; otherwise the grid is unchanged.
     */
    method PlaceShip(ship: Ship, heading: ShipHeading) returns (placed: bool)
      requires Valid() && ship.Valid()
      modifies quad
      ensures placed <==> old(Fits(OccupiedCells(heading.Value(), ShipTypes.Length(ship.shipType))))
      ensures PlacedOn(OccupiedCells(heading.Value(), ShipTypes.Length(ship.shipType)), placed)
      ensures old(WellFormed()) ==> WellFormed()
    {
      placed := ValidHeading(ship, heading);
      if !placed {
        return;
      }
      var occupied := heading.GetOccupiedCells(ship.GetShipLength());
      var i := 0;
      while i < |occupied|
        invariant 0 <= i <= |occupied|
        invariant forall y, x :: 0 <= y < GRID_SIZE && 0 <= x < GRID_SIZE ==>
          quad[y, x] == if Cell(x, y) in occupied[..i] then SHIP else old(quad[y, x])
      {
        assert occupied[..i + 1] == occupied[..i] + [occupied[i]];
        SetQuadrantAt(occupied[i].x, occupied[i].y, SHIP);
        i := i + 1;
      }
      assert occupied[..i] == occupied;
    }

    /** `setCellType`: writes one cell; the stored array rejects a cell outside the grid. */
    method SetCellType(x: int, y: int, cellType: int)
      requires Valid() && InBounds(x, y)
      modifies quad
      ensures quad[y, x] == cellType
      ensures forall yy, xx :: 0 <= yy < GRID_SIZE && 0 <= xx < GRID_SIZE && (yy != y || xx != x) ==>
        quad[yy, xx] == old(quad[yy, xx])
      ensures old(WellFormed()) && IsCellCode(cellType) ==> WellFormed()
    {
      SetQuadrantAt(x, y, cellType);
    }

    /**
     * `fireAtCell`: a targetable cell turns SHIP into HIT and anything else
     * into MISS; every other cell, and a cell already fired on, is unchanged.
     */
    method FireAtCell(x: int, y: int) returns (fired: bool)
      requires Valid()
      modifies quad
      ensures fired <==> old(CellIsTargetable(x, y))
      ensures ShotAt(x, y, true)
      ensures old(WellFormed()) ==> WellFormed()
      ensures HitCells() == old(HitCells()) + (if old(CellIsShip(x, y)) then {Cell(x, y)} else {})
    {
      if CellIsTargetable(x, y) {
        var entry := MISS;
        if CellIsShip(x, y) {
          entry := HIT;
        }
        SetQuadrantAt(x, y, entry);
        return true;
      }
      return false;
    }

    /** The reset that `Player.reset` asks for: every cell back to water, as in a fresh grid. */
    method EraseCells()
      requires Valid()
      modifies quad
      ensures WellFormed()
      ensures forall y, x :: 0 <= y < GRID_SIZE && 0 <= x < GRID_SIZE ==> quad[y, x] == WATER
    {
      var j := 0;
      while j < GRID_SIZE
        invariant 0 <= j <= GRID_SIZE
        invariant forall y, x :: 0 <= y < j && 0 <= x < GRID_SIZE ==> quad[y, x] == WATER
      {
        var i := 0;
        while i < GRID_SIZE
          invariant 0 <= i <= GRID_SIZE
          invariant forall y, x :: 0 <= y < j && 0 <= x < GRID_SIZE ==> quad[y, x] == WATER
          invariant forall x :: 0 <= x < i ==> quad[j, x] == WATER
        {
          quad[j, i] := WATER;
          i := i + 1;
        }
        j := j + 1;
      }
    }

    /** `setQuadrantAt`: column x of row y. */
    method SetQuadrantAt(x: int, y: int, newVal: int)
      requires Valid() && InBounds(x, y)
      modifies quad
      ensures quad[y, x] == newVal
      ensures forall yy, xx :: 0 <= yy < GRID_SIZE && 0 <= xx < GRID_SIZE && (yy != y || xx != x) ==>
        quad[yy, xx] == old(quad[yy, xx])
    {
      quad[y, x] := newVal;
    }
  }
}
