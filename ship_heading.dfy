/**
 * Where a ship lies: its rear cell and the direction it faces, and the cells
 * it occupies (build/classes/seasofyore/core/ShipHeading.java).
 */
module Headings {
  import opened Directions

  /** A grid coordinate (x, y): the `int[]` pairs of the source. */
  datatype Cell = Cell(x: int, y: int)

  /** The value of a ShipHeading: rear cell (x, y) and facing direction. */
  datatype Heading = Heading(x: int, y: int, direction: Direction)

  /**
   * `getOccupiedCells(n)`: the list built by appending, for i = 0 .. n-1, the
   * cell rear + i * (dx, dy). A negative length gives the empty list.
   */
  function OccupiedCells(h: Heading, n: int): (cells: seq<Cell>)
    ensures |cells| == if n < 0 then 0 else n
    ensures n > 0 ==> cells[0] == Cell(h.x, h.y)
  {
    if n <= 0 then []
    else OccupiedCells(h, n - 1) + [Cell(h.x + (n - 1) * XOffset(h.direction), h.y + (n - 1) * YOffset(h.direction))]
  }

  /** Cell i of the range is the rear moved i unit steps along the direction. */
  lemma {:induction false} OccupiedAt(h: Heading, n: int, i: int)
    requires 0 <= i < n
    ensures OccupiedCells(h, n)[i] == Cell(h.x + i * XOffset(h.direction), h.y + i * YOffset(h.direction))
  {
    if i < n - 1 {
      OccupiedAt(h, n - 1, i);
    }
  }

  /** Every cell moved by (dx, dy). */
  function Translate(cells: seq<Cell>, dx: int, dy: int): (r: seq<Cell>)
    ensures |r| == |cells|
    ensures forall i :: 0 <= i < |r| ==> r[i] == Cell(cells[i].x + dx, cells[i].y + dy)
  {
    seq(|cells|, i requires 0 <= i < |cells| => Cell(cells[i].x + dx, cells[i].y + dy))
  }

  /** Consecutive occupied cells differ by exactly the direction's unit offset. */
  lemma OccupiedStep(h: Heading, n: int, i: nat)
    requires i + 1 < n
    ensures OccupiedCells(h, n)[i + 1]
         == Cell(OccupiedCells(h, n)[i].x + XOffset(h.direction), OccupiedCells(h, n)[i].y + YOffset(h.direction))
  {
    var cells := OccupiedCells(h, n);
    OccupiedAt(h, n, i);
    OccupiedAt(h, n, i + 1);
    match h.direction
    case North => assert cells[i + 1].y == h.y - (i + 1);
    case East => assert cells[i + 1].x == h.x + (i + 1);
    case South => assert cells[i + 1].y == h.y + (i + 1);
    case West => assert cells[i + 1].x == h.x - (i + 1);
  }

  /** The occupied cells are pairwise distinct. */
  lemma OccupiedDistinct(h: Heading, n: int, i: nat, j: nat)
    requires i < n && j < n && i != j
    ensures OccupiedCells(h, n)[i] != OccupiedCells(h, n)[j]
  {
    var cells := OccupiedCells(h, n);
    OccupiedAt(h, n, i);
    OccupiedAt(h, n, j);
    match h.direction
    case North => assert cells[i].y == h.y - i && cells[j].y == h.y - j;
    case East => assert cells[i].x == h.x + i && cells[j].x == h.x + j;
    case South => assert cells[i].y == h.y + i && cells[j].y == h.y + j;
    case West => assert cells[i].x == h.x - i && cells[j].x == h.x - j;
  }

  /** Moving the rear by (dx, dy) moves every occupied cell by (dx, dy) and keeps their order. */
  lemma AdjustedRearTranslates(h: Heading, dx: int, dy: int, n: int)
    ensures OccupiedCells(Heading(h.x + dx, h.y + dy, h.direction), n) == Translate(OccupiedCells(h, n), dx, dy)
  {
    var moved := OccupiedCells(Heading(h.x + dx, h.y + dy, h.direction), n);
    var shifted := Translate(OccupiedCells(h, n), dx, dy);
    assert |moved| == |shifted|;
    forall i | 0 <= i < |moved|
      ensures moved[i] == shifted[i]
    {
      OccupiedAt(h, n, i);
      OccupiedAt(Heading(h.x + dx, h.y + dy, h.direction), n, i);
    }
  }

  /** A mutable ShipHeading: the fields `xPos`, `yPos` and `direction`. */
  class ShipHeading {
    var xPos: int
    var yPos: int
    var direction: Direction

    constructor (x: int, y: int, d: Direction)
      ensures xPos == x && yPos == y && direction == d
    {
      xPos, yPos, direction := x, y, d;
    }

    /** The heading as a value. */
    function Value(): Heading
      reads this
    {
      Heading(xPos, yPos, direction)
    }

    /** `getRear`: the rear cell, which is the first occupied cell of any non-empty ship. */
    function GetRear(): (r: Cell)
      reads this
      ensures r == OccupiedCells(Value(), 1)[0]
    {
      Cell(xPos, yPos)
    }

    /** `getDirection` */
    function GetDirection(): (d: Direction)
      reads this
      ensures d == Value().direction
    {
      direction
    }

    /** `setDirection`: changes the direction and nothing else. */
    method SetDirection(d: Direction)
      modifies this
      ensures Value() == Heading(old(xPos), old(yPos), d)
    {
      direction := d;
    }

    /** `setRear`: changes the rear cell and nothing else. */
    method SetRear(x: int, y: int)
      modifies this
      ensures Value() == Heading(x, y, old(direction))
    {
      xPos := x;
      yPos := y;
    }

    /** `adjustRear`: shifts the rear by (dx, dy), so every occupied cell shifts by (dx, dy). */
    method AdjustRear(dx: int, dy: int)
      modifies this
      ensures Value() == Heading(old(xPos) + dx, old(yPos) + dy, old(direction))
      ensures forall n :: OccupiedCells(Value(), n) == Translate(OccupiedCells(old(Value()), n), dx, dy)
    {
      ghost var before := Value();
      xPos := xPos + dx;
      yPos := yPos + dy;
      forall n | true
        ensures OccupiedCells(Value(), n) == Translate(OccupiedCells(before, n), dx, dy)
      {
        AdjustedRearTranslates(before, dx, dy, n);
      }
    }

    /** `getOccupiedCells`: the loop that lists the occupied cells; it leaves the heading unchanged. */
    method GetOccupiedCells(shipLength: int) returns (cells: seq<Cell>)
      ensures cells == OccupiedCells(Value(), shipLength)
    {
      cells := [];
      var dx := XOffset(direction);
      var dy := YOffset(direction);
      var i := 0;
      while i < shipLength
        invariant 0 <= i && (if shipLength >= 0 then i <= shipLength else i == 0)
        invariant cells == OccupiedCells(Value(), i)
      {
        cells := cells + [Cell(xPos + i * dx, yPos + i * dy)];
        i := i + 1;
      }
    }
  }
}
