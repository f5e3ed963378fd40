/**
 * The grid size and the integer codes a quadrant cell holds, the public
 * constants of PlayerQuadrant (build/classes/source/seasofyore/core/PlayerQuadrant.java).
 */
module CellCodes {

  const GRID_SIZE: int := 10

  const WATER: int := 0
  const SHIP: int := 1
  const HIT: int := -1
  const MISS: int := 2

  /** Returned for a cell outside the grid; never stored. */
  const NULL: int := -2

  /** The four codes a stored cell may hold. */
  predicate IsCellCode(v: int)
  {
    v == WATER || v == SHIP || v == HIT || v == MISS
  }

  /** `cellInBounds`: both coordinates lie in 0 .. GRID_SIZE-1. */
  predicate InBounds(x: int, y: int)
    ensures InBounds(x, y) <==> 0 <= x < 10 && 0 <= y < 10
  {
    !(x >= GRID_SIZE || y >= GRID_SIZE || x < 0 || y < 0)
  }

  /** A cell already fired on, whether it was a hit or a miss. */
  predicate IsFired(v: int)
  {
    v == HIT || v == MISS
  }

  /** The code a shot writes into a targetable cell: HIT over a ship, MISS over anything else. */
  function ShotCode(v: int): int
  {
    if v == SHIP then HIT else MISS
  }

  /** The code of a cell after it may have been shot: fired cells never change again. */
  function AfterShot(v: int, shot: bool): (r: int)
    ensures IsFired(v) ==> r == v
    ensures shot && !IsFired(v) ==> IsFired(r) && (r == HIT <==> v == SHIP)
    ensures !shot ==> r == v
  {
    if shot && !IsFired(v) then ShotCode(v) else v
  }

  /** A fired cell stays fired, and a second shot changes nothing. */
  lemma ShotIsTerminal(v: int, first: bool, second: bool)
    ensures first && !IsFired(v) ==> IsFired(AfterShot(v, first))
    ensures AfterShot(AfterShot(v, first), second) == AfterShot(v, first || second)
  {
  }

  /** Shots keep a cell within the four stored codes. */
  lemma ShotKeepsCode(v: int, shot: bool)
    requires IsCellCode(v)
    ensures IsCellCode(AfterShot(v, shot))
  {
  }
}
