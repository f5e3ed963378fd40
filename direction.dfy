/**
 * The four compass directions, each with a unit (dx, dy) offset in screen
 * coordinates, where y grows downwards (src/seasofyore/core/core/Direction.java).
 */
module Directions {
  import opened Wrappers

  datatype Direction = North | East | South | West

  /** The cached `VALUES` array: every direction in declaration order. */
  function Values(): seq<Direction>
  {
    [North, East, South, West]
  }

  /** The position of a direction in declaration order (`ordinal()`). */
  function Ordinal(d: Direction): (n: nat)
    ensures n < |Values()| && Values()[n] == d
  {
    match d
    case North => 0
    case East => 1
    case South => 2
    case West => 3
  }

  /** `getXOffset` */
  function XOffset(d: Direction): int
  {
    match d
    case North => 0
    case East => 1
    case South => 0
    case West => -1
  }

  /** `getYOffset` */
  function YOffset(d: Direction): int
  {
    match d
    case North => -1
    case East => 0
    case South => 1
    case West => 0
  }

  function Abs(n: int): nat
  {
    if n < 0 then -n else n
  }

  /** `getOffsets`: the pair (dx, dy); every offset is a unit step along one axis. */
  function Offsets(d: Direction): (r: (int, int))
    ensures Abs(r.0) + Abs(r.1) == 1
  {
    (XOffset(d), YOffset(d))
  }

  /** `getRowColOffsets`: the same offset given as (row, column), that is (dy, dx). */
  function RowColOffsets(d: Direction): (r: (int, int))
    ensures r == (Offsets(d).1, Offsets(d).0)
  {
    (YOffset(d), XOffset(d))
  }

  /** `next`: the following direction in declaration order, wrapping around, written as the table it computes. */
  function Next(d: Direction): Direction
  {
    match d
    case North => East
    case East => South
    case South => West
    case West => North
  }

  /** `previous`: the preceding direction in declaration order, wrapping around, written as the table it computes. */
  function Previous(d: Direction): Direction
  {
    match d
    case North => West
    case East => North
    case South => East
    case West => South
  }

  /** The tables are the source's index arithmetic: `VALUES[(ordinal() ± 1 + length) % length]`. */
  lemma NextPreviousIndexValues(d: Direction)
    ensures Next(d) == Values()[(Ordinal(d) + 1) % |Values()|]
    ensures Previous(d) == Values()[(Ordinal(d) - 1 + |Values()|) % |Values()|]
  {
    match d
    case North =>
    case East =>
    case South =>
    case West =>
  }

  /** `next` applied k times. */
  function NextIterated(d: Direction, k: nat): Direction
  {
    if k == 0 then d else Next(NextIterated(d, k - 1))
  }

  /**
   * The loop of `fromOffsets`: the first direction of `ds` whose offsets are
   * (dx, dy), or None when there is none.
   */
  function FindByOffsets(ds: seq<Direction>, dx: int, dy: int): (r: Option<Direction>)
    ensures r.Some? ==> r.value in ds && Offsets(r.value) == (dx, dy)
    ensures r.None? ==> forall k :: 0 <= k < |ds| ==> Offsets(ds[k]) != (dx, dy)
  {
    if ds == [] then None
    else if XOffset(ds[0]) == dx && YOffset(ds[0]) == dy then Some(ds[0])
    else FindByOffsets(ds[1..], dx, dy)
  }

  /**
   * `fromOffsets`: the direction with offsets (dx, dy); None stands for the
   * IllegalArgumentException thrown for any other pair.
   */
  function FromOffsets(dx: int, dy: int): (r: Option<Direction>)
    ensures r.Some? ==> Offsets(r.value) == (dx, dy)
    ensures r.None? <==> forall d: Direction :: Offsets(d) != (dx, dy)
  {
    var r := FindByOffsets(Values(), dx, dy);
    assert r.None? ==> forall d: Direction :: Offsets(Values()[Ordinal(d)]) != (dx, dy);
    r
  }

  /** The successor table: North, East, South, West and back to North. */
  lemma NextTable()
    ensures Next(North) == East && Next(East) == South
    ensures Next(South) == West && Next(West) == North
  {
  }

  /** `previous` undoes `next` and `next` undoes `previous`. */
  lemma PreviousInvertsNext(d: Direction)
    ensures Previous(Next(d)) == d
    ensures Next(Previous(d)) == d
  {
    match d
    case North =>
    case East =>
    case South =>
    case West =>
  }

  /** `next` is the clockwise quarter turn when y grows downwards: (dx, dy) becomes (-dy, dx). */
  lemma NextIsClockwiseQuarterTurn(d: Direction)
    ensures Offsets(Next(d)) == (-YOffset(d), XOffset(d))
  {
    match d
    case North =>
    case East =>
    case South =>
    case West =>
  }

  /** `next` moves one place forward in declaration order, modulo four. */
  lemma NextOrdinal(d: Direction)
    ensures Ordinal(Next(d)) == (Ordinal(d) + 1) % 4
  {
    match d
    case North =>
    case East =>
    case South =>
    case West =>
  }

  /** `next` applied a + b times is `next` applied b times after a times. */
  lemma {:induction false} NextIteratedAdd(d: Direction, a: nat, b: nat)
    ensures NextIterated(d, a + b) == NextIterated(NextIterated(d, a), b)
  {
    if b > 0 {
      NextIteratedAdd(d, a, b - 1);
    }
  }

  /** 4 `next` steps return to the start. */
  lemma NextFourTimes(d: Direction)
    ensures NextIterated(d, 4) == d
  {
    NextTable();
  }

  /** `next` has period 4: any multiple of 4 steps returns to the starting value. */
  lemma {:induction false} NextPeriodIsFour(d: Direction, k: nat)
    requires k % 4 == 0
    ensures NextIterated(d, k) == d
    decreases k
  {
    if k > 0 {
      NextIteratedAdd(d, 4, k - 4);
      NextFourTimes(d);
      NextPeriodIsFour(d, k - 4);
    }
  }

  /** `fromOffsets` recovers every direction from its own offsets. */
  lemma FromOffsetsRoundTrip(d: Direction)
    ensures FromOffsets(XOffset(d), YOffset(d)) == Some(d)
  {
    var r := FromOffsets(XOffset(d), YOffset(d));
    assert Offsets(d) == (XOffset(d), YOffset(d));
    OffsetsInjective(r.value, d);
  }

  /** No two directions share an offset. */
  lemma OffsetsInjective(d: Direction, e: Direction)
    requires Offsets(d) == Offsets(e)
    ensures d == e
  {
  }
}
