/**
 * The five ship types of the game, in declaration order, each with its
 * length (src/seasofyore/core/ShipType.java).
 */
module ShipTypes {

  datatype ShipType = Crayer | Hoy | Galley | Cog | Galleon

  /** The cached `VALUES` array: every type in declaration order. */
  function Values(): seq<ShipType>
  {
    [Crayer, Hoy, Galley, Cog, Galleon]
  }

  /** The position of a type in declaration order (`ordinal()`). */
  function Ordinal(t: ShipType): (n: nat)
    ensures n < |Values()|
  {
    match t
    case Crayer => 0
    case Hoy => 1
    case Galley => 2
    case Cog => 3
    case Galleon => 4
  }

  /** `VALUES[t.ordinal()]` is t, so distinct types have distinct ordinals. */
  lemma ValuesAtOrdinal(t: ShipType)
    ensures Values()[Ordinal(t)] == t
  {
    match t
    case Crayer =>
    case Hoy =>
    case Galley =>
    case Cog =>
    case Galleon =>
  }

  /** `getLength`: the number of cells a ship of this type occupies. */
  function Length(t: ShipType): (n: int)
    ensures 2 <= n <= 5
  {
    match t
    case Crayer => 2
    case Hoy => 3
    case Galley => 3
    case Cog => 4
    case Galleon => 5
  }

  /** `next`: the successor in declaration order, wrapping around, written as the table it computes. */
  function Next(t: ShipType): ShipType
  {
    match t
    case Crayer => Hoy
    case Hoy => Galley
    case Galley => Cog
    case Cog => Galleon
    case Galleon => Crayer
  }

  /** `previous`: the predecessor in declaration order, wrapping around, written as the table it computes. */
  function Previous(t: ShipType): ShipType
  {
    match t
    case Crayer => Galleon
    case Hoy => Crayer
    case Galley => Hoy
    case Cog => Galley
    case Galleon => Cog
  }

  /** The tables are the source's index arithmetic: `VALUES[(ordinal() ± 1 + length) % length]`. */
  lemma NextPreviousIndexValues(t: ShipType)
    ensures Next(t) == Values()[(Ordinal(t) + 1) % |Values()|]
    ensures Previous(t) == Values()[(Ordinal(t) - 1 + |Values()|) % |Values()|]
  {
    match t
    case Crayer =>
    case Hoy =>
    case Galley =>
    case Cog =>
    case Galleon =>
  }

  /** Every type sits at its ordinal in `VALUES`. */
  lemma AllValuesAtOrdinal()
    ensures forall t :: Values()[Ordinal(t)] == t
  {
    forall t: ShipType
      ensures Values()[Ordinal(t)] == t
    {
      ValuesAtOrdinal(t);
    }
  }

  /** `getAscendingList`: a copy of the five types in declaration order. */
  function AscendingList(): (r: seq<ShipType>)
    ensures |r| == 5
    ensures forall i :: 0 <= i < |r| ==> Ordinal(r[i]) == i
    ensures forall t :: r[Ordinal(t)] == t
  {
    AllValuesAtOrdinal();
    Values()
  }

  /** `next` applied k times. */
  function NextIterated(t: ShipType, k: nat): ShipType
  {
    if k == 0 then t else Next(NextIterated(t, k - 1))
  }

  /** The sum of the lengths of a list of types. */
  function TotalLength(ts: seq<ShipType>): int
  {
    if ts == [] then 0 else Length(ts[0]) + TotalLength(ts[1..])
  }

  /** The successor table: declaration order, and the last type wraps to the first. */
  lemma NextTable()
    ensures Next(Crayer) == Hoy && Next(Hoy) == Galley && Next(Galley) == Cog
    ensures Next(Cog) == Galleon && Next(Galleon) == Crayer
  {
  }

  /** The predecessor table: reverse declaration order, and the first type wraps to the last. */
  lemma PreviousTable()
    ensures Previous(Crayer) == Galleon && Previous(Hoy) == Crayer && Previous(Galley) == Hoy
    ensures Previous(Cog) == Galley && Previous(Galleon) == Cog
  {
  }

  /** `previous` undoes `next` and `next` undoes `previous`. */
  lemma PreviousInvertsNext(t: ShipType)
    ensures Previous(Next(t)) == t
    ensures Next(Previous(t)) == t
  {
    NextTable();
    PreviousTable();
    match t
    case Crayer =>
    case Hoy =>
    case Galley =>
    case Cog =>
    case Galleon =>
  }

  /** `next` moves one place forward in declaration order, modulo the number of types. */
  lemma NextOrdinal(t: ShipType)
    ensures Ordinal(Next(t)) == (Ordinal(t) + 1) % 5
  {
    match t
    case Crayer =>
    case Hoy =>
    case Galley =>
    case Cog =>
    case Galleon =>
  }

  /** `next` applied a + b times is `next` applied b times after a times. */
  lemma {:induction false} NextIteratedAdd(t: ShipType, a: nat, b: nat)
    ensures NextIterated(t, a + b) == NextIterated(NextIterated(t, a), b)
  {
    if b > 0 {
      NextIteratedAdd(t, a, b - 1);
    }
  }

  /** 5 `next` steps return to the start. */
  lemma NextFiveTimes(t: ShipType)
    ensures NextIterated(t, 5) == t
  {
    NextTable();
  }

  /** `next` has period 5: any multiple of 5 steps returns to the starting value. */
  lemma {:induction false} NextPeriodIsFive(t: ShipType, k: nat)
    requires k % 5 == 0
    ensures NextIterated(t, k) == t
    decreases k
  {
    if k > 0 {
      NextIteratedAdd(t, 5, k - 5);
      NextFiveTimes(t);
      NextPeriodIsFive(t, k - 5);
    }
  }

  /** The whole fleet covers 17 cells. */
  lemma FleetLengthIs17()
    ensures TotalLength(AscendingList()) == 17
  {
    var l := AscendingList();
    assert l[1..][1..][1..][1..][1..] == [];
  }
}
