/**
 * A ship: its type and one health entry per deck, 1 for intact and -1 for
 * destroyed (build/classes/seasofyore/core/Ship.java).
 */
module Ships {
  import opened ShipTypes
  import opened CellCodes

  /** An intact deck: the same code as a ship cell, which `isSunk` compares against. */
  const INTACT: int := 1

  /** A destroyed deck: the same code as a hit cell. */
  const DESTROYED: int := -1

  /** `getAShipLength`: the deck count of a type, which agrees with the type's own length. */
  function ShipLength(t: ShipType): (n: int)
    ensures n == ShipTypes.Length(t)
  {
    match t
    case Crayer => 2
    case Hoy => 3
    case Galley => 3
    case Cog => 4
    case Galleon => 5
  }

  /** The fold of `isSunk`: no deck still holds the intact (ship cell) code. */
  predicate Sunk(decks: seq<int>)
  {
    forall i :: 0 <= i < |decks| ==> decks[i] != SHIP
  }

  /** The running sum that `isDamaged` computes. */
  function DeckSum(decks: seq<int>): int
  {
    if decks == [] then 0 else DeckSum(decks[..|decks| - 1]) + decks[|decks| - 1]
  }

  /** The fold of `isDamaged` as written: the deck sum is not positive. */
  predicate Damaged(decks: seq<int>)
  {
    DeckSum(decks) <= 0
  }

  /** How many decks are destroyed. */
  function DestroyedCount(decks: seq<int>): (n: nat)
    ensures n <= |decks|
  {
    if decks == [] then 0
    else DestroyedCount(decks[..|decks| - 1]) + (if decks[|decks| - 1] == DESTROYED then 1 else 0)
  }

  /** Every deck is either intact or destroyed. */
  predicate HealthCodes(decks: seq<int>)
  {
    forall i :: 0 <= i < |decks| ==> decks[i] == INTACT || decks[i] == DESTROYED
  }

  /** What `isDamaged` is documented to mean: at least one deck is destroyed. */
  predicate HasDestroyedDeck(decks: seq<int>)
  {
    exists i :: 0 <= i < |decks| && decks[i] == DESTROYED
  }

  lemma DeckSumAppend(decks: seq<int>, v: int)
    ensures DeckSum(decks + [v]) == DeckSum(decks) + v
  {
    assert (decks + [v])[..|decks + [v]| - 1] == decks;
  }

  /** With health codes only, the deck sum is the intact count minus the destroyed count. */
  lemma {:induction false} DeckSumCounts(decks: seq<int>)
    requires HealthCodes(decks)
    ensures DeckSum(decks) == |decks| - 2 * DestroyedCount(decks)
  {
    if decks != [] {
      DeckSumCounts(decks[..|decks| - 1]);
    }
  }

  /**
   * As written, `isDamaged` holds only once at least half of the decks are
   * destroyed, not on the first destroyed deck.
   */
  lemma DamagedMeansHalfDestroyed(decks: seq<int>)
    requires HealthCodes(decks)
    ensures Damaged(decks) <==> 2 * DestroyedCount(decks) >= |decks|
  {
    DeckSumCounts(decks);
  }

  /** A galleon with one destroyed deck is not damaged according to `isDamaged`, yet it has a destroyed deck. */
  lemma OneHitGalleonNotDamaged()
    ensures ShipLength(Galleon) == 5
    ensures !Damaged([DESTROYED, INTACT, INTACT, INTACT, INTACT])
    ensures HasDestroyedDeck([DESTROYED, INTACT, INTACT, INTACT, INTACT])
  {
    var decks := [DESTROYED, INTACT, INTACT, INTACT, INTACT];
    assert decks[0] == DESTROYED;
    DeckSumAppend([], DESTROYED);
    DeckSumAppend([DESTROYED], INTACT);
    DeckSumAppend([DESTROYED, INTACT], INTACT);
    DeckSumAppend([DESTROYED, INTACT, INTACT], INTACT);
    DeckSumAppend([DESTROYED, INTACT, INTACT, INTACT], INTACT);
    assert [] + [DESTROYED] == [DESTROYED];
    assert [DESTROYED] + [INTACT] == [DESTROYED, INTACT];
    assert [DESTROYED, INTACT] + [INTACT] == [DESTROYED, INTACT, INTACT];
    assert [DESTROYED, INTACT, INTACT] + [INTACT] == [DESTROYED, INTACT, INTACT, INTACT];
    assert [DESTROYED, INTACT, INTACT, INTACT] + [INTACT] == decks;
  }

  /** The intended reading: destroying an intact deck makes any ship damaged, and a sunk non-empty ship is damaged. */
  lemma HasDestroyedDeckOnFirstHit(decks: seq<int>, i: nat)
    requires i < |decks|
    ensures HasDestroyedDeck(decks[i := DESTROYED])
    ensures HealthCodes(decks) && |decks| > 0 && Sunk(decks) ==> HasDestroyedDeck(decks)
  {
    assert decks[i := DESTROYED][i] == DESTROYED;
    if HealthCodes(decks) && |decks| > 0 && Sunk(decks) {
      assert decks[0] == DESTROYED;
    }
  }

  /** An all-intact ship of at least one deck is neither sunk nor damaged. */
  lemma IntactShipIsSound(decks: seq<int>)
    requires |decks| > 0
    requires forall i :: 0 <= i < |decks| ==> decks[i] == INTACT
    ensures !Sunk(decks) && !Damaged(decks) && !HasDestroyedDeck(decks)
  {
    DeckSumCounts(decks);
    IntactHasNoDestroyed(decks);
    assert decks[0] == SHIP;
  }

  lemma {:induction false} IntactHasNoDestroyed(decks: seq<int>)
    requires forall i :: 0 <= i < |decks| ==> decks[i] == INTACT
    ensures DestroyedCount(decks) == 0
  {
    if decks != [] {
      IntactHasNoDestroyed(decks[..|decks| - 1]);
    }
  }

  class Ship {
    const shipType: ShipType
    const decks: array<int>

    /** The deck count is the type's length; `decks` is never replaced, so it stays so. */
    predicate Valid()
    {
      decks.Length == ShipLength(shipType)
    }

    /** `Ship(t)` with `initShip`: one intact deck per cell of the type. */
    constructor (t: ShipType)
      ensures Valid() && shipType == t && fresh(decks)
      ensures forall i :: 0 <= i < decks.Length ==> decks[i] == INTACT
    {
      shipType := t;
      decks := new int[ShipLength(t)];
      new;
      var i := 0;
      while i < decks.Length
        invariant 0 <= i <= decks.Length
        invariant forall k :: 0 <= k < i ==> decks[k] == INTACT
      {
        decks[i] := INTACT;
        i := i + 1;
      }
    }

    /** `getShipLength`: the number of decks, which is the length of the ship's type. */
    function GetShipLength(): (n: int)
      requires Valid()
      ensures n == ShipTypes.Length(shipType)
    {
      decks.Length
    }

    /** `getLength`, an alias of `getShipLength`. */
    function GetLength(): (n: int)
      requires Valid()
      ensures n == GetShipLength()
    {
      GetShipLength()
    }

    /** `setDeck`: writes deck `index` when it exists, otherwise does nothing. */
    method SetDeck(index: int, value: int)
      modifies decks
      ensures decks[..] == if 0 <= index < decks.Length then old(decks[..])[index := value] else old(decks[..])
    {
      if index >= 0 && index < decks.Length {
        decks[index] := value;
      }
    }

    /**
     * `destroyDeck`: fails on a missing or already destroyed deck; otherwise
     * marks exactly that deck destroyed.
     */
    method DestroyDeck(deck: int) returns (destroyed: bool)
      modifies decks
      ensures destroyed <==> 0 <= deck < decks.Length && old(decks[deck]) != DESTROYED
      ensures decks[..] == if destroyed then old(decks[..])[deck := DESTROYED] else old(decks[..])
    {
      if deck < 0 || deck >= decks.Length {
        return false;
      }
      if decks[deck] == DESTROYED {
        return false;
      }
      decks[deck] := DESTROYED;
      return true;
    }

    /** `isSunk`: the scan that stops at the first deck still intact. */
    method IsSunk() returns (sunk: bool)
      ensures sunk == Sunk(decks[..])
    {
      var i := 0;
      while i < decks.Length
        invariant 0 <= i <= decks.Length
        invariant forall k :: 0 <= k < i ==> decks[k] != SHIP
      {
        if decks[i] == SHIP {
          return false;
        }
        i := i + 1;
      }
      return true;
    }

    /** `isDamaged` as written: the deck sum is at most zero. */
    method IsDamaged() returns (damaged: bool)
      ensures damaged == Damaged(decks[..])
    {
      var sum := 0;
      var i := 0;
      while i < decks.Length
        invariant 0 <= i <= decks.Length
        invariant sum == DeckSum(decks[..i])
      {
        assert decks[..i + 1][..i] == decks[..i];
        sum := sum + decks[i];
        i := i + 1;
      }
      assert decks[..decks.Length] == decks[..];
      damaged := sum <= 0;
    }
  }
}
