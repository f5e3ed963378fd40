/**
 * The classic battle rule (build/classes/source/seasofyore/BattlePhase.java):
 * one shot per turn at the opponent's grid, a miss / hit / sunk report for
 * it, and a victory check right after. Animation, terminal messages and the
 * win screen are left to the interface; what remains is the rule.
 */
module ClassicBattle {
  import opened Wrappers
  import opened CellCodes
  import opened Headings
  import opened ShipTypes
  import opened Ships
  import opened Quadrants
  import opened Players
  import opened Boards

  /** What `getHitIdentifier` reports: a miss, or the type of ship hit or sunk. */
  datatype ShotReport = Missed | HitShip(kind: ShipType) | SankShip(kind: ShipType)

  /** How a turn's shooting ends: the attacker wins, or the turn may pass. */
  datatype TurnEnd = Victory(winner: Civilization) | TurnPasses

  /** A click on the targeted grid: turned away, or one resolved shot. */
  datatype ClickOutcome = Rejected | Resolved(report: ShotReport, end: TurnEnd)

  /**
   * The report for a shot at c read off the owner's ship decks: no ship
   * covers c, or the first ship covering c is hit, or sunk.
   */
  function Classify(owner: Player, c: Cell): (r: ShotReport)
    requires owner.Valid() && owner.placedShips == FLEET_SIZE
    reads owner, owner.fleet, owner.locations
    reads set k | 0 <= k < owner.placedShips && k < owner.fleet.Length && owner.fleet[k] != null :: owner.fleet[k].decks
    ensures r.Missed? <==> forall i :: 0 <= i < FLEET_SIZE ==> c !in owner.ShipCells(i)
    ensures !r.Missed? ==> r.kind == owner.fleet[owner.FirstShipAt(c, 0).value].shipType
    ensures r.SankShip? <==> !r.Missed? && Sunk(owner.fleet[owner.FirstShipAt(c, 0).value].decks[..])
  {
    match owner.FirstShipAt(c, 0)
    case None => Missed
    case Some(i) =>
      if Sunk(owner.fleet[i].decks[..]) then SankShip(owner.fleet[i].shipType)
      else HitShip(owner.fleet[i].shipType)
  }

  /** A placed ship as the grid sees it: its type and the cells it covers, rear first. */
  datatype Berth = Berth(kind: ShipType, cells: seq<Cell>)

  /** The owner's fleet as berths, slot by slot. */
  ghost function Berths(owner: Player): (fleet: seq<Berth>)
    requires owner.Valid() && owner.placedShips == FLEET_SIZE
    reads owner, owner.fleet, owner.locations
    ensures |fleet| == FLEET_SIZE
    ensures forall i :: 0 <= i < FLEET_SIZE ==> fleet[i] == Berth(owner.fleet[i].shipType, owner.ShipCells(i))
  {
    seq(FLEET_SIZE, i reads owner, owner.fleet, owner.locations
                      requires owner.Valid() && owner.placedShips == FLEET_SIZE && 0 <= i < FLEET_SIZE
                      => Berth(owner.fleet[i].shipType, owner.ShipCells(i)))
  }

  /** The first berth from slot `from` on that covers c. */
  function FirstBerthAt(fleet: seq<Berth>, c: Cell, from: nat): (r: Option<nat>)
    requires from <= |fleet|
    ensures r.None? ==> forall i :: from <= i < |fleet| ==> c !in fleet[i].cells
    ensures r.Some? ==>
      from <= r.value < |fleet| && c in fleet[r.value].cells &&
      forall i :: from <= i < r.value ==> c !in fleet[i].cells
    decreases |fleet| - from
  {
    if from == |fleet| then None
    else if c in fleet[from].cells then Some(from)
    else FirstBerthAt(fleet, c, from + 1)
  }

  /** The berth search and the owner's `getShipAt` search pick the same slot. */
  lemma FirstBerthIsFirstShip(owner: Player, c: Cell)
    requires owner.Valid() && owner.placedShips == FLEET_SIZE
    ensures FirstBerthAt(Berths(owner), c, 0) == owner.FirstShipAt(c, 0)
  {
    var fleet := Berths(owner);
    match owner.FirstShipAt(c, 0)
    case None =>
      assert forall i :: 0 <= i < FLEET_SIZE ==> c !in fleet[i].cells;
    case Some(i) =>
      assert c in fleet[i].cells;
      assert forall k :: 0 <= k < i ==> c !in fleet[k].cells;
  }

  /**
   * The report for a shot at c judged from the grid alone: the first berth
   * covering c is sunk when each of its cells is among `hits` (hit before)
   * or among `shots` (fired on since).
   */
  function Predict(fleet: seq<Berth>, c: Cell, hits: set<Cell>, shots: seq<Cell>): (r: ShotReport)
    ensures r.Missed? <==> forall i :: 0 <= i < |fleet| ==> c !in fleet[i].cells
    ensures !r.Missed? ==> r.kind == fleet[FirstBerthAt(fleet, c, 0).value].kind
    ensures r.SankShip? <==>
      !r.Missed? && forall e :: e in fleet[FirstBerthAt(fleet, c, 0).value].cells ==> e in hits || e in shots
  {
    match FirstBerthAt(fleet, c, 0)
    case None => Missed
    case Some(i) =>
      if forall e :: e in fleet[i].cells ==> e in hits || e in shots
      then SankShip(fleet[i].kind)
      else HitShip(fleet[i].kind)
  }

  /** With the decks synced, the deck-based report is the grid-based one: sunk means every cell hit. */
  lemma ClassifyReadsGrid(owner: Player, c: Cell)
    requires owner.Valid() && owner.placedShips == FLEET_SIZE
    requires owner.FleetAfloatOrHit() && owner.Synced()
    ensures Classify(owner, c) == Predict(Berths(owner), c, owner.friendlyQuad.HitCells(), [])
  {
    FirstBerthIsFirstShip(owner, c);
    match owner.FirstShipAt(c, 0)
    case None =>
    case Some(i) =>
      owner.SunkIffAllHit(i);
      var cells := owner.ShipCells(i);
      assert (forall e :: e in cells ==> e in owner.friendlyQuad.HitCells()) <==>
        forall j :: 0 <= j < |cells| ==> owner.friendlyQuad.CellIsHit(cells[j].x, cells[j].y);
  }

  /** The cells of the fleet in `now` are exactly those in `before` or among `shots`. */
  ghost predicate HitsExplained(fleet: seq<Berth>, now: set<Cell>, before: set<Cell>, shots: seq<Cell>)
  {
    forall i, e :: 0 <= i < |fleet| && e in fleet[i].cells ==> (e in now <==> e in before || e in shots)
  }

  /** Hits explained from `before` to `mid` by `first`, and from `mid` to `now` by `second`, are explained from `before` to `now` by both runs. */
  lemma ExplainedChain(fleet: seq<Berth>, before: set<Cell>, mid: set<Cell>, now: set<Cell>, first: seq<Cell>, second: seq<Cell>)
    requires HitsExplained(fleet, mid, before, first)
    requires HitsExplained(fleet, now, mid, second)
    ensures HitsExplained(fleet, now, before, first + second)
  {
    forall i, e | 0 <= i < |fleet| && e in fleet[i].cells
      ensures e in now <==> e in before || e in first + second
    {
      assert e in first + second <==> e in first || e in second;
    }
  }

  /** A prediction from a later grid equals one from an earlier grid that also counts the shots in between. */
  lemma PredictShift(fleet: seq<Berth>, c: Cell, before: set<Cell>, mid: set<Cell>, first: seq<Cell>, second: seq<Cell>)
    requires HitsExplained(fleet, mid, before, first)
    ensures Predict(fleet, c, mid, second) == Predict(fleet, c, before, first + second)
  {
    match FirstBerthAt(fleet, c, 0)
    case None =>
    case Some(i) =>
      forall e | e in fleet[i].cells
        ensures (e in mid || e in second) <==> (e in before || e in first + second)
      {
        assert e in first + second <==> e in first || e in second;
      }
  }

  /**
   * After shots and a sync: the decks match the grid, the fleet still lies
   * on SHIP or HIT cells, and its hit cells are those hit `before` or among
   * `shots`.
   */
  ghost predicate Settled(owner: Player, before: set<Cell>, shots: seq<Cell>)
    requires owner.Valid() && owner.placedShips == FLEET_SIZE
    reads owner, owner.fleet, owner.locations, owner.friendlyQuad.quad
    reads set k | 0 <= k < owner.placedShips && k < owner.fleet.Length && owner.fleet[k] != null :: owner.fleet[k].decks
  {
    owner.Synced() && owner.FleetAfloatOrHit() && HitsExplained(Berths(owner), owner.friendlyQuad.HitCells(), before, shots)
  }

  /**
   * After a sync, the report read off the decks is the one predicted from an
   * earlier grid: whenever the fleet's cells hit now are exactly those hit
   * then (`before`) or fired on since (`shots`).
   */
  lemma ReportPredicted(owner: Player, c: Cell, before: set<Cell>, shots: seq<Cell>)
    requires owner.Valid() && owner.placedShips == FLEET_SIZE
    requires Settled(owner, before, shots)
    ensures Classify(owner, c) == Predict(Berths(owner), c, before, shots)
  {
    ClassifyReadsGrid(owner, c);
  }

  /**
   * What a landed shot leaves: the decks agree with the grid, and the
   * report is both the deck-based one and the one the grid predicted from
   * the cells hit `before` the shot.
   */
  ghost predicate ShotReported(owner: Player, c: Cell, before: set<Cell>, report: ShotReport)
    requires owner.Valid() && owner.placedShips == FLEET_SIZE
    reads owner, owner.fleet, owner.locations, owner.friendlyQuad.quad
    reads set k | 0 <= k < owner.placedShips && k < owner.fleet.Length && owner.fleet[k] != null :: owner.fleet[k].decks
  {
    owner.Synced() && report == Classify(owner, c) && report == Predict(Berths(owner), c, before, [c])
  }

  /**
   * `canFireOn`: the cell is neither hit nor missed and takes clicks;
   * `interactive` is the cell's interaction flag, which the interface keeps.
   */
  predicate CanFireOn(q: PlayerQuadrant, x: int, y: int, interactive: bool)
    requires q.Valid()
    reads q.quad
  {
    !q.CellIsHit(x, y) && !q.CellIsMiss(x, y) && interactive
  }

  /** Inside a well-formed grid, a cell can be fired on exactly when it takes clicks and the grid would accept the shot. */
  lemma CanFireOnMeansTargetable(q: PlayerQuadrant, x: int, y: int, interactive: bool)
    requires q.WellFormed() && InBounds(x, y)
    ensures CanFireOn(q, x, y, interactive) <==> interactive && q.CellIsTargetable(x, y)
  {
    q.CellClassification(x, y);
  }

  /** While the fleet lies on SHIP or HIT cells, a fleet cell not yet hit holds a ship. */
  lemma FleetCellShipOrHit(owner: Player, c: Cell)
    requires owner.Valid() && owner.placedShips == FLEET_SIZE && owner.FleetAfloatOrHit()
    ensures forall i :: 0 <= i < FLEET_SIZE && c in Berths(owner)[i].cells ==>
      c in owner.friendlyQuad.HitCells() || owner.friendlyQuad.CellIsShip(c.x, c.y)
  {
    forall i | 0 <= i < FLEET_SIZE && c in Berths(owner)[i].cells
      ensures c in owner.friendlyQuad.HitCells() || owner.friendlyQuad.CellIsShip(c.x, c.y)
    {
      var j :| 0 <= j < |owner.ShipCells(i)| && owner.ShipCells(i)[j] == c;
    }
  }

  /** A shot at c that adds c to the hit cells exactly when c held a ship explains the fleet's new hits. */
  lemma OneShotExplained(fleet: seq<Berth>, before: set<Cell>, now: set<Cell>, c: Cell, ship: bool)
    requires now == before + (if ship then {c} else {})
    requires forall i :: 0 <= i < |fleet| && c in fleet[i].cells ==> c in before || ship
    ensures HitsExplained(fleet, now, before, [c])
  {
  }

  /**
   * The grid half of `QuadrantPanel.fireAtCell`: the shot on the owner's
   * own grid, with what it does to the fleet's hit cells.
   */
  method FireOnGrid(owner: Player, x: int, y: int) returns (registered: bool)
    requires owner.Valid()
    modifies owner.friendlyQuad.quad
    ensures registered <==> old(owner.friendlyQuad.CellIsTargetable(x, y))
    ensures owner.friendlyQuad.ShotAt(x, y, true)
    ensures old(owner.friendlyQuad.WellFormed()) ==> owner.friendlyQuad.WellFormed()
    ensures old(owner.FleetAfloatOrHit()) && owner.placedShips == FLEET_SIZE ==>
      owner.FleetAfloatOrHit() &&
      HitsExplained(Berths(owner), owner.friendlyQuad.HitCells(), old(owner.friendlyQuad.HitCells()), [Cell(x, y)])
  {
    ghost var before := owner.friendlyQuad.HitCells();
    ghost var ship := owner.friendlyQuad.CellIsShip(x, y);
    if owner.placedShips == FLEET_SIZE && owner.FleetAfloatOrHit() {
      FleetCellShipOrHit(owner, Cell(x, y));
    }
    registered := owner.friendlyQuad.FireAtCell(x, y);
    if old(owner.FleetAfloatOrHit()) && owner.placedShips == FLEET_SIZE {
      OneShotExplained(Berths(owner), before, owner.friendlyQuad.HitCells(), Cell(x, y), ship);
    }
  }

  /**
   * `QuadrantPanel.fireAtCell`: fires on the owner's own grid, then syncs the
   * owner's decks to it. The flag is the grid's "shot registered" answer,
   * true for a miss as much as for a hit.
   */
  method FireOnPanel(owner: Player, x: int, y: int) returns (registered: bool)
    requires owner.Valid()
    modifies owner.friendlyQuad.quad, owner.DeckArrays()
    ensures registered <==> old(owner.friendlyQuad.CellIsTargetable(x, y))
    ensures owner.friendlyQuad.ShotAt(x, y, true) && owner.Synced()
    ensures old(owner.friendlyQuad.WellFormed()) ==> owner.friendlyQuad.WellFormed()
    ensures old(owner.FleetAfloatOrHit()) && owner.placedShips == FLEET_SIZE ==>
      Settled(owner, old(owner.friendlyQuad.HitCells()), [Cell(x, y)])
  {
    registered := FireOnGrid(owner, x, y);
    owner.SyncDecksToQuadrantState();
  }

  /** `getHitIdentifier`: the report for the owner's ship at (x, y), the owner being the targeted grid's. */
  method GetHitIdentifier(owner: Player, x: int, y: int) returns (report: ShotReport)
    requires owner.Valid() && owner.placedShips == FLEET_SIZE
    ensures report == Classify(owner, Cell(x, y))
  {
    var hitShip := owner.GetShipAt(x, y);
    if hitShip != null {
      var sunk := hitShip.IsSunk();
      return if sunk then SankShip(hitShip.shipType) else HitShip(hitShip.shipType);
    }
    return Missed;
  }

  /**
   * `getHitIdentifier` after a registered shot and its sync: the report is
   * the one the grid before the shot predicts.
   */
  method ReportShot(owner: Player, x: int, y: int, ghost before: set<Cell>) returns (report: ShotReport)
    requires owner.Valid() && owner.placedShips == FLEET_SIZE
    requires Settled(owner, before, [Cell(x, y)])
    ensures ShotReported(owner, Cell(x, y), before, report)
  {
    report := GetHitIdentifier(owner, x, y);
    ReportPredicted(owner, Cell(x, y), before, [Cell(x, y)]);
  }

  /**
   * The landing of a `handleCellClick` shot: fire on the owner's grid and
   * sync, report through `getHitIdentifier` when the shot registered and as
   * a miss otherwise, then ask whether the owner has lost. The report is
   * the one the grid before the shot predicts.
   */
  method LandShot(owner: Player, x: int, y: int) returns (registered: bool, report: ShotReport, lost: bool)
    requires owner.Valid() && owner.placedShips == FLEET_SIZE && owner.FleetAfloatOrHit()
    modifies owner.friendlyQuad.quad, owner.DeckArrays()
    ensures registered <==> old(owner.friendlyQuad.CellIsTargetable(x, y))
    ensures owner.friendlyQuad.ShotAt(x, y, true) && owner.FleetAfloatOrHit()
    ensures old(owner.friendlyQuad.WellFormed()) ==> owner.friendlyQuad.WellFormed()
    ensures registered ==> ShotReported(owner, Cell(x, y), old(owner.friendlyQuad.HitCells()), report)
    ensures !registered ==> report == Missed
    ensures lost <==> owner.Defeated()
  {
    registered := FireOnPanel(owner, x, y);
    report := Missed;
    if registered {
      report := ReportShot(owner, x, y, old(owner.friendlyQuad.HitCells()));
    }
    // `hasLost()`, evaluated through the count that Player.HasLost is proved against
    lost := owner.HasPlacedAllShips() && owner.UnsunkCount(FLEET_SIZE) == 0;
  }

  /** A classic battle turn: the board and the player whose grid is fired at. */
  class BattlePhase {
    const board: Board
    const target: Player

    /** The board is in battle and the target is the player whose turn it is not. */
    ghost predicate Valid()
      reads board, board.britons, board.franks
      reads board.britons.fleet, board.britons.locations, board.franks.fleet, board.franks.locations
    {
      board.Valid() && !board.setupPhase && target == board.GetNextPlayer()
    }

    /** The target's grid holds only cell codes and its fleet still lies on SHIP or HIT cells. */
    ghost predicate TargetSound()
      requires Valid()
      reads board, board.britons, board.franks
      reads board.britons.fleet, board.britons.locations, board.franks.fleet, board.franks.locations
      reads target.friendlyQuad.quad
    {
      target.friendlyQuad.WellFormed() && target.FleetAfloatOrHit()
    }

    /**
     * `enterPhase` with `onEnter`: the next player's grid becomes the
     * target (the interface then lets its cells take clicks).
     */
    constructor (b: Board)
      requires b.Valid() && !b.setupPhase
      ensures board == b && Valid()
      ensures b.Sound() ==> TargetSound()
    {
      board := b;
      target := b.GetNextPlayer();
    }

    /**
     * `handleCellClick`: a cell that cannot be fired on turns the click
     * away. Otherwise one shot lands on the target's grid, the target's decks
     * are synced, and the shot is reported; if the target has lost, the
     * current player wins, else the target grid stops taking clicks, which
     * `interactiveAfter` reports.
     */
    method HandleCellClick(x: int, y: int, interactive: bool) returns (outcome: ClickOutcome, interactiveAfter: bool)
      requires Valid() && TargetSound() && InBounds(x, y)
      modifies target.friendlyQuad.quad, target.DeckArrays()
      ensures Valid() && TargetSound()
      ensures outcome.Rejected? <==> !old(CanFireOn(target.friendlyQuad, x, y, interactive))
      ensures outcome.Rejected? ==>
        interactiveAfter == interactive && unchanged(target.friendlyQuad.quad) &&
        forall i :: 0 <= i < FLEET_SIZE ==> target.fleet[i].decks[..] == old(target.fleet[i].decks[..])
      ensures outcome.Resolved? ==>
        old(target.friendlyQuad.CellIsTargetable(x, y)) &&
        target.friendlyQuad.ShotAt(x, y, true) &&
        ShotReported(target, Cell(x, y), old(target.friendlyQuad.HitCells()), outcome.report)
      ensures outcome.Resolved? ==>
        (outcome.end.Victory? <==> target.Defeated()) &&
        (outcome.end.Victory? ==> outcome.end.winner == board.currentPlayer.civ && outcome.end.winner != target.civ) &&
        (interactiveAfter <==> outcome.end.Victory?)
    {
      if !CanFireOn(target.friendlyQuad, x, y, interactive) {
        return Rejected, interactive;
      }
      target.friendlyQuad.CellClassification(x, y);
      var registered, report, lost := LandShot(target, x, y);
      assert unchanged(board, board.britons, board.franks);
      assert unchanged(board.britons.fleet, board.britons.locations, board.franks.fleet, board.franks.locations);
      if lost {
        return Resolved(report, Victory(board.currentPlayer.civ)), interactive;
      }
      return Resolved(report, TurnPasses), false;
    }
  }
}
