/**
 * The salvo battle rule (src/seasofyore/core/SalvoBattlePhase.java): the
 * attacker has one shot per un-sunk ship of their own, clicks queue shots
 * until the allowance is used up, and then the queued shots land in the
 * order they were clicked, each followed by a deck sync and a report, with
 * one victory check after the last. Falling stones, borders and messages
 * are left to the interface; the animation queue is kept as its length.
 */
module SalvoBattle {
  import opened CellCodes
  import opened Headings
  import opened Quadrants
  import opened Players
  import opened Boards
  import opened ClassicBattle

  /** A click during a salvo turn: refused for want of shots or of a firable cell, queued, or the last shot, which resolves the volley. */
  datatype SalvoClick = NoShotsLeft | CannotFire | Queued | Volley(reports: seq<ShotReport>, end: TurnEnd)

  /**
   * The body of the `playNextAnimation` callback for the shot at p: fire
   * on the owner's grid with a deck sync, then `getHitIdentifier`, which is
   * asked even when the shot did not register. The fleet's hit cells grow
   * by p where it covers p, and the report is the one the grid before the
   * shot predicts.
   */
  method ResolveShot(owner: Player, p: Cell) returns (report: ShotReport)
    requires owner.Valid() && owner.placedShips == FLEET_SIZE
    requires owner.friendlyQuad.WellFormed() && owner.FleetAfloatOrHit()
    modifies owner.friendlyQuad.quad, owner.DeckArrays()
    ensures owner.friendlyQuad.ShotAt(p.x, p.y, true) && owner.friendlyQuad.WellFormed()
    ensures Settled(owner, old(owner.friendlyQuad.HitCells()), [p])
    ensures ShotReported(owner, p, old(owner.friendlyQuad.HitCells()), report)
  {
    var registered := FireOnPanel(owner, p.x, p.y);
    report := ReportShot(owner, p.x, p.y, old(owner.friendlyQuad.HitCells()));
  }

  /**
   * The reports of a volley: the first shot's report predicted from the
   * grid `before`, followed by the rest's reports predicted from the grid
   * after it, are every shot's report predicted from the grid `before`.
   */
  lemma VolleyReports(fleet: seq<Berth>, before: set<Cell>, after: set<Cell>, p: Cell, tail: seq<Cell>,
                      first: ShotReport, rest: seq<ShotReport>)
    requires |rest| == |tail|
    requires HitsExplained(fleet, after, before, [p])
    requires first == Predict(fleet, p, before, [p])
    requires forall k :: 0 <= k < |tail| ==> rest[k] == Predict(fleet, tail[k], after, tail[..k + 1])
    ensures forall k :: 0 <= k <= |tail| ==>
      ([first] + rest)[k] == Predict(fleet, ([p] + tail)[k], before, ([p] + tail)[..k + 1])
  {
    var volley := [p] + tail;
    var reports := [first] + rest;
    forall k | 0 <= k <= |tail|
      ensures reports[k] == Predict(fleet, volley[k], before, volley[..k + 1])
    {
      if k == 0 {
        assert volley[..1] == [p];
      } else {
        assert reports[k] == rest[k - 1] && volley[k] == tail[k - 1];
        PredictShift(fleet, tail[k - 1], before, after, [p], tail[..k]);
        assert volley[..k + 1] == [p] + tail[..k];
      }
    }
  }

  /**
   * The chain of `playNextAnimation` callbacks over the polled shots: the
   * head shot is resolved, then the rest in order. The grid ends with every
   * shot of the volley fired, the fleet's hit cells grow by the volley's
   * ship cells, and each report is the one the grid before the volley
   * predicts from the shots landed so far.
   */
  method PlayVolley(owner: Player, volley: seq<Cell>, ghost fleet: seq<Berth>, ghost before: set<Cell>)
    returns (reports: seq<ShotReport>)
    requires owner.Valid() && owner.placedShips == FLEET_SIZE && Berths(owner) == fleet
    requires owner.friendlyQuad.HitCells() == before
    requires owner.friendlyQuad.WellFormed() && owner.FleetAfloatOrHit()
    modifies owner.friendlyQuad.quad, owner.DeckArrays()
    ensures owner.Valid() && Berths(owner) == fleet
    ensures owner.friendlyQuad.WellFormed() && owner.FleetAfloatOrHit()
    ensures old(owner.Synced()) || volley != [] ==> owner.Synced()
    ensures owner.friendlyQuad.ShotAll(volley)
    ensures HitsExplained(fleet, owner.friendlyQuad.HitCells(), before, volley)
    ensures |reports| == |volley|
    ensures forall k :: 0 <= k < |volley| ==> reports[k] == Predict(fleet, volley[k], before, volley[..k + 1])
    decreases |volley|
  {
    if volley == [] {
      return [];
    }
    var p := volley[0];
    var tail := volley[1..];
    assert volley == [p] + tail;
    var report := ResolveShot(owner, p);
    ghost var after := owner.friendlyQuad.HitCells();
    label Landed:
    var rest := PlayVolley(owner, tail, fleet, after);
    reports := [report] + rest;
    forall yy, xx | 0 <= yy < GRID_SIZE && 0 <= xx < GRID_SIZE
      ensures owner.friendlyQuad.quad[yy, xx] == AfterShot(old(owner.friendlyQuad.quad[yy, xx]), Cell(xx, yy) in volley)
    {
      ShotIsTerminal(old(owner.friendlyQuad.quad[yy, xx]), xx == p.x && yy == p.y, Cell(xx, yy) in tail);
    }
    ExplainedChain(fleet, before, after, owner.friendlyQuad.HitCells(), [p], tail);
    VolleyReports(fleet, before, after, p, tail, report, rest);
  }

  /**
   * What a played volley leaves behind: the fleet's hit cells are those
   * `before` plus the volley's ship cells, each report is the one `before`
   * predicts from the shots landed so far, and the turn ends in a victory
   * for the attacking civilization exactly when the target is defeated.
   */
  ghost predicate VolleyOutcome(target: Player, attacker: Civilization, fleet: seq<Berth>, before: set<Cell>,
                                volley: seq<Cell>, reports: seq<ShotReport>, end: TurnEnd)
    requires target.Valid() && target.placedShips == FLEET_SIZE
    reads target, target.fleet, target.locations, target.friendlyQuad.quad, target.DeckArrays()
  {
    HitsExplained(fleet, target.friendlyQuad.HitCells(), before, volley) &&
    |reports| == |volley| &&
    (forall k :: 0 <= k < |volley| ==> reports[k] == Predict(fleet, volley[k], before, volley[..k + 1])) &&
    (end.Victory? <==> target.Defeated()) &&
    (end.Victory? ==> end.winner == attacker)
  }

  /**
   * The volley as `playNextAnimation` plays it on the target's grid: every
   * queued shot is resolved in order, then the grid stops taking clicks and
   * `hasLost()` decides whether the attacker has won.
   */
  method LandVolley(target: Player, attacker: Civilization, volley: seq<Cell>, ghost fleet: seq<Berth>,
                    ghost before: set<Cell>)
    returns (reports: seq<ShotReport>, end: TurnEnd)
    requires target.Valid() && target.placedShips == FLEET_SIZE && Berths(target) == fleet
    requires target.friendlyQuad.HitCells() == before
    requires target.friendlyQuad.WellFormed() && target.FleetAfloatOrHit()
    modifies target.friendlyQuad.quad, target.DeckArrays()
    ensures target.Valid() && Berths(target) == fleet
    ensures target.friendlyQuad.WellFormed() && target.FleetAfloatOrHit()
    ensures old(target.Synced()) || volley != [] ==> target.Synced()
    ensures target.friendlyQuad.ShotAll(volley)
    ensures VolleyOutcome(target, attacker, fleet, before, volley, reports, end)
  {
    reports := PlayVolley(target, volley, fleet, before);
    // `hasLost()`, evaluated through the count that Player.HasLost is proved against
    var lost := target.HasPlacedAllShips() && target.UnsunkCount(FLEET_SIZE) == 0;
    end := if lost then Victory(attacker) else TurnPasses;
  }

  /** A salvo turn: a fresh one is entered for every turn. */
  class SalvoBattlePhase {
    const board: Board
    /** The board's current player, who fires this turn; the board does not change turns during the phase. */
    const attacker: Player
    /** The board's next player, whose grid takes the shots. */
    const target: Player
    /** `shotsRemaining` */
    var shotsRemaining: int
    /** `shotGridPointQueue`, head first. */
    var shotQueue: seq<Cell>
    /** How many falling stones `animationQueue` holds. */
    var animations: int
    /** The shots of this turn that have landed, in landing order. */
    ghost var resolved: seq<Cell>
    /** The turn's allowance: the attacker's un-sunk ships on entry. */
    ghost const allowance: int
    /** The target's fleet as the grid sees it; placement is over, so it never changes. */
    ghost const fleet: seq<Berth>

    /** The target has its whole fleet placed, as entered, and belongs to the other civilization. */
    ghost predicate InBattle()
      reads target, target.fleet, target.locations
    {
      target.Valid() && target.placedShips == FLEET_SIZE && Berths(target) == fleet && attacker.civ != target.civ
    }

    /** In battle, with no count negative or beyond the allowance. */
    ghost predicate Valid()
      reads this, target, target.fleet, target.locations
    {
      InBattle() &&
      0 <= shotsRemaining && 0 <= animations <= |shotQueue| &&
      |resolved| + |shotQueue| + shotsRemaining <= allowance <= FLEET_SIZE
    }

    /**
     * Until `cleanup`: every shot of the allowance is landed, queued or
     * still to take, each queued shot has its stone, and shots land only
     * once the allowance is used up.
     */
    ghost predicate Accounted()
      reads this
    {
      |resolved| + |shotQueue| + shotsRemaining == allowance && animations == |shotQueue| &&
      (resolved != [] ==> shotsRemaining == 0 && shotQueue == [])
    }

    /** The target's grid holds only cell codes and its fleet still lies on SHIP or HIT cells. */
    ghost predicate TargetSound()
      requires InBattle()
      reads target, target.fleet, target.locations, target.friendlyQuad.quad
    {
      target.friendlyQuad.WellFormed() && target.FleetAfloatOrHit()
    }

    /**
     * `enterPhase` with `onEnter` and `formatSalvoEntry`: the next player's
     * grid becomes the target, both queues start empty, and the allowance
     * is the current player's `getRemainingShips()`.
     */
    constructor (b: Board)
      requires b.Valid() && !b.setupPhase
      ensures board == b && Valid() && Accounted()
      ensures attacker == b.GetCurrentPlayer() && target == b.GetNextPlayer()
      ensures shotQueue == [] && animations == 0 && resolved == []
      ensures fleet == Berths(target)
      ensures shotsRemaining == allowance == b.GetCurrentPlayer().UnsunkCount(FLEET_SIZE)
      ensures b.Sound() ==> TargetSound()
    {
      var shots := b.GetCurrentPlayer().UnsunkCount(FLEET_SIZE);
      board := b;
      attacker := b.GetCurrentPlayer();
      target := b.GetNextPlayer();
      fleet := Berths(b.GetNextPlayer());
      shotQueue := [];
      animations := 0;
      resolved := [];
      allowance := shots;
      shotsRemaining := shots;
    }

    /** Every callback polls one stone and one shot, so both queues end empty. */
    method PollQueues() returns (volley: seq<Cell>)
      modifies this
      ensures volley == old(shotQueue) && shotQueue == [] && animations == 0 && resolved == old(resolved) + volley
      ensures shotsRemaining == old(shotsRemaining)
      ensures unchanged(target.friendlyQuad.quad)
      ensures old(InBattle()) ==> InBattle() && target.Synced() == old(target.Synced()) && target.friendlyQuad.HitCells() == old(target.friendlyQuad.HitCells())
      ensures old(InBattle() && TargetSound()) ==> InBattle() && TargetSound()
    {
      volley := shotQueue;
      shotQueue, animations, resolved := [], 0, resolved + volley;
    }

    /**
     * `playNextAnimation`: while stones are queued, the next shot leaves
     * both queues, lands on the target's grid with a deck sync, is reported
     * through `getHitIdentifier`, and the rest of the queue is played; once
     * the queues are empty the target grid stops taking clicks and the
     * target is checked once for defeat. A shot at a cell already fired on
     * changes nothing and is reported again from the decks. Each report is
     * the one the grid before the volley predicts from the shots landed so
     * far.
     */
    method PlayNextAnimation() returns (reports: seq<ShotReport>, end: TurnEnd)
      requires Valid() && TargetSound() && animations == |shotQueue|
      modifies this, target.friendlyQuad.quad, target.DeckArrays()
      ensures Valid() && TargetSound()
      ensures old(target.Synced()) || old(shotQueue) != [] ==> target.Synced()
      ensures shotsRemaining == old(shotsRemaining) && |shotQueue| == 0 && animations == 0
      ensures resolved == old(resolved) + old(shotQueue)
      ensures target.friendlyQuad.ShotAll(old(shotQueue))
      ensures VolleyOutcome(target, attacker.civ, fleet, old(target.friendlyQuad.HitCells()), old(shotQueue), reports, end)
    {
      // every callback polls one stone and one shot, so both queues end empty
      ghost var before := target.friendlyQuad.HitCells();
      var volley := PollQueues();
      reports, end := LandVolley(target, attacker.civ, volley, fleet, before);
    }

    /**
     * The bookkeeping of a queued click: the shot joins `shotGridPointQueue`,
     * its stone joins `animationQueue`, and one shot of the allowance is used.
     */
    method QueueShot(x: int, y: int)
      modifies this
      ensures shotQueue == old(shotQueue) + [Cell(x, y)] && animations == old(animations) + 1
      ensures shotsRemaining == old(shotsRemaining) - 1 && resolved == old(resolved)
      ensures unchanged(target.friendlyQuad.quad)
      ensures old(InBattle()) ==> InBattle() && target.Synced() == old(target.Synced()) && target.friendlyQuad.HitCells() == old(target.friendlyQuad.HitCells())
      ensures old(InBattle() && TargetSound()) ==> InBattle() && TargetSound()
      ensures old(Valid() && shotsRemaining > 0) ==> Valid()
      ensures old(Accounted()) ==> animations == |shotQueue| && |resolved| + |shotQueue| + shotsRemaining == allowance
    {
      shotQueue, animations, shotsRemaining := shotQueue + [Cell(x, y)], animations + 1, shotsRemaining - 1;
    }

    /** The click that uses the last shot: it is queued, and then `playNextAnimation` plays the queue. */
    method FireLastShot(x: int, y: int) returns (reports: seq<ShotReport>, end: TurnEnd)
      requires Valid() && Accounted() && TargetSound() && shotsRemaining == 1
      modifies this, target.friendlyQuad.quad, target.DeckArrays()
      ensures Valid() && Accounted() && TargetSound()
      ensures shotQueue == [] && shotsRemaining == 0 && animations == 0
      ensures resolved == old(resolved) + (old(shotQueue) + [Cell(x, y)])
      ensures target.friendlyQuad.ShotAll(old(shotQueue) + [Cell(x, y)])
      ensures VolleyOutcome(target, attacker.civ, fleet, old(target.friendlyQuad.HitCells()), old(shotQueue) + [Cell(x, y)], reports, end)
    {
      QueueShot(x, y);
      reports, end := PlayNextAnimation();
    }

    /**
     * `handleCellClick`: with no shot left, or on a cell `canFireOn` refuses,
     * nothing changes; otherwise the shot is queued, and the click that uses
     * the last shot plays the whole queue, after which the target's grid no
     * longer takes clicks.
     */
    method HandleCellClick(x: int, y: int, interactive: bool) returns (click: SalvoClick, interactiveAfter: bool)
      requires Valid() && Accounted() && TargetSound() && InBounds(x, y)
      modifies this, target.friendlyQuad.quad, target.DeckArrays()
      ensures Valid() && Accounted() && TargetSound()
      ensures click.NoShotsLeft? <==> old(shotsRemaining) == 0
      ensures click.CannotFire? <==> old(shotsRemaining) != 0 && !old(CanFireOn(target.friendlyQuad, x, y, interactive))
      ensures click.Queued? <==> old(shotsRemaining) > 1 && old(CanFireOn(target.friendlyQuad, x, y, interactive))
      ensures !click.Volley? ==>
        interactiveAfter == interactive && unchanged(target.friendlyQuad.quad) && unchanged(target.DeckArrays()) && resolved == old(resolved)
      ensures click.NoShotsLeft? || click.CannotFire? ==>
        shotQueue == old(shotQueue) && shotsRemaining == old(shotsRemaining) && animations == old(animations)
      ensures click.Queued? ==>
        shotQueue == old(shotQueue) + [Cell(x, y)] && shotsRemaining == old(shotsRemaining) - 1 && animations == old(animations) + 1
      ensures click.Volley? ==>
        !interactiveAfter && shotQueue == [] && shotsRemaining == 0 && animations == 0 &&
        resolved == old(resolved) + (old(shotQueue) + [Cell(x, y)]) &&
        target.friendlyQuad.ShotAll(old(shotQueue) + [Cell(x, y)]) &&
        VolleyOutcome(target, attacker.civ, fleet, old(target.friendlyQuad.HitCells()), old(shotQueue) + [Cell(x, y)], click.reports, click.end)
    {
      if shotsRemaining == 0 {
        return NoShotsLeft, interactive;
      }
      if !CanFireOn(target.friendlyQuad, x, y, interactive) {
        return CannotFire, interactive;
      }
      if shotsRemaining != 1 {
        QueueShot(x, y);
        return Queued, interactive;
      }
      var reports, end := FireLastShot(x, y);
      return Volley(reports, end), false;
    }

    /**
     * `cleanup`: the stones still queued are dropped and no shot is left;
     * the shot queue itself is not cleared.
     */
    method Cleanup()
      requires Valid()
      modifies this
      ensures Valid()
      ensures shotsRemaining == 0 && animations == 0 && shotQueue == old(shotQueue) && resolved == old(resolved)
    {
      animations, shotsRemaining := 0, 0;
    }
}
}
