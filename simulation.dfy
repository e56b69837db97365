/**
 * One simulation tick (`update` without rendering): the economy, the policy
 * timer, every unit in list order, the death pass and the victory check.
 */
module Simulation {
  import opened Options
  import opened Arena
  import opened Behaviours
  import opened BehaviourFacts
  import opened Resolution
  import opened Policy

  function Min(a: int, b: int): int {
    if a <= b then a else b
  }

  /** The economy: the timer advances, and each time it reaches ECON_TICK both sides gain ECON_GAIN bolts, capped. */
  function Regenerate(w: World, dt: real): (r: World)
    ensures r == w.(econTimer := r.econTimer, playerBolts := r.playerBolts, aiBolts := r.aiBolts)
    ensures w.playerBolts <= BOLT_CAP ==> w.playerBolts <= r.playerBolts <= BOLT_CAP
    ensures w.aiBolts <= BOLT_CAP ==> w.aiBolts <= r.aiBolts <= BOLT_CAP
  {
    var t := w.econTimer + dt;
    if t >= ECON_TICK then
      w.(econTimer := t - ECON_TICK,
         playerBolts := Min(BOLT_CAP, w.playerBolts + ECON_GAIN),
         aiBolts := Min(BOLT_CAP, w.aiBolts + ECON_GAIN))
    else w.(econTimer := t)
  }

  /** The policy timer: every AI_THINK_PERIOD seconds it resets to 0 and the policy acts once. */
  function Think(w: World, dt: real, d: Draws): (r: World)
    ensures r.over == w.over && r.winner == w.winner && r.playerBolts == w.playerBolts
    ensures r.playerWall == w.playerWall && r.aiWall == w.aiWall && r.econTimer == w.econTimer
    ensures |w.units| <= |r.units| <= |w.units| + 1 && r.units[..|w.units|] == w.units
  {
    var t := w.aiThinkTimer + dt;
    if t >= AI_THINK_PERIOD then AiStep(w.(aiThinkTimer := 0.0), d) else w.(aiThinkTimer := t)
  }

  /** `update(dt)`: nothing once the match is over. */
  function Tick(w: World, dt: real, d: Draws): (r: World)
    ensures w.over ==> r == w
    ensures |w.units| <= |r.units| <= |w.units| + 1
  {
    if w.over then w
    else
      var w1 := Think(Regenerate(w, dt), dt, d);
      var w2 := StepUnits(w1, dt, |w1.units|);
      CheckWin(w2.(units := ResolveDeaths(w2.units)))
  }

  /**
   * With a step of at most MAX_DT the economy keeps its timer in [0, ECON_TICK):
   * the time elapsed is carried over in full, exactly one payment is made when
   * the timer reaches ECON_TICK, and the bolts never pass the cap.
   */
  lemma RegenerateFacts(w: World, dt: real)
    requires Valid(w) && 0.0 <= dt <= MAX_DT
    ensures var r := Regenerate(w, dt); var paid := w.econTimer + dt >= ECON_TICK;
      Valid(r) && r.units == w.units && r.nextId == w.nextId &&
      r.playerWall == w.playerWall && r.aiWall == w.aiWall && r.over == w.over &&
      r.econTimer + (if paid then ECON_TICK else 0.0) == w.econTimer + dt &&
      (paid ==> r.playerBolts == Min(BOLT_CAP, w.playerBolts + ECON_GAIN) &&
                r.aiBolts == Min(BOLT_CAP, w.aiBolts + ECON_GAIN)) &&
      (!paid ==> r.playerBolts == w.playerBolts && r.aiBolts == w.aiBolts) &&
      w.playerBolts <= r.playerBolts && w.aiBolts <= r.aiBolts
  {
  }

  /** The policy timer stays in [0, AI_THINK_PERIOD); the policy acts only when it fires. */
  lemma ThinkFacts(w: World, dt: real, d: Draws)
    requires Valid(w) && 0.0 <= dt <= MAX_DT
    ensures var r := Think(w, dt, d);
      Valid(r) && Evolves(w, r) && r.playerBolts == w.playerBolts && r.units[..|w.units|] == w.units &&
      r.over == w.over && r.econTimer == w.econTimer &&
      (w.aiThinkTimer + dt < AI_THINK_PERIOD ==> r == w.(aiThinkTimer := w.aiThinkTimer + dt)) &&
      (w.aiThinkTimer + dt >= AI_THINK_PERIOD ==> r == AiStep(w.(aiThinkTimer := 0.0), d))
  {
    if w.aiThinkTimer + dt >= AI_THINK_PERIOD {
      AiStepFacts(w.(aiThinkTimer := 0.0), d);
    } else {
      assert w.units[..|w.units|] == w.units;
    }
  }

  /** The death pass keeps the world valid and only tombstones units and lowers hp. */
  lemma ResolveKeepsValid(w: World)
    requires Valid(w)
    ensures var r := w.(units := ResolveDeaths(w.units));
      Valid(r) && Evolves(w, r)
  {
    var r := w.(units := ResolveDeaths(w.units));
    ResolveDeathsFacts(w.units);
    assert Ids(r.units) == Ids(w.units) by {
      forall k | 0 <= k < |w.units| ensures Ids(r.units)[k] == Ids(w.units)[k] {
        assert OnlyHpAndLife(w.units[k], r.units[k]);
      }
    }
    forall k | 0 <= k < |r.units| ensures UnitOk(r.units[k]) {
      assert OnlyHpAndLife(w.units[k], r.units[k]);
      assert UnitEvolves(w.units[k], r.units[k]);
    }
  }

  /** The victory check keeps the world valid: it only ever ends the match with a winner. */
  lemma CheckWinKeepsValid(w: World)
    requires Valid(w)
    ensures var r := CheckWin(w);
      Valid(r) && Evolves(w, r) && r == w.(over := r.over, winner := r.winner)
  {
    var r := CheckWin(w);
    CheckWinUpToShape(w, |w.units|);
    assert r.units == w.units && r.playerWall == w.playerWall && r.aiWall == w.aiWall;
  }

  /**
   * A tick of at most MAX_DT keeps the world valid; records only evolve (ids,
   * kinds, sides and lanes fixed, hp never rising, nobody revived, walls
   * never rebuilt), existing units stay in place, the player's bolts never
   * drop, and a finished match stays finished.
   */
  lemma TickPreservesValid(w: World, dt: real, d: Draws)
    requires Valid(w) && 0.0 <= dt <= MAX_DT
    ensures var r := Tick(w, dt, d);
      Valid(r) && Evolves(w, r) && w.playerBolts <= r.playerBolts
  {
    if !w.over {
      var w0 := Regenerate(w, dt);
      RegenerateFacts(w, dt);
      var w1 := Think(w0, dt, d);
      ThinkFacts(w0, dt, d);
      EvolvesTransitive(w, w0, w1);
      var w2 := StepUnits(w1, dt, |w1.units|);
      StepUnitsPhase(w1, dt, |w1.units|);
      EvolvesTransitive(w, w1, w2);
      var w3 := w2.(units := ResolveDeaths(w2.units));
      ResolveKeepsValid(w2);
      EvolvesTransitive(w, w2, w3);
      CheckWinKeepsValid(w3);
      EvolvesTransitive(w, w3, CheckWin(w3));
      assert CheckWin(w3).playerBolts == w3.playerBolts == w1.playerBolts;
    }
  }

  /**
   * The tele-zoom's jump is one-shot across ticks: once a unit has teleported
   * it is still flagged after any later tick, so `TeleportAdvances` applies to
   * every later turn and its blast never fires again.
   */
  lemma TeleportedStays(w: World, dt: real, d: Draws, k: nat)
    requires Valid(w) && 0.0 <= dt <= MAX_DT && k < |w.units| && w.units[k].hasTeleported
    ensures var r := Tick(w, dt, d); k < |r.units| && r.units[k].hasTeleported
  {
    TickPreservesValid(w, dt, d);
  }

  /** Once the match is over, `update` changes nothing. */
  lemma TickWhenOver(w: World, dt: real, d: Draws)
    requires w.over
    ensures Tick(w, dt, d) == w
  {
  }

  /**
   * A match ends only by crossing: if a tick ends a running match, some live
   * walker, mini walker or tele-zoom stands past the far edge with the wall it
   * attacks destroyed, and the last such unit in the list is the winner's.
   */
  lemma TickEndsOnlyByCrossing(w: World, dt: real, d: Draws)
    requires Valid(w) && 0.0 <= dt <= MAX_DT && !w.over
    ensures var r := Tick(w, dt, d);
      (r.over <==> exists k :: 0 <= k < |r.units| && Crosses(r.units[k], r.playerWall, r.aiWall)) &&
      (!r.over ==> r.winner.None?) &&
      (forall k ::
         (0 <= k < |r.units| && Crosses(r.units[k], r.playerWall, r.aiWall) &&
          forall m :: k < m < |r.units| ==> !Crosses(r.units[m], r.playerWall, r.aiWall)) ==>
         r.winner == Some(r.units[k].side))
  {
    var w0 := Regenerate(w, dt);
    RegenerateFacts(w, dt);
    var w1 := Think(w0, dt, d);
    ThinkFacts(w0, dt, d);
    var w2 := StepUnits(w1, dt, |w1.units|);
    StepUnitsPhase(w1, dt, |w1.units|);
    var w3 := w2.(units := ResolveDeaths(w2.units));
    assert !w3.over && w3.winner.None?;
    CheckWinOutcome(w3);
  }
}
