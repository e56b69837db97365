/**
 * The opponent policy (`aiAct`): count the player's crossing units per lane,
 * defend the most threatened lane with a ranger or a marker when it can,
 * otherwise send a walker or a mini walker down a lane. The random draws are
 * parameters.
 */
module Policy {
  import opened Options
  import opened Catalog
  import opened Arena
  import opened Placement
  import opened Resolution

  /** A live player unit of a kind that can win by crossing. */
  predicate IsThreat(u: Unit) {
    u.alive && u.side == Player && CanCross(u.kind)
  }

  /** Number of threats standing in `lane`. */
  function ThreatCount(us: seq<Unit>, lane: int): (n: nat)
    ensures n <= |us|
  {
    if |us| == 0 then 0
    else
      var last := us[|us| - 1];
      ThreatCount(us[..|us| - 1], lane) + if IsThreat(last) && last.lane == lane then 1 else 0
  }

  /** The per-lane threat counts. */
  function Threats(us: seq<Unit>): (t: seq<nat>)
    ensures |t| == LANES
  {
    seq(LANES, l => ThreatCount(us, l))
  }

  /** A lane has a positive threat count exactly when some threat stands in it. */
  lemma {:induction false} ThreatCountPositive(us: seq<Unit>, lane: int)
    ensures ThreatCount(us, lane) > 0 <==> exists k :: 0 <= k < |us| && IsThreat(us[k]) && us[k].lane == lane
  {
    if |us| > 0 {
      var init := us[..|us| - 1];
      ThreatCountPositive(init, lane);
      assert forall k :: 0 <= k < |init| ==> init[k] == us[k];
      if ThreatCount(init, lane) > 0 {
        var k :| 0 <= k < |init| && IsThreat(init[k]) && init[k].lane == lane;
        assert us[k] == init[k];
      }
    }
  }

  /**
   * The counting loop of the policy, over the unit list in order. Every
   * unit's lane is on the board, as in every valid world.
   */
  method CountThreats(us: seq<Unit>) returns (threats: seq<nat>)
    requires forall k :: 0 <= k < |us| ==> 0 <= us[k].lane < LANES
    ensures threats == Threats(us)
  {
    threats := seq(LANES, _ => 0);
    var k := 0;
    while k < |us|
      invariant 0 <= k <= |us|
      invariant |threats| == LANES
      invariant forall l :: 0 <= l < LANES ==> threats[l] == ThreatCount(us[..k], l)
    {
      var u := us[k];
      assert us[..k + 1][..k] == us[..k];
      if IsThreat(u) {
        threats := threats[u.lane := threats[u.lane] + 1];
      }
      k := k + 1;
    }
    assert us[..k] == us;
  }

  /** Index of the first largest count: the most threatened lane, lowest lane on a tie. */
  function FirstMax(s: seq<nat>): (i: nat)
    requires |s| > 0
    ensures i < |s|
    ensures forall k :: 0 <= k < |s| ==> s[k] <= s[i]
    ensures forall k :: 0 <= k < i ==> s[k] < s[i]
  {
    if |s| == 1 then 0
    else
      var j := FirstMax(s[..|s| - 1]);
      assert forall k :: 0 <= k < |s| - 1 ==> s[..|s| - 1][k] == s[k];
      if s[|s| - 1] > s[j] then |s| - 1 else j
  }

  /** The four uniform draws in [0, 1) the policy may consume. */
  datatype Draws = Draws(unitPick: real, colPick: real, lanePick: real, miniPick: real)
  {
    predicate Valid() {
      0.0 <= unitPick < 1.0 && 0.0 <= colPick < 1.0 && 0.0 <= lanePick < 1.0 && 0.0 <= miniPick < 1.0
    }
  }

  /** What the policy asks to place. */
  datatype Request = Request(kind: UnitType, lane: int, col: int)

  /** The lane the policy defends: the first lane with the most threats. */
  function DangerLane(us: seq<Unit>): (lane: int)
    ensures 0 <= lane < LANES
  {
    FirstMax(Threats(us))
  }

  /** The defender drawn: a ranger with probability 0.55, else a marker. */
  function DefenderKind(d: Draws): UnitType {
    if d.unitPick < 0.55 then Ranger else Marker
  }

  /** The defending column drawn: 11 or 12, evenly. */
  function DefenderCol(d: Draws): int {
    if d.colPick < 0.5 then 11 else 12
  }

  /** The defensive branch applies: a threat exists, 125 bolts are available and the spot is free. */
  predicate Defends(w: World, d: Draws) {
    Threats(w.units)[DangerLane(w.units)] > 0 && w.aiBolts >= 125 &&
    CanPlace(w.units, Ai, DangerLane(w.units), DefenderCol(d))
  }

  /** The attacker drawn: a mini walker when a walker is unaffordable, else a walker with probability 0.65. */
  function AttackerKind(w: World, d: Draws): UnitType {
    if w.aiBolts >= Def(Walker).cost then (if d.miniPick < 0.35 then MiniWalker else Walker) else MiniWalker
  }

  /** The attacking lane drawn: floor(draw * LANES). */
  function AttackerLane(d: Draws): int {
    (d.lanePick * LANES as real).Floor
  }

  /** `aiAct` as a decision: what it asks to place, if anything. */
  function AiRequest(w: World, d: Draws): (r: Option<Request>)
    ensures r.Some? ==> !w.over
    ensures r.Some? && r.value.col != 14 ==> r.value.kind in {Ranger, Marker} && r.value.col in {11, 12}
  {
    if w.over then None
    else if Defends(w, d) then Some(Request(DefenderKind(d), DangerLane(w.units), DefenderCol(d)))
    else if w.aiBolts >= 50 then Some(Request(AttackerKind(w, d), AttackerLane(d), 14))
    else None
  }

  /** `aiAct`: place the requested unit for the ai side, if the placement is allowed. */
  function AiStep(w: World, d: Draws): (r: World)
    ensures r.over == w.over && r.winner == w.winner && r.playerBolts == w.playerBolts
    ensures r.playerWall == w.playerWall && r.aiWall == w.aiWall
    ensures r.econTimer == w.econTimer && r.aiThinkTimer == w.aiThinkTimer
    ensures |w.units| <= |r.units| <= |w.units| + 1 && r.units[..|w.units|] == w.units
  {
    match AiRequest(w, d)
    case None => w
    case Some(q) => Place(w, Ai, Name(q.kind), q.lane, q.col).0
  }

  /**
   * One policy step keeps the world valid, adds at most one unit, of the ai
   * side, after the existing ones, and leaves the player's bolts alone.
   */
  lemma AiStepFacts(w: World, d: Draws)
    requires Valid(w)
    ensures var r := AiStep(w, d);
      Valid(r) && Evolves(w, r) && r.playerBolts == w.playerBolts &&
      |w.units| <= |r.units| <= |w.units| + 1 && r.units[..|w.units|] == w.units &&
      (|r.units| > |w.units| ==> r.units[|w.units|].side == Ai && r.aiBolts < w.aiBolts)
  {
    match AiRequest(w, d)
    case None =>
      assert w.units[..|w.units|] == w.units;
    case Some(q) =>
      var name := Name(q.kind);
      PlacePreservesValid(w, Ai, name, q.lane, q.col);
      if Place(w, Ai, name, q.lane, q.col).1 {
        PlaceSucceeds(w, Ai, name, q.lane, q.col);
      } else {
        assert w.units[..|w.units|] == w.units;
      }
  }

  /**
   * When the most threatened lane has a threat, the ai holds 125 bolts and the
   * drawn defending spot is free, the ai places the drawn defender there and
   * pays its cost.
   */
  lemma AiDefends(w: World, d: Draws)
    requires !w.over && Defends(w, d)
    ensures var r := AiStep(w, d); var n := |w.units|;
      |r.units| == n + 1 && r.aiBolts == w.aiBolts - 125 &&
      r.units[n] == NewUnit(w.nextId, DefenderKind(d), Ai, DangerLane(w.units), DefenderCol(d))
  {
    var kind := DefenderKind(d);
    NameRoundTrip(kind);
    PlaceSucceeds(w, Ai, Name(kind), DangerLane(w.units), DefenderCol(d));
  }

  /** The defended lane carries a threat and no lane carries more; earlier lanes carry fewer. */
  lemma DangerLaneIsMostThreatened(w: World)
    requires Threats(w.units)[DangerLane(w.units)] > 0
    ensures var lane := DangerLane(w.units);
      (exists k :: 0 <= k < |w.units| && IsThreat(w.units[k]) && w.units[k].lane == lane) &&
      (forall l :: 0 <= l < LANES ==> ThreatCount(w.units, l) <= ThreatCount(w.units, lane)) &&
      (forall l :: 0 <= l < lane ==> ThreatCount(w.units, l) < ThreatCount(w.units, lane))
  {
    var lane := DangerLane(w.units);
    ThreatCountPositive(w.units, lane);
    forall l | 0 <= l < LANES
      ensures ThreatCount(w.units, l) <= ThreatCount(w.units, lane)
    {
      assert Threats(w.units)[l] == ThreatCount(w.units, l);
    }
    forall l | 0 <= l < lane
      ensures ThreatCount(w.units, l) < ThreatCount(w.units, lane)
    {
      assert Threats(w.units)[l] == ThreatCount(w.units, l);
    }
  }

  /**
   * Otherwise, holding at least 50 bolts, the ai sends the drawn attacker down
   * the drawn lane from column 14 when that spot is free, and pays its cost;
   * a mini walker whenever it holds less than a walker's cost.
   */
  lemma AiAttacks(w: World, d: Draws)
    requires d.Valid() && !w.over && !Defends(w, d) && w.aiBolts >= 50
    requires CanPlace(w.units, Ai, AttackerLane(d), 14)
    ensures var r := AiStep(w, d); var n := |w.units|; var kind := AttackerKind(w, d);
      0 <= AttackerLane(d) < LANES &&
      (w.aiBolts < 100 ==> kind == MiniWalker) &&
      |r.units| == n + 1 && r.aiBolts == w.aiBolts - Def(kind).cost &&
      r.units[n] == NewUnit(w.nextId, kind, Ai, AttackerLane(d), 14)
  {
    var kind := AttackerKind(w, d);
    NameRoundTrip(kind);
    PlaceSucceeds(w, Ai, Name(kind), AttackerLane(d), 14);
  }

  /** With no defence to mount and fewer than 50 bolts, or once the match is over, the ai does nothing. */
  lemma AiIdles(w: World, d: Draws)
    requires w.over || (!Defends(w, d) && w.aiBolts < 50)
    ensures AiStep(w, d) == w
  {
  }
}
