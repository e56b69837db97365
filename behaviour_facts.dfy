/**
 * Properties of the per-unit behaviours: exactly what each one does in each
 * situation, the wall clamping rule, strike gating by the cooldown, and that
 * the unit loop keeps the world valid.
 */
module BehaviourFacts {
  import opened Catalog
  import opened Arena
  import opened Targeting
  import opened Behaviours

  // ---- What each behaviour does, situation by situation ----

  /**
   * A walker with an enemy ahead within one column never moves: when ready it
   * strikes the nearest such enemy (the earliest on a tie) and reloads,
   * otherwise it waits.
   */
  lemma WalkEngaged(w: World, i: nat, dt: real)
    requires i < |w.units| && IsWalker(w.units[i].kind) && Nearest(w.units, i, Melee).Some?
    ensures var u := w.units[i]; var j := Nearest(w.units, i, Melee).value;
      Walk(w, i, dt) ==
        if u.cooldown <= 0.0 then StrikeUnit(w, i, j, Def(u.kind).damage, Reload(u.kind)) else w
  {
  }

  /**
   * A walker with no enemy ahead but a live enemy wall within one column ahead
   * never moves: when ready it strikes the wall and reloads, otherwise it waits.
   */
  lemma WalkAtWall(w: World, i: nat, dt: real)
    requires i < |w.units| && IsWalker(w.units[i].kind) && Nearest(w.units, i, Melee).None?
    requires var u := w.units[i]; var foe := w.WallOf(EnemySide(u.side));
      foe.alive && 0.0 < Ahead(u, foe.col as real) <= 1.0
    ensures var u := w.units[i];
      Walk(w, i, dt) ==
        if u.cooldown <= 0.0 then StrikeWall(w, i, EnemySide(u.side), Def(u.kind).damage, Reload(u.kind)) else w
  {
  }

  /**
   * A walker with nothing to strike advances by dir * speed * dt, except that
   * it halts one column before a live enemy wall; once that wall is dead it
   * advances unconditionally.
   */
  lemma WalkAdvances(w: World, i: nat, dt: real)
    requires i < |w.units| && IsWalker(w.units[i].kind) && Nearest(w.units, i, Melee).None?
    requires var u := w.units[i]; var foe := w.WallOf(EnemySide(u.side));
      !(foe.alive && 0.0 < Ahead(u, foe.col as real) <= 1.0)
    ensures var u := w.units[i]; var foe := w.WallOf(EnemySide(u.side));
      var free := !foe.alive || (u.side == Player && u.x < foe.col as real - 1.0) ||
                  (u.side == Ai && u.x > foe.col as real + 1.0);
      Walk(w, i, dt) == if free then Moved(w, i, Stride(u, dt)) else w
    ensures !w.WallOf(EnemySide(w.units[i].side)).alive ==>
      Walk(w, i, dt) == Moved(w, i, Stride(w.units[i], dt))
  {
  }

  /** A reloading ranger does nothing. */
  lemma ShootReloading(w: World, i: nat)
    requires i < |w.units| && w.units[i].kind == Ranger && w.units[i].cooldown > 0.0
    ensures Shoot(w, i) == w
  {
  }

  /** A ready ranger strikes the same-lane enemy at the smallest distance (the earliest on a tie) and reloads. */
  lemma ShootUnit(w: World, i: nat)
    requires i < |w.units| && w.units[i].kind == Ranger && w.units[i].cooldown <= 0.0
    requires Nearest(w.units, i, Ranged).Some?
    ensures Shoot(w, i) == StrikeUnit(w, i, Nearest(w.units, i, Ranged).value, Def(Ranger).damage, Reload(Ranger))
  {
  }

  /** A ready ranger with no enemy in its lane strikes the enemy wall if it stands, and otherwise does nothing. */
  lemma ShootWall(w: World, i: nat)
    requires i < |w.units| && w.units[i].kind == Ranger && w.units[i].cooldown <= 0.0
    requires Nearest(w.units, i, Ranged).None?
    ensures var s := EnemySide(w.units[i].side);
      Shoot(w, i) == if w.WallOf(s).alive then StrikeWall(w, i, s, Def(Ranger).damage, Reload(Ranger)) else w
  {
  }

  /** Before its delay has passed a tele-zoom neither moves nor deals damage. */
  lemma TeleportWaits(w: World, i: nat, dt: real)
    requires i < |w.units| && w.units[i].kind == TeleZoom && !w.units[i].hasTeleported
    requires w.units[i].age < Def(TeleZoom).teleportDelay
    ensures Teleport(w, i, dt) == w
  {
  }

  /**
   * On the first tick its age reaches the delay, a tele-zoom marks itself
   * teleported, jumps to three columns before the enemy wall, blasts the 3 by 3
   * area there once, and then advances.
   */
  lemma TeleportJumps(w: World, i: nat, dt: real)
    requires i < |w.units| && w.units[i].kind == TeleZoom && !w.units[i].hasTeleported
    requires w.units[i].age >= Def(TeleZoom).teleportDelay
    ensures var u := w.units[i]; var x := TeleportColumn(u.side);
      var jumped := w.units[i := u.(hasTeleported := true, x := x)];
      Teleport(w, i, dt) ==
        Moved(w.(units := Blasted(jumped, u.side, u.lane, x, Def(TeleZoom).teleportBlast)), i, Stride(u, dt))
  {
  }

  /** After teleporting, a tele-zoom only advances: the blast never repeats. */
  lemma TeleportAdvances(w: World, i: nat, dt: real)
    requires i < |w.units| && w.units[i].kind == TeleZoom && w.units[i].hasTeleported
    ensures Teleport(w, i, dt) == Moved(w, i, Stride(w.units[i], dt))
  {
  }

  /** The blast takes exactly `dmg` from each live enemy in the area and leaves every other unit as it was. */
  lemma BlastHits(us: seq<Unit>, side: Side, lane: int, x: real, dmg: real, k: nat)
    requires k < |us|
    ensures var r := Blasted(us, side, lane, x, dmg);
      (InBlast(us[k], side, lane, x) ==> r[k] == us[k].(hp := us[k].hp - dmg)) &&
      (!InBlast(us[k], side, lane, x) ==> r[k] == us[k])
  {
  }

  /**
   * The marker laser takes exactly 250 * dt from every live enemy in any
   * other lane within 0.45 columns, and leaves every other unit as it was.
   */
  lemma BurnHits(w: World, i: nat, dt: real, k: nat)
    requires i < |w.units| && w.units[i].kind == Marker && k < |w.units|
    ensures var r := Burn(w, i, dt);
      r.playerWall == w.playerWall && r.aiWall == w.aiWall &&
      (InLaser(w.units, i, k) ==> r.units[k] == w.units[k].(hp := w.units[k].hp - 250.0 * dt)) &&
      (!InLaser(w.units, i, k) ==> r.units[k] == w.units[k])
  {
  }

  // ---- The unit loop keeps the world valid ----

  /**
   * What the unit loop may do to a world: units and walls only evolve, no
   * unit is added, killed or revived, and the bookkeeping fields stay put.
   */
  ghost predicate UnitPhase(a: World, b: World) {
    Evolves(a, b) && |b.units| == |a.units| &&
    (forall k :: 0 <= k < |a.units| ==> b.units[k].alive == a.units[k].alive) &&
    b.over == a.over && b.winner == a.winner && b.nextId == a.nextId &&
    b.playerBolts == a.playerBolts && b.aiBolts == a.aiBolts &&
    b.econTimer == a.econTimer && b.aiThinkTimer == a.aiThinkTimer
  }

  lemma UnitPhaseTransitive(a: World, b: World, c: World)
    requires UnitPhase(a, b) && UnitPhase(b, c)
    ensures UnitPhase(a, c)
  {
  }

  /** A hit on a live wall keeps it valid; a hit that brings hp to 0 or below leaves exactly 0 hp and a dead wall. */
  lemma StruckWall(wall: Wall, col: int, dmg: real)
    requires WallOk(wall, col) && wall.alive && dmg >= 0.0
    ensures var r := Struck(wall, dmg);
      WallOk(r, col) && WallEvolves(wall, r) &&
      (wall.hp - dmg <= 0.0 ==> r.hp == 0.0 && !r.alive) &&
      (wall.hp - dmg > 0.0 ==> r.hp == wall.hp - dmg && r.alive)
  {
  }

  /** A world whose units and walls are each valid and whose rest is that of a valid world is valid. */
  lemma PhaseKeepsValid(a: World, b: World)
    requires Valid(a) && UnitPhase(a, b)
    requires WallOk(b.playerWall, PLAYER_WALL_COL) && WallOk(b.aiWall, AI_WALL_COL)
    requires forall k :: 0 <= k < |b.units| ==> UnitOk(b.units[k])
    ensures Valid(b)
  {
    assert Ids(b.units) == Ids(a.units) by {
      forall k | 0 <= k < |b.units| ensures Ids(b.units)[k] == Ids(a.units)[k] {
        assert UnitEvolves(a.units[k], b.units[k]);
      }
    }
  }

  lemma HitWallPhase(w: World, owner: Side, dmg: real)
    requires Valid(w) && w.WallOf(owner).alive && dmg >= 0.0
    ensures var r := HitWall(w, owner, dmg);
      Valid(r) && UnitPhase(w, r) && r.units == w.units &&
      r.WallOf(EnemySide(owner)) == w.WallOf(EnemySide(owner))
  {
    if owner == Player {
      StruckWall(w.playerWall, PLAYER_WALL_COL, dmg);
    } else {
      StruckWall(w.aiWall, AI_WALL_COL, dmg);
    }
  }

  lemma BlastedEvolves(us: seq<Unit>, side: Side, lane: int, x: real, dmg: real)
    requires dmg >= 0.0
    ensures var r := Blasted(us, side, lane, x, dmg);
      UnitsEvolve(us, r) &&
      (forall k :: 0 <= k < |us| ==> r[k].alive == us[k].alive) &&
      (forall k :: 0 <= k < |us| && UnitOk(us[k]) ==> UnitOk(r[k]))
  {
  }

  lemma LaseredEvolves(us: seq<Unit>, i: nat, dmg: real)
    requires i < |us| && dmg >= 0.0
    ensures var r := Lasered(us, i, dmg);
      UnitsEvolve(us, r) &&
      (forall k :: 0 <= k < |us| ==> r[k].alive == us[k].alive) &&
      (forall k :: 0 <= k < |us| && UnitOk(us[k]) ==> UnitOk(r[k]))
  {
  }

  /** Replacing unit `i` by an evolved, valid record of the same liveness is a unit phase of a valid world. */
  lemma ReplaceUnitPhase(w: World, i: nat, v: Unit)
    requires Valid(w) && i < |w.units|
    requires UnitEvolves(w.units[i], v) && v.alive == w.units[i].alive && UnitOk(v)
    ensures var r := w.(units := w.units[i := v]); Valid(r) && UnitPhase(w, r)
  {
    PhaseKeepsValid(w, w.(units := w.units[i := v]));
  }

  lemma StrikeUnitPhase(w: World, i: nat, j: nat, dmg: real, reload: real)
    requires Valid(w) && i < |w.units| && j < |w.units| && i != j && dmg >= 0.0 && reload >= 0.0
    ensures var r := StrikeUnit(w, i, j, dmg, reload); Valid(r) && UnitPhase(w, r)
  {
    var us := w.units[j := w.units[j].(hp := w.units[j].hp - dmg)];
    var w1 := w.(units := us);
    ReplaceUnitPhase(w, j, w.units[j].(hp := w.units[j].hp - dmg));
    ReplaceUnitPhase(w1, i, us[i].(cooldown := reload));
    UnitPhaseTransitive(w, w1, StrikeUnit(w, i, j, dmg, reload));
  }

  lemma StrikeWallPhase(w: World, i: nat, owner: Side, dmg: real, reload: real)
    requires Valid(w) && i < |w.units| && w.WallOf(owner).alive && dmg >= 0.0 && reload >= 0.0
    ensures var r := StrikeWall(w, i, owner, dmg, reload); Valid(r) && UnitPhase(w, r)
  {
    HitWallPhase(w, owner, dmg);
    var w1 := HitWall(w, owner, dmg);
    ReplaceUnitPhase(w1, i, w.units[i].(cooldown := reload));
    UnitPhaseTransitive(w, w1, StrikeWall(w, i, owner, dmg, reload));
  }

  lemma MovedPhase(w: World, i: nat, dx: real)
    requires Valid(w) && i < |w.units|
    ensures var r := Moved(w, i, dx); Valid(r) && UnitPhase(w, r)
  {
    ReplaceUnitPhase(w, i, w.units[i].(x := w.units[i].x + dx));
  }

  lemma WalkPhase(w: World, i: nat, dt: real)
    requires Valid(w) && i < |w.units| && IsWalker(w.units[i].kind)
    ensures var r := Walk(w, i, dt); Valid(r) && UnitPhase(w, r)
  {
    var u := w.units[i];
    var foe := w.WallOf(EnemySide(u.side));
    if Nearest(w.units, i, Melee).Some? {
      WalkEngagedPhase(w, i, dt);
    } else if foe.alive && 0.0 < Ahead(u, foe.col as real) <= 1.0 {
      WalkAtWallPhase(w, i, dt);
    } else {
      WalkAdvancePhase(w, i, dt);
    }
  }

  lemma WalkAdvancePhase(w: World, i: nat, dt: real)
    requires Valid(w) && i < |w.units| && IsWalker(w.units[i].kind) && Nearest(w.units, i, Melee).None?
    requires var u := w.units[i]; var foe := w.WallOf(EnemySide(u.side));
      !(foe.alive && 0.0 < Ahead(u, foe.col as real) <= 1.0)
    ensures var r := Walk(w, i, dt); Valid(r) && UnitPhase(w, r)
  {
    var u := w.units[i];
    WalkAdvances(w, i, dt);
    MovedPhase(w, i, Stride(u, dt));
  }

  lemma WalkEngagedPhase(w: World, i: nat, dt: real)
    requires Valid(w) && i < |w.units| && IsWalker(w.units[i].kind) && Nearest(w.units, i, Melee).Some?
    ensures var r := Walk(w, i, dt); Valid(r) && UnitPhase(w, r)
  {
    var u := w.units[i];
    WalkEngaged(w, i, dt);
    if u.cooldown <= 0.0 {
      StrikeUnitPhase(w, i, Nearest(w.units, i, Melee).value, Def(u.kind).damage, Reload(u.kind));
    }
  }

  lemma WalkAtWallPhase(w: World, i: nat, dt: real)
    requires Valid(w) && i < |w.units| && IsWalker(w.units[i].kind) && Nearest(w.units, i, Melee).None?
    requires var u := w.units[i]; var foe := w.WallOf(EnemySide(u.side));
      foe.alive && 0.0 < Ahead(u, foe.col as real) <= 1.0
    ensures var r := Walk(w, i, dt); Valid(r) && UnitPhase(w, r)
  {
    var u := w.units[i];
    WalkAtWall(w, i, dt);
    if u.cooldown <= 0.0 {
      StrikeWallPhase(w, i, EnemySide(u.side), Def(u.kind).damage, Reload(u.kind));
    }
  }

  lemma ShootPhase(w: World, i: nat)
    requires Valid(w) && i < |w.units| && w.units[i].kind == Ranger
    ensures var r := Shoot(w, i); Valid(r) && UnitPhase(w, r)
  {
    var u := w.units[i];
    var t := Nearest(w.units, i, Ranged);
    if u.cooldown > 0.0 {
      ShootReloading(w, i);
    } else if t.Some? {
      ShootUnit(w, i);
      StrikeUnitPhase(w, i, t.value, Def(Ranger).damage, Reload(Ranger));
    } else {
      ShootWall(w, i);
      if w.WallOf(EnemySide(u.side)).alive {
        StrikeWallPhase(w, i, EnemySide(u.side), Def(Ranger).damage, Reload(Ranger));
      }
    }
  }

  lemma BurnPhase(w: World, i: nat, dt: real)
    requires Valid(w) && i < |w.units| && w.units[i].kind == Marker && dt >= 0.0
    ensures var r := Burn(w, i, dt); Valid(r) && UnitPhase(w, r)
  {
    LaseredEvolves(w.units, i, LaserDamage(dt));
    PhaseKeepsValid(w, Burn(w, i, dt));
  }

  lemma TeleportPhase(w: World, i: nat, dt: real)
    requires Valid(w) && i < |w.units| && w.units[i].kind == TeleZoom
    ensures var r := Teleport(w, i, dt); Valid(r) && UnitPhase(w, r)
  {
    var u := w.units[i];
    var dx := Stride(u, dt);
    if u.hasTeleported {
      TeleportAdvances(w, i, dt);
      MovedPhase(w, i, dx);
    } else if u.age < Def(TeleZoom).teleportDelay {
      TeleportWaits(w, i, dt);
    } else {
      TeleportJumps(w, i, dt);
      var x := TeleportColumn(u.side);
      var w0 := w.(units := w.units[i := u.(hasTeleported := true, x := x)]);
      ReplaceUnitPhase(w, i, u.(hasTeleported := true, x := x));
      BlastedEvolves(w0.units, u.side, u.lane, x, Def(TeleZoom).teleportBlast);
      var w1 := w.(units := Blasted(w0.units, u.side, u.lane, x, Def(TeleZoom).teleportBlast));
      PhaseKeepsValid(w0, w1);
      UnitPhaseTransitive(w, w0, w1);
      MovedPhase(w1, i, dx);
      UnitPhaseTransitive(w, w1, Moved(w1, i, dx));
    }
  }

  lemma ActPhase(w: World, i: nat, dt: real)
    requires Valid(w) && i < |w.units| && dt >= 0.0
    ensures var r := Act(w, i, dt); Valid(r) && UnitPhase(w, r)
  {
    match w.units[i].kind
    case Walker => WalkPhase(w, i, dt);
    case MiniWalker => WalkPhase(w, i, dt);
    case Ranger => ShootPhase(w, i);
    case Marker => BurnPhase(w, i, dt);
    case TeleZoom => TeleportPhase(w, i, dt);
  }

  /** One iteration of the unit loop keeps the world valid and is a unit phase. */
  lemma StepUnitPhase(w: World, i: nat, dt: real)
    requires Valid(w) && i < |w.units| && dt >= 0.0
    ensures var r := StepUnit(w, i, dt); Valid(r) && UnitPhase(w, r)
  {
    if w.units[i].alive {
      var u := w.units[i];
      ReplaceUnitPhase(w, i, u.(age := u.age + dt, cooldown := Max(0.0, u.cooldown - dt)));
      var w1 := Aged(w, i, dt);
      ActPhase(w1, i, dt);
      UnitPhaseTransitive(w, w1, Act(w1, i, dt));
    }
  }

  /** `b` is a valid world that `a` reaches by a unit phase. */
  ghost predicate ValidPhase(a: World, b: World) {
    Valid(b) && UnitPhase(a, b)
  }

  lemma ValidPhaseTransitive(a: World, b: World, c: World)
    requires ValidPhase(a, b) && ValidPhase(b, c)
    ensures ValidPhase(a, c)
  {
    UnitPhaseTransitive(a, b, c);
  }

  /** One more iteration of the unit loop extends a valid phase. */
  lemma StepUnitsExtend(w: World, dt: real, n: nat)
    requires 0 < n <= |w.units| && dt >= 0.0 && ValidPhase(w, StepUnits(w, dt, n - 1))
    ensures ValidPhase(w, StepUnits(w, dt, n))
  {
    var m := StepUnits(w, dt, n - 1);
    StepUnitPhase(m, n - 1, dt);
    ValidPhaseTransitive(w, m, StepUnit(m, n - 1, dt));
  }

  /**
   * The whole unit loop keeps the world valid, never revives or kills a unit,
   * never revives a wall and never raises any hp.
   */
  lemma {:induction false} StepUnitsPhase(w: World, dt: real, n: nat)
    requires Valid(w) && n <= |w.units| && dt >= 0.0
    ensures ValidPhase(w, StepUnits(w, dt, n))
  {
    if n > 0 {
      StepUnitsPhase(w, dt, n - 1);
      StepUnitsExtend(w, dt, n);
    }
  }
}
