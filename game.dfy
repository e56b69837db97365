/**
 * The mutable game state of script.js and the functions that update it in
 * place. Each method is proved to leave exactly the world its specification
 * function computes from the world before the call.
 */
module RobotRoyale {
  import opened Options
  import opened Catalog
  import opened Arena
  import opened Placement
  import opened Targeting
  import opened Behaviours
  import opened Resolution
  import opened Policy
  import opened Simulation

  /** The `state` record: the match outcome, the unit list, both economies, both timers and both walls. */
  class Game {
    var over: bool
    var winner: Option<Side>
    var units: seq<Unit>
    var nextId: nat
    var playerBolts: int
    var aiBolts: int
    var econTimer: real
    var aiThinkTimer: real
    var playerWall: Wall
    var aiWall: Wall

    /** The current state as a value. */
    function State(): World
      reads this
    {
      World(over, winner, units, nextId, playerBolts, aiBolts, econTimer, aiThinkTimer, playerWall, aiWall)
    }

    ghost predicate Valid()
      reads this
    {
      Arena.Valid(State())
    }

    /** The state at page load: a `reset` match. */
    constructor ()
      ensures State() == InitialWorld() && Valid()
    {
      over := false;
      winner := None;
      units := [];
      nextId := 1;
      playerBolts := START_BOLTS;
      aiBolts := START_BOLTS;
      econTimer := 0.0;
      aiThinkTimer := 0.0;
      playerWall := FreshWall(PLAYER_WALL_COL);
      aiWall := FreshWall(AI_WALL_COL);
    }

    /** `reset`: a fresh match, whatever came before. */
    method Reset()
      modifies this
      ensures State() == InitialWorld() && Valid()
    {
      over := false;
      winner := None;
      units := [];
      nextId := 1;
      playerBolts := START_BOLTS;
      aiBolts := START_BOLTS;
      econTimer := 0.0;
      aiThinkTimer := 0.0;
      playerWall := FreshWall(PLAYER_WALL_COL);
      aiWall := FreshWall(AI_WALL_COL);
    }

    /** `makeUnit`: a fresh unit record carrying the next id, which is consumed. */
    method MakeUnit(kind: UnitType, side: Side, lane: int, col: int) returns (u: Unit)
      modifies this
      ensures u == NewUnit(old(nextId), kind, side, lane, col)
      ensures State() == old(State()).(nextId := old(nextId) + 1)
    {
      var def := Def(kind);
      u := Unit(nextId, kind, side, lane, col as real, def.hp, def.hp, 0.0, true, 0.0, false);
      nextId := nextId + 1;
    }

    /** `placeUnit`. */
    method PlaceUnit(side: Side, name: string, lane: int, col: int) returns (ok: bool)
      modifies this
      ensures (State(), ok) == Place(old(State()), side, name, lane, col)
      ensures old(Valid()) ==> Valid()
    {
      if Valid() {
        PlacePreservesValid(State(), side, name, lane, col);
      }
      var kind := TypeNamed(name);
      if kind.None? || !CanPlace(units, side, lane, col) {
        return false;
      }
      var def := Def(kind.value);
      if side == Player {
        if playerBolts < def.cost {
          return false;
        }
        playerBolts := playerBolts - def.cost;
      } else {
        if aiBolts < def.cost {
          return false;
        }
        aiBolts := aiBolts - def.cost;
      }
      var u := MakeUnit(kind.value, side, lane, col);
      units := units + [u];
      ok := true;
    }

    /** A hit of `dmg` on the wall of `owner`, clamped to 0 hp with the wall destroyed when it falls that far. */
    method DamageWall(owner: Side, dmg: real)
      modifies this
      ensures State() == HitWall(old(State()), owner, dmg)
    {
      var wall := if owner == Player then playerWall else aiWall;
      wall := wall.(hp := wall.hp - dmg);
      if wall.hp <= 0.0 {
        wall := wall.(hp := 0.0, alive := false);
      }
      if owner == Player {
        playerWall := wall;
      } else {
        aiWall := wall;
      }
    }

    /** The area blast shared by the tele-zoom landing and the marker death: every live enemy of `side` within the 3 by 3 area loses `dmg`. */
    method ApplyBlast(side: Side, lane: int, x: real, dmg: real)
      modifies this
      ensures State() == old(State()).(units := Blasted(old(units), side, lane, x, dmg))
    {
      ghost var us := units;
      var k := 0;
      while k < |units|
        invariant 0 <= k <= |units| == |us|
        invariant forall m :: 0 <= m < k ==>
          units[m] == if InBlast(us[m], side, lane, x) then us[m].(hp := us[m].hp - dmg) else us[m]
        invariant forall m :: k <= m < |us| ==> units[m] == us[m]
        invariant State() == old(State()).(units := units)
      {
        var e := units[k];
        if InBlast(e, side, lane, x) {
          units := units[k := e.(hp := e.hp - dmg)];
        }
        k := k + 1;
      }
      assert units == Blasted(us, side, lane, x, dmg);
    }

    /** `updateWalker` for unit `i`. */
    method UpdateWalker(i: nat, dt: real)
      requires i < |units| && IsWalker(units[i].kind)
      modifies this
      ensures State() == Walk(old(State()), i, dt)
    {
      var u := units[i];
      var def := Def(u.kind);
      var front := FindTarget(units, i, Melee);
      if front.Some? {
        if u.cooldown <= 0.0 {
          var j := front.value;
          units := units[j := units[j].(hp := units[j].hp - def.damage)];
          units := units[i := units[i].(cooldown := Reload(u.kind))];
        }
        return;
      }
      var owner := EnemySide(u.side);
      var foe := State().WallOf(owner);
      var wallDist := Ahead(u, foe.col as real);
      if foe.alive && 0.0 < wallDist <= 1.0 {
        if u.cooldown <= 0.0 {
          DamageWall(owner, def.damage);
          units := units[i := units[i].(cooldown := Reload(u.kind))];
        }
        return;
      }
      if foe.alive {
        if (u.side == Player && u.x < foe.col as real - 1.0) || (u.side == Ai && u.x > foe.col as real + 1.0) {
          units := units[i := u.(x := u.x + Stride(u, dt))];
        }
      } else {
        units := units[i := u.(x := u.x + Stride(u, dt))];
      }
    }

    /** `updateTeleZoom` for unit `i`. */
    method UpdateTeleZoom(i: nat, dt: real)
      requires i < |units| && units[i].kind == TeleZoom
      modifies this
      ensures State() == Teleport(old(State()), i, dt)
    {
      var u := units[i];
      var def := Def(u.kind);
      if !u.hasTeleported {
        if u.age < def.teleportDelay {
          return;
        }
        var x := TeleportColumn(u.side);
        units := units[i := u.(hasTeleported := true, x := x)];
        ApplyBlast(u.side, u.lane, x, def.teleportBlast);
      }
      units := units[i := units[i].(x := units[i].x + Stride(u, dt))];
    }

    /** `updateRanger` for unit `i`. */
    method UpdateRanger(i: nat)
      requires i < |units| && units[i].kind == Ranger
      modifies this
      ensures State() == Shoot(old(State()), i)
    {
      var u := units[i];
      if u.cooldown > 0.0 {
        return;
      }
      var def := Def(u.kind);
      var target := FindTarget(units, i, Ranged);
      if target.Some? {
        var j := target.value;
        units := units[j := units[j].(hp := units[j].hp - def.damage)];
        units := units[i := units[i].(cooldown := Reload(u.kind))];
        return;
      }
      var owner := EnemySide(u.side);
      if State().WallOf(owner).alive {
        DamageWall(owner, def.damage);
        units := units[i := units[i].(cooldown := Reload(u.kind))];
      }
    }

    /** `updateMarker` for unit `i`: the targets are chosen first, then each is burnt. */
    method UpdateMarker(i: nat, dt: real)
      requires i < |units| && units[i].kind == Marker
      modifies this
      ensures State() == Burn(old(State()), i, dt)
    {
      var us := units;
      var dmg := LaserDamage(dt);
      var k := 0;
      while k < |us|
        invariant 0 <= k <= |us| == |units|
        invariant forall m :: 0 <= m < k ==>
          units[m] == if InLaser(us, i, m) then us[m].(hp := us[m].hp - dmg) else us[m]
        invariant forall m :: k <= m < |us| ==> units[m] == us[m]
        invariant State() == old(State()).(units := units)
      {
        if InLaser(us, i, k) {
          units := units[k := units[k].(hp := units[k].hp - dmg)];
        }
        k := k + 1;
      }
      assert units == Lasered(us, i, dmg);
    }

    /** `resolveDeaths`. */
    method ResolveDeaths()
      modifies this
      ensures State() == old(State()).(units := Resolution.ResolveDeaths(old(units)))
    {
      ghost var us := units;
      var k := 0;
      while k < |units|
        invariant 0 <= k <= |units| == |us|
        invariant units == ResolvedUpTo(us, k)
        invariant State() == old(State()).(units := units)
      {
        var u := units[k];
        if u.alive && u.hp <= 0.0 {
          units := units[k := u.(alive := false)];
          if u.kind == Marker {
            ApplyBlast(u.side, u.lane, u.x, Def(Marker).deathExplosion);
          }
        }
        k := k + 1;
      }
    }

    /** `checkWin`. */
    method CheckWin()
      modifies this
      ensures State() == Resolution.CheckWin(old(State()))
    {
      ghost var w := State();
      var k := 0;
      while k < |units|
        invariant 0 <= k <= |w.units|
        invariant State() == CheckWinUpTo(w, k)
      {
        CheckWinUpToShape(w, k);
        var u := units[k];
        if u.alive && CanCross(u.kind) {
          if u.side == Player && !aiWall.alive && u.x >= COLS as real - 0.05 {
            over := true;
            winner := Some(Player);
          }
          if u.side == Ai && !playerWall.alive && u.x <= -0.05 {
            over := true;
            winner := Some(Ai);
          }
        }
        k := k + 1;
      }
      CheckWinUpToShape(w, k);
    }

    /** `aiAct`, with its random draws given as `d`. */
    method AiAct(d: Draws)
      requires Valid()
      modifies this
      ensures State() == AiStep(old(State()), d)
    {
      if over {
        return;
      }
      var threats := CountThreats(units);
      var danger := FirstMax(threats);
      if threats[danger] > 0 && aiBolts >= 125 {
        var col := DefenderCol(d);
        if CanPlace(units, Ai, danger, col) {
          var placed := PlaceUnit(Ai, Name(DefenderKind(d)), danger, col);
          return;
        }
      }
      if aiBolts >= 50 {
        var kind := if aiBolts >= Def(Walker).cost then (if d.miniPick < 0.35 then MiniWalker else Walker) else MiniWalker;
        var placed := PlaceUnit(Ai, Name(kind), AttackerLane(d), 14);
      }
    }

    /** One pass of the unit loop of `update`: a dead unit is skipped, a live one ages and acts by its kind. */
    method UpdateUnit(k: nat, dt: real)
      requires k < |units|
      modifies this
      ensures State() == StepUnit(old(State()), k, dt)
    {
      var u := units[k];
      if u.alive {
        units := units[k := u.(age := u.age + dt, cooldown := Max(0.0, u.cooldown - dt))];
        assert State() == Aged(old(State()), k, dt);
        match u.kind
        case Walker => UpdateWalker(k, dt);
        case MiniWalker => UpdateWalker(k, dt);
        case Ranger => UpdateRanger(k);
        case Marker => UpdateMarker(k, dt);
        case TeleZoom => UpdateTeleZoom(k, dt);
      }
    }

    /** The unit loop of `update`, over the list in order. */
    method UpdateUnits(dt: real)
      modifies this
      ensures State() == StepUnits(old(State()), dt, |old(units)|)
    {
      ghost var w := State();
      var k := 0;
      while k < |units|
        invariant 0 <= k <= |units| == |w.units|
        invariant State() == StepUnits(w, dt, k)
      {
        UpdateUnit(k, dt);
        k := k + 1;
      }
    }

    /** The clocks of `update`: the economy pays out when its timer reaches ECON_TICK, and the policy acts when its timer reaches AI_THINK_PERIOD. */
    method AdvanceClocks(dt: real, d: Draws)
      requires Valid() && 0.0 <= dt <= MAX_DT
      modifies this
      ensures State() == Think(Regenerate(old(State()), dt), dt, d)
    {
      ghost var w0 := State();
      RegenerateFacts(w0, dt);
      econTimer := econTimer + dt;
      aiThinkTimer := aiThinkTimer + dt;
      if econTimer >= ECON_TICK {
        econTimer := econTimer - ECON_TICK;
        playerBolts := Min(BOLT_CAP, playerBolts + ECON_GAIN);
        aiBolts := Min(BOLT_CAP, aiBolts + ECON_GAIN);
      }
      assert State() == Regenerate(w0, dt).(aiThinkTimer := w0.aiThinkTimer + dt);
      if aiThinkTimer >= AI_THINK_PERIOD {
        aiThinkTimer := 0.0;
        AiAct(d);
      }
    }

    /** `update(dt)` with the simulation only; the frame loop never passes more than MAX_DT. */
    method Update(dt: real, d: Draws)
      requires Valid() && 0.0 <= dt <= MAX_DT
      modifies this
      ensures State() == Tick(old(State()), dt, d) && Valid()
    {
      TickPreservesValid(State(), dt, d);
      if over {
        return;
      }
      AdvanceClocks(dt, d);
      UpdateUnits(dt);
      ResolveDeaths();
      CheckWin();
    }
  }
}
