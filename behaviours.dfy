/**
 * What one live unit does in one tick (`updateWalker`, `updateRanger`,
 * `updateMarker`, `updateTeleZoom` and the dispatch in `update`), as
 * functions from the world before the action to the world after it.
 */
module Behaviours {
  import opened Options
  import opened Catalog
  import opened Arena
  import opened Targeting

  function Max(a: real, b: real): real {
    if a < b then b else a
  }

  /** An enemy of `side` inside the 3 by 3 area around (`lane`, `x`), each axis checked on its own. */
  predicate InBlast(e: Unit, side: Side, lane: int, x: real) {
    e.alive && e.side != side && -1 <= e.lane - lane <= 1 && Abs(e.x - x) <= 1.0
  }

  /** Every unit in the blast area loses `dmg` hp; nothing else changes. */
  function Blasted(us: seq<Unit>, side: Side, lane: int, x: real, dmg: real): (r: seq<Unit>)
    ensures |r| == |us|
  {
    seq(|us|, k requires 0 <= k < |us| =>
      if InBlast(us[k], side, lane, x) then us[k].(hp := us[k].hp - dmg) else us[k])
  }

  /** Unit `k` is burnt by the laser of marker `i`: a live enemy in ANY other lane within 0.45 columns. */
  predicate InLaser(us: seq<Unit>, i: nat, k: nat)
    requires i < |us| && k < |us|
  {
    us[k].alive && us[k].side != us[i].side && us[k].lane != us[i].lane && Abs(us[k].x - us[i].x) <= 0.45
  }

  function Lasered(us: seq<Unit>, i: nat, dmg: real): (r: seq<Unit>)
    requires i < |us|
    ensures |r| == |us|
  {
    seq(|us|, k requires 0 <= k < |us| =>
      if InLaser(us, i, k) then us[k].(hp := us[k].hp - dmg) else us[k])
  }

  /** A hit of `dmg` on a wall; a hit that brings hp to 0 or below clamps it to 0 and destroys the wall. */
  function Struck(wall: Wall, dmg: real): (r: Wall)
    ensures r.col == wall.col && (r.alive ==> wall.alive)
    ensures wall.hp - dmg <= 0.0 <==> r.hp == 0.0 && !r.alive
    ensures wall.hp - dmg > 0.0 ==> r.hp == wall.hp - dmg
  {
    var hp := wall.hp - dmg;
    if hp <= 0.0 then wall.(hp := 0.0, alive := false) else wall.(hp := hp)
  }

  /** Strikes the wall that belongs to `owner`. */
  function HitWall(w: World, owner: Side, dmg: real): (r: World)
    ensures r == w.(playerWall := r.playerWall, aiWall := r.aiWall)
    ensures r.WallOf(owner) == Struck(w.WallOf(owner), dmg)
    ensures r.WallOf(EnemySide(owner)) == w.WallOf(EnemySide(owner))
  {
    if owner == Player then w.(playerWall := Struck(w.playerWall, dmg))
    else w.(aiWall := Struck(w.aiWall, dmg))
  }

  /** Unit `j` loses `dmg` hp and unit `i` reloads for `reload` seconds. */
  function StrikeUnit(w: World, i: nat, j: nat, dmg: real, reload: real): (r: World)
    requires i < |w.units| && j < |w.units|
    ensures |r.units| == |w.units|
  {
    var us := w.units[j := w.units[j].(hp := w.units[j].hp - dmg)];
    w.(units := us[i := us[i].(cooldown := reload)])
  }

  /** The wall of `owner` is struck for `dmg` and unit `i` reloads for `reload` seconds. */
  function StrikeWall(w: World, i: nat, owner: Side, dmg: real, reload: real): (r: World)
    requires i < |w.units|
    ensures |r.units| == |w.units|
  {
    HitWall(w, owner, dmg).(units := w.units[i := w.units[i].(cooldown := reload)])
  }

  /** Unit `i` moves by `dx` columns. */
  function Moved(w: World, i: nat, dx: real): (r: World)
    requires i < |w.units|
    ensures |r.units| == |w.units|
  {
    w.(units := w.units[i := w.units[i].(x := w.units[i].x + dx)])
  }

  /** Signed distance a moving unit covers in `dt` seconds: its speed, towards the enemy wall. */
  function Stride(u: Unit, dt: real): real {
    Dir(u.side) * Def(u.kind).speed * dt
  }

  predicate IsWalker(k: UnitType) {
    k == Walker || k == MiniWalker
  }

  /** Seconds a striking unit waits after a strike: the inverse of its attack rate. */
  function Reload(k: UnitType): (r: real)
    requires k == Walker || k == MiniWalker || k == Ranger
    ensures r > 0.0 && r * Def(k).attackRate == 1.0
  {
    1.0 / Def(k).attackRate
  }

  /** Column a tele-zoom jumps to: three columns in front of the enemy wall. */
  function TeleportColumn(s: Side): real {
    if s == Player then (AI_WALL_COL - 3) as real else (PLAYER_WALL_COL + 3) as real
  }

  /** `updateWalker`. */
  function Walk(w: World, i: nat, dt: real): (r: World)
    requires i < |w.units| && IsWalker(w.units[i].kind)
    ensures |r.units| == |w.units|
  {
    var u := w.units[i];
    var def := Def(u.kind);
    var foe := w.WallOf(EnemySide(u.side));
    var wallDist := Ahead(u, foe.col as real);
    match Nearest(w.units, i, Melee)
    case Some(j) =>
      if u.cooldown <= 0.0 then StrikeUnit(w, i, j, def.damage, Reload(u.kind)) else w
    case None =>
      if foe.alive && 0.0 < wallDist <= 1.0 then
        if u.cooldown <= 0.0 then StrikeWall(w, i, EnemySide(u.side), def.damage, Reload(u.kind)) else w
      else if !foe.alive || (u.side == Player && u.x < foe.col as real - 1.0)
              || (u.side == Ai && u.x > foe.col as real + 1.0) then
        Moved(w, i, Stride(u, dt))
      else w
  }

  /** `updateRanger`. */
  function Shoot(w: World, i: nat): (r: World)
    requires i < |w.units| && w.units[i].kind == Ranger
    ensures |r.units| == |w.units|
  {
    var u := w.units[i];
    var def := Def(u.kind);
    if u.cooldown > 0.0 then w
    else
      match Nearest(w.units, i, Ranged)
      case Some(j) => StrikeUnit(w, i, j, def.damage, Reload(u.kind))
      case None =>
        if w.WallOf(EnemySide(u.side)).alive then StrikeWall(w, i, EnemySide(u.side), def.damage, Reload(u.kind))
        else w
  }

  /** Hp a marker's laser takes from each target in `dt` seconds: laserDps * dt. */
  function LaserDamage(dt: real): (d: real)
    ensures dt >= 0.0 ==> d >= 0.0
  {
    Def(Marker).laserDps * dt
  }

  /** `updateMarker`. */
  function Burn(w: World, i: nat, dt: real): (r: World)
    requires i < |w.units| && w.units[i].kind == Marker
    ensures |r.units| == |w.units|
  {
    w.(units := Lasered(w.units, i, LaserDamage(dt)))
  }

  /** `updateTeleZoom`. */
  function Teleport(w: World, i: nat, dt: real): (r: World)
    requires i < |w.units| && w.units[i].kind == TeleZoom
    ensures |r.units| == |w.units|
  {
    var u := w.units[i];
    var def := Def(u.kind);
    var dx := Stride(u, dt);
    if u.hasTeleported then Moved(w, i, dx)
    else if u.age < def.teleportDelay then w
    else
      var x := TeleportColumn(u.side);
      var jumped := w.units[i := u.(hasTeleported := true, x := x)];
      Moved(w.(units := Blasted(jumped, u.side, u.lane, x, def.teleportBlast)), i, dx)
  }

  /** Unit `i` ages by `dt` and its cooldown runs down by `dt`, floored at 0. */
  function Aged(w: World, i: nat, dt: real): (r: World)
    requires i < |w.units|
    ensures |r.units| == |w.units|
  {
    var u := w.units[i];
    w.(units := w.units[i := u.(age := u.age + dt, cooldown := Max(0.0, u.cooldown - dt))])
  }

  /** Dispatch on the kind of unit `i`. */
  function Act(w: World, i: nat, dt: real): (r: World)
    requires i < |w.units|
    ensures |r.units| == |w.units|
  {
    match w.units[i].kind
    case Walker => Walk(w, i, dt)
    case MiniWalker => Walk(w, i, dt)
    case Ranger => Shoot(w, i)
    case Marker => Burn(w, i, dt)
    case TeleZoom => Teleport(w, i, dt)
  }

  /** One iteration of the unit loop of `update`: a dead unit is skipped, a live one ages and acts. */
  function StepUnit(w: World, i: nat, dt: real): (r: World)
    requires i < |w.units|
    ensures |r.units| == |w.units|
    ensures !w.units[i].alive ==> r == w
  {
    if !w.units[i].alive then w else Act(Aged(w, i, dt), i, dt)
  }

  /** The unit loop run over the first `n` units, in list order. */
  function StepUnits(w: World, dt: real, n: nat): (r: World)
    requires n <= |w.units|
    ensures |r.units| == |w.units|
  {
    if n == 0 then w else StepUnit(StepUnits(w, dt, n - 1), n - 1, dt)
  }
}
