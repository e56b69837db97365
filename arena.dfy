/**
 * The world of one match (the `state` record of script.js): the board
 * constants, the two sides, unit and wall records, and the invariants every
 * reachable world satisfies.
 */
module Arena {
  import opened Options
  import opened Catalog

  const LANES: int := 5
  const COLS: int := 16
  const HALF: int := 8
  const PLAYER_WALL_COL: int := 0
  const AI_WALL_COL: int := COLS - 1
  const MAX_WALL_HP: real := 2500.0
  const BOLT_CAP: int := 600
  const START_BOLTS: int := 200
  const ECON_TICK: real := 4.0
  const ECON_GAIN: int := 50
  /** Period of the opponent policy, in seconds. */
  const AI_THINK_PERIOD: real := 1.8
  /** Largest time step the frame loop ever passes to the simulation. */
  const MAX_DT: real := 0.1

  datatype Side = Player | Ai

  function EnemySide(s: Side): (e: Side)
    ensures e != s
  {
    if s == Player then Ai else Player
  }

  /** Direction of advance along a lane: the player moves right, the ai left. */
  function Dir(s: Side): real {
    if s == Player then 1.0 else -1.0
  }

  function Abs(r: real): real {
    if r < 0.0 then -r else r
  }

  /** One unit instance. `x` is the continuous column; hp is never clamped. */
  datatype Unit = Unit(
    id: nat,
    kind: UnitType,
    side: Side,
    lane: int,
    x: real,
    hp: real,
    maxHp: real,
    cooldown: real,
    alive: bool,
    age: real,
    hasTeleported: bool)

  datatype Wall = Wall(hp: real, alive: bool, col: int)

  datatype World = World(
    over: bool,
    winner: Option<Side>,
    units: seq<Unit>,
    nextId: nat,
    playerBolts: int,
    aiBolts: int,
    econTimer: real,
    aiThinkTimer: real,
    playerWall: Wall,
    aiWall: Wall)
  {
    function Bolts(s: Side): int {
      if s == Player then playerBolts else aiBolts
    }

    function WallOf(s: Side): Wall {
      if s == Player then playerWall else aiWall
    }
  }

  /** A fresh wall at column `col`. */
  function FreshWall(col: int): Wall {
    Wall(MAX_WALL_HP, true, col)
  }

  /** The world `reset` establishes. */
  function InitialWorld(): (w: World)
    ensures Valid(w)
    ensures !w.over && w.units == [] && w.playerWall.alive && w.aiWall.alive
  {
    World(false, None, [], 1, START_BOLTS, START_BOLTS, 0.0, 0.0,
          FreshWall(PLAYER_WALL_COL), FreshWall(AI_WALL_COL))
  }

  ghost predicate UnitOk(u: Unit) {
    0 <= u.lane < LANES &&
    u.hp <= u.maxHp &&
    u.cooldown >= 0.0 && u.age >= 0.0 &&
    (u.hasTeleported ==> u.kind == TeleZoom)
  }

  /** A wall is alive exactly while its hp is positive, and its hp never leaves [0, MAX_WALL_HP]. */
  ghost predicate WallOk(wall: Wall, col: int) {
    wall.col == col && 0.0 <= wall.hp <= MAX_WALL_HP && (wall.alive <==> wall.hp > 0.0)
  }

  /** The ids of a unit list, in list order. */
  function Ids(us: seq<Unit>): (ids: seq<nat>)
    ensures |ids| == |us|
  {
    seq(|us|, k requires 0 <= k < |us| => us[k].id)
  }

  /** Ids are strictly increasing along the unit list and all below `nextId`. */
  ghost predicate IdsIncreasing(us: seq<Unit>, nextId: nat) {
    var ids := Ids(us);
    (forall j, k :: 0 <= j < k < |ids| ==> ids[j] < ids[k]) &&
    (forall k :: 0 <= k < |ids| ==> ids[k] < nextId)
  }

  ghost predicate Valid(w: World) {
    0 <= w.playerBolts <= BOLT_CAP && 0 <= w.aiBolts <= BOLT_CAP &&
    0.0 <= w.econTimer < ECON_TICK && 0.0 <= w.aiThinkTimer < AI_THINK_PERIOD &&
    WallOk(w.playerWall, PLAYER_WALL_COL) && WallOk(w.aiWall, AI_WALL_COL) &&
    (w.over <==> w.winner.Some?) &&
    w.nextId >= 1 && IdsIncreasing(w.units, w.nextId) &&
    forall k :: 0 <= k < |w.units| ==> UnitOk(w.units[k])
  }

  /**
   * How one unit record may change during a tick: identity, kind, side, lane
   * and maximum hp are fixed, hp never rises, a dead unit stays dead and a
   * tele-zoom that has teleported stays teleported.
   */
  ghost predicate UnitEvolves(a: Unit, b: Unit) {
    b.id == a.id && b.kind == a.kind && b.side == a.side && b.lane == a.lane &&
    b.maxHp == a.maxHp && b.hp <= a.hp && (b.alive ==> a.alive) &&
    (a.hasTeleported ==> b.hasTeleported)
  }

  /** A wall keeps its column, never regains hp and is never revived. */
  ghost predicate WallEvolves(a: Wall, b: Wall) {
    b.col == a.col && b.hp <= a.hp && (b.alive ==> a.alive)
  }

  /** Units are tombstoned, never removed: every old record persists in place and evolves. */
  ghost predicate UnitsEvolve(a: seq<Unit>, b: seq<Unit>) {
    |a| <= |b| && forall k :: 0 <= k < |a| ==> UnitEvolves(a[k], b[k])
  }

  ghost predicate Evolves(a: World, b: World) {
    UnitsEvolve(a.units, b.units) &&
    WallEvolves(a.playerWall, b.playerWall) && WallEvolves(a.aiWall, b.aiWall) &&
    a.nextId <= b.nextId && (a.over ==> b.over)
  }

  /** Evolution composes, so a whole tick evolves when each of its phases does. */
  lemma EvolvesTransitive(a: World, b: World, c: World)
    requires Evolves(a, b) && Evolves(b, c)
    ensures Evolves(a, c)
  {
  }
}
