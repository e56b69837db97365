/** The placement gate: `canPlace`, `makeUnit` and `placeUnit` of script.js. */
module Placement {
  import opened Options
  import opened Catalog
  import opened Arena

  /** A unit that keeps column `col` of `lane` occupied: alive and closer than 0.7 columns. */
  predicate Blocks(u: Unit, lane: int, col: int) {
    u.alive && u.lane == lane && Abs(u.x - col as real) < 0.7
  }

  /** Whether some unit of either side blocks the cell; scans the list front to back. */
  function Occupied(us: seq<Unit>, lane: int, col: int): (b: bool)
    ensures b <==> exists k :: 0 <= k < |us| && Blocks(us[k], lane, col)
  {
    if us == [] then false
    else
      var rest := Occupied(us[1..], lane, col);
      assert forall k :: 1 <= k < |us| ==> us[1..][k - 1] == us[k];
      Blocks(us[0], lane, col) || rest
  }

  /** Whether `side` may place a unit at (`lane`, `col`): on the board, on its own half, and unoccupied. */
  function CanPlace(us: seq<Unit>, side: Side, lane: int, col: int): (ok: bool)
    ensures ok <==>
      0 <= lane < LANES && 0 <= col < COLS &&
      (side == Player ==> col < HALF) && (side == Ai ==> col >= HALF) &&
      forall k :: 0 <= k < |us| ==> !Blocks(us[k], lane, col)
  {
    if lane < 0 || lane >= LANES || col < 0 || col >= COLS then false
    else if side == Player && col >= HALF then false
    else if side == Ai && col < HALF then false
    else !Occupied(us, lane, col)
  }

  /** `makeUnit`: a live, unteleported unit at full hp with no cooldown and no age. */
  function NewUnit(id: nat, kind: UnitType, side: Side, lane: int, col: int): (u: Unit)
    ensures u.alive && !u.hasTeleported && 0.0 < u.hp == u.maxHp && u.cooldown == 0.0 && u.age == 0.0
    ensures 0 <= lane < LANES ==> UnitOk(u)
  {
    Unit(id, kind, side, lane, col as real, Def(kind).hp, Def(kind).hp, 0.0, true, 0.0, false)
  }

  /**
   * `placeUnit(side, name, lane, col)`: the new world and whether the placement
   * happened. It fails, leaving the world as it was, for an unknown kind, a
   * cell `CanPlace` refuses, or a balance below the cost.
   */
  function Place(w: World, side: Side, name: string, lane: int, col: int): (r: (World, bool))
    ensures !r.1 ==> r.0 == w
    ensures r.1 <==>
      TypeNamed(name).Some? && CanPlace(w.units, side, lane, col) &&
      w.Bolts(side) >= Def(TypeNamed(name).value).cost
  {
    match TypeNamed(name)
    case None => (w, false)
    case Some(kind) =>
      if !CanPlace(w.units, side, lane, col) then (w, false)
      else if w.Bolts(side) < Def(kind).cost then (w, false)
      else
        var units := w.units + [NewUnit(w.nextId, kind, side, lane, col)];
        var w' := if side == Player then w.(playerBolts := w.playerBolts - Def(kind).cost)
                  else w.(aiBolts := w.aiBolts - Def(kind).cost);
        (w'.(units := units, nextId := w.nextId + 1), true)
  }

  /**
   * A successful placement debits exactly the cost from the placing side only,
   * appends one fresh unit carrying the old `nextId` at the requested column
   * with full hp, and advances `nextId`; nothing else changes.
   */
  lemma PlaceSucceeds(w: World, side: Side, name: string, lane: int, col: int)
    requires Place(w, side, name, lane, col).1
    ensures var w' := Place(w, side, name, lane, col).0;
      var kind := TypeNamed(name).value;
      w'.Bolts(side) == w.Bolts(side) - Def(kind).cost &&
      w'.Bolts(EnemySide(side)) == w.Bolts(EnemySide(side)) &&
      |w'.units| == |w.units| + 1 && w'.units[..|w.units|] == w.units &&
      w'.nextId == w.nextId + 1 &&
      var u := w'.units[|w.units|];
      u.id == w.nextId && u.kind == kind && u.side == side && u.lane == lane &&
      u.x == col as real && u.hp == u.maxHp == Def(kind).hp && u.cooldown == 0.0 &&
      u.age == 0.0 && u.alive && !u.hasTeleported &&
      w'.over == w.over && w'.winner == w.winner && w'.econTimer == w.econTimer &&
      w'.aiThinkTimer == w.aiThinkTimer && w'.playerWall == w.playerWall && w'.aiWall == w.aiWall
  {
  }

  /** Placement keeps the world valid: balances stay in [0, BOLT_CAP] and ids stay unique and increasing. */
  lemma PlacePreservesValid(w: World, side: Side, name: string, lane: int, col: int)
    requires Valid(w)
    ensures var w' := Place(w, side, name, lane, col).0;
      Valid(w') && Evolves(w, w') && w'.units[..|w.units|] == w.units
  {
    var (w', ok) := Place(w, side, name, lane, col);
    if ok {
      var n := |w.units|;
      assert w'.units[..n] == w.units;
      assert Ids(w'.units) == Ids(w.units) + [w.nextId];
      assert UnitOk(w'.units[n]);
    }
  }
}
