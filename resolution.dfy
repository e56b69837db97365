/**
 * The two passes that close a tick: `resolveDeaths` (tombstoning and the
 * marker's death blast) and `checkWin` (the crossing victory).
 */
module Resolution {
  import opened Options
  import opened Catalog
  import opened Arena
  import opened Behaviours

  /**
   * Unit `i` in the death pass: a live unit at 0 hp or below is marked dead,
   * and a dying marker blasts the 3 by 3 area around it.
   */
  function ResolveAt(us: seq<Unit>, i: nat): (r: seq<Unit>)
    requires i < |us|
    ensures |r| == |us|
  {
    var u := us[i];
    if u.alive && u.hp <= 0.0 then
      var dead := us[i := u.(alive := false)];
      if u.kind == Marker then Blasted(dead, u.side, u.lane, u.x, Def(Marker).deathExplosion) else dead
    else us
  }

  /**
   * A live marker at 0 hp or below dies and takes 300 hp from every live enemy
   * within one lane and one column of it; every other record is unchanged.
   */
  lemma DyingMarkerBlasts(us: seq<Unit>, i: nat)
    requires i < |us| && us[i].kind == Marker && us[i].alive && us[i].hp <= 0.0
    ensures var r := ResolveAt(us, i); var m := us[i];
      r[i] == m.(alive := false) &&
      forall k :: 0 <= k < |us| && k != i ==>
        r[k] == if InBlast(us[k], m.side, m.lane, m.x) then us[k].(hp := us[k].hp - 300.0) else us[k]
  {
    var m := us[i];
    var dead := us[i := m.(alive := false)];
    assert !InBlast(dead[i], m.side, m.lane, m.x);
    forall k | 0 <= k < |us| && k != i
      ensures ResolveAt(us, i)[k] == if InBlast(us[k], m.side, m.lane, m.x) then us[k].(hp := us[k].hp - 300.0) else us[k]
    {
      assert dead[k] == us[k];
    }
  }

  /** The death pass over the first `n` units, in list order. */
  function ResolvedUpTo(us: seq<Unit>, n: nat): (r: seq<Unit>)
    requires n <= |us|
    ensures |r| == |us|
  {
    if n == 0 then us else ResolveAt(ResolvedUpTo(us, n - 1), n - 1)
  }

  function ResolveDeaths(us: seq<Unit>): (r: seq<Unit>)
    ensures |r| == |us|
  {
    ResolvedUpTo(us, |us|)
  }

  /** Record `b` is record `a` with possibly another hp and liveness. */
  predicate OnlyHpAndLife(a: Unit, b: Unit) {
    b == a.(hp := b.hp, alive := b.alive)
  }

  /**
   * The death pass over the first `n` units: only hp and liveness change, hp
   * never rises, no unit comes back to life, every live unit among the first
   * `n` that entered at 0 hp or below leaves dead, a unit only dies at 0 hp or
   * below, and the units not yet visited keep their liveness.
   */
  lemma {:induction false} ResolvedUpToFacts(us: seq<Unit>, n: nat)
    requires n <= |us|
    ensures var r := ResolvedUpTo(us, n);
      UnitsEvolve(us, r) &&
      (forall k :: 0 <= k < |us| ==> OnlyHpAndLife(us[k], r[k])) &&
      (forall k :: 0 <= k < n && us[k].alive && us[k].hp <= 0.0 ==> !r[k].alive) &&
      (forall k :: 0 <= k < |us| && us[k].alive && !r[k].alive ==> r[k].hp <= 0.0) &&
      (forall k :: n <= k < |us| ==> r[k].alive == us[k].alive)
  {
    if n > 0 {
      ResolvedUpToFacts(us, n - 1);
      var m := ResolvedUpTo(us, n - 1);
      var i := n - 1;
      var r := ResolveAt(m, i);
      var u := m[i];
      if u.alive && u.hp <= 0.0 && u.kind == Marker {
        var dead := m[i := u.(alive := false)];
        forall k | 0 <= k < |us|
          ensures r[k] == if InBlast(dead[k], u.side, u.lane, u.x) then dead[k].(hp := dead[k].hp - Def(Marker).deathExplosion) else dead[k]
        {
        }
      }
    }
  }

  /**
   * One visit of the death pass touches the others only through a dying
   * marker's blast: their liveness is kept, and each keeps its record unless it
   * stood in the blast area.
   */
  lemma ResolveAtOthers(us: seq<Unit>, i: nat, k: nat)
    requires i < |us| && k < |us| && k != i
    ensures var r := ResolveAt(us, i); var u := us[i];
      r[k].alive == us[k].alive &&
      (r[k] != us[k] ==> u.kind == Marker && u.alive && u.hp <= 0.0 && InBlast(us[k], u.side, u.lane, u.x))
  {
    var u := us[i];
    if u.alive && u.hp <= 0.0 && u.kind == Marker {
      var dead := us[i := u.(alive := false)];
      assert dead[k] == us[k];
    }
  }

  /**
   * A dying marker is the only way to survive the pass at 0 hp or below: a
   * unit that entered alive and leaves alive at 0 hp or below stands in the
   * blast area of a marker later in the list that died in this pass. So a unit
   * that such a blast pushes to 0 hp or below dies in the same pass when the
   * marker comes first in the list.
   */
  lemma {:induction false} SurvivorsWereBlastedLater(us: seq<Unit>, n: nat)
    requires n <= |us|
    ensures var r := ResolvedUpTo(us, n);
      forall k :: 0 <= k < n && us[k].alive && r[k].alive && r[k].hp <= 0.0 ==>
        exists j :: k < j < n && us[j].kind == Marker && us[j].alive && !r[j].alive &&
          InBlast(us[k], us[j].side, us[j].lane, us[j].x)
  {
    if n > 0 {
      SurvivorsWereBlastedLater(us, n - 1);
      ResolvedUpToFacts(us, n - 1);
      var m := ResolvedUpTo(us, n - 1);
      var r := ResolveAt(m, n - 1);
      var i := n - 1;
      assert OnlyHpAndLife(us[i], m[i]) && m[i].alive == us[i].alive;
      forall k | 0 <= k < n && us[k].alive && r[k].alive && r[k].hp <= 0.0
        ensures exists j :: (k < j < n && us[j].kind == Marker && us[j].alive && !r[j].alive &&
          InBlast(us[k], us[j].side, us[j].lane, us[j].x))
      {
        if k == i {
          assert false;
        } else {
          ResolveAtOthers(m, i, k);
          assert OnlyHpAndLife(us[k], m[k]);
          if r[k] == m[k] {
            var j :| k < j < n - 1 && us[j].kind == Marker && us[j].alive && !m[j].alive &&
              InBlast(us[k], us[j].side, us[j].lane, us[j].x);
            ResolveAtOthers(m, i, j);
          } else {
            assert r[i] == m[i].(alive := false);
            assert InBlast(us[k], us[i].side, us[i].lane, us[i].x);
          }
        }
      }
    }
  }

  /** Later stages of the pass never raise a unit's hp and never revive it. */
  lemma {:induction false} ResolvedMonotone(us: seq<Unit>, a: nat, b: nat)
    requires a <= b <= |us|
    ensures forall k :: 0 <= k < |us| ==>
      ResolvedUpTo(us, b)[k].hp <= ResolvedUpTo(us, a)[k].hp &&
      (ResolvedUpTo(us, b)[k].alive ==> ResolvedUpTo(us, a)[k].alive)
    decreases b - a
  {
    if a < b {
      ResolvedMonotone(us, a, b - 1);
      var m := ResolvedUpTo(us, b - 1);
      forall k | 0 <= k < |us| && k != b - 1
        ensures ResolvedUpTo(us, b)[k].hp <= m[k].hp && (ResolvedUpTo(us, b)[k].alive ==> m[k].alive)
      {
        ResolveAtOthers(m, b - 1, k);
      }
    }
  }

  /** A unit that the pass reaches alive at 0 hp or below leaves the pass dead. */
  lemma VisitedDies(us: seq<Unit>, k: nat)
    requires k < |us| && ResolvedUpTo(us, k)[k].alive && ResolvedUpTo(us, k)[k].hp <= 0.0
    ensures !ResolveDeaths(us)[k].alive
  {
    ResolvedMonotone(us, k + 1, |us|);
  }

  /** A dying marker's blast takes its full 300 hp from a live victim later in the list. */
  lemma MarkerBlastReaches(us: seq<Unit>, m: nat, k: nat)
    requires m < k < |us| && us[m].kind == Marker && us[m].alive && us[m].hp <= 0.0
    requires InBlast(us[k], us[m].side, us[m].lane, us[m].x)
    ensures ResolvedUpTo(us, m + 1)[k].alive
    ensures ResolvedUpTo(us, m + 1)[k].hp <= us[k].hp - Def(Marker).deathExplosion
  {
    ResolvedUpToFacts(us, m);
    var p := ResolvedUpTo(us, m);
    assert OnlyHpAndLife(us[m], p[m]) && OnlyHpAndLife(us[k], p[k]);
    assert p[m].alive && p[k].alive;
    DyingMarkerBlasts(p, m);
  }

  /**
   * Chain deaths: a live unit later in the list than a dying marker, inside its
   * blast area and with at most 300 hp on entry, dies in the same pass.
   */
  lemma ChainDeath(us: seq<Unit>, m: nat, k: nat)
    requires m < k < |us| && us[m].kind == Marker && us[m].alive && us[m].hp <= 0.0
    requires InBlast(us[k], us[m].side, us[m].lane, us[m].x)
    requires us[k].hp <= Def(Marker).deathExplosion
    ensures !ResolveDeaths(us)[k].alive
  {
    MarkerBlastReaches(us, m, k);
    ResolvedMonotone(us, m + 1, k);
    ResolvedUpToFacts(us, k);
    VisitedDies(us, k);
  }

  /**
   * Every live unit at 0 hp or below on entry is dead after the pass, nobody
   * is revived, and a unit still alive at 0 hp or below was caught by the blast
   * of a marker later in the list that died in the pass.
   */
  lemma ResolveDeathsFacts(us: seq<Unit>)
    ensures var r := ResolveDeaths(us);
      UnitsEvolve(us, r) &&
      (forall k :: 0 <= k < |us| ==> OnlyHpAndLife(us[k], r[k])) &&
      (forall k :: 0 <= k < |us| && us[k].alive && us[k].hp <= 0.0 ==> !r[k].alive) &&
      (forall k :: 0 <= k < |us| && us[k].alive && !r[k].alive ==> r[k].hp <= 0.0) &&
      (forall k :: 0 <= k < |us| && us[k].alive && r[k].alive && r[k].hp <= 0.0 ==>
        exists j :: k < j < |us| && us[j].kind == Marker && us[j].alive && !r[j].alive &&
          InBlast(us[k], us[j].side, us[j].lane, us[j].x))
  {
    ResolvedUpToFacts(us, |us|);
    SurvivorsWereBlastedLater(us, |us|);
  }

  /**
   * Hp is never clamped and the pass visits each unit once: a unit earlier in
   * the list than a dying marker can be pushed to 0 hp or below by its blast
   * and still be alive when the tick ends. Here an ai marker placed by the
   * policy at column 12 dies beside a player walker at column 11.5.
   */
  lemma DeathBlastVictimSurvivesPass()
    ensures var victim := Unit(1, Walker, Player, 2, 11.5, 10.0, 750.0, 0.0, true, 0.0, false);
      var marker := Unit(2, Marker, Ai, 2, 12.0, -1.0, 300.0, 0.0, true, 0.0, false);
      var r := ResolveDeaths([victim, marker]);
      r[0].alive && r[0].hp == -290.0 && !r[1].alive
  {
    var victim := Unit(1, Walker, Player, 2, 11.5, 10.0, 750.0, 0.0, true, 0.0, false);
    var marker := Unit(2, Marker, Ai, 2, 12.0, -1.0, 300.0, 0.0, true, 0.0, false);
    var us := [victim, marker];
    assert ResolvedUpTo(us, 1) == us;
    var dead := us[1 := marker.(alive := false)];
    assert InBlast(dead[0], Ai, 2, 12.0);
    assert ResolveDeaths(us)[0] == victim.(hp := -290.0);
  }

  /**
   * Such a survivor still counts in the victory check of the same tick: in a
   * valid world with the player wall down, an ai walker past the near edge,
   * pushed to -290 hp by the death blast of a player marker at column 0 later
   * in the list, wins the match. The match is then over, so no later pass ever
   * marks it dead.
   */
  lemma DeathBlastVictimCanStillWin()
    ensures var victim := Unit(1, Walker, Ai, 2, -0.09, 10.0, 750.0, 0.0, true, 0.0, false);
      var marker := Unit(2, Marker, Player, 2, 0.0, -1.0, 300.0, 0.0, true, 0.0, false);
      var w := World(false, None, [victim, marker], 3, 200, 200, 0.0, 0.0,
                     Wall(0.0, false, PLAYER_WALL_COL), Wall(MAX_WALL_HP, true, AI_WALL_COL));
      var r := CheckWin(w.(units := ResolveDeaths(w.units)));
      Valid(w) && r.units[0].alive && r.units[0].hp == -290.0 && r.over && r.winner == Some(Ai)
  {
    var victim := Unit(1, Walker, Ai, 2, -0.09, 10.0, 750.0, 0.0, true, 0.0, false);
    var marker := Unit(2, Marker, Player, 2, 0.0, -1.0, 300.0, 0.0, true, 0.0, false);
    var w := World(false, None, [victim, marker], 3, 200, 200, 0.0, 0.0,
                   Wall(0.0, false, PLAYER_WALL_COL), Wall(MAX_WALL_HP, true, AI_WALL_COL));
    var us := w.units;
    assert ResolvedUpTo(us, 1) == us;
    var dead := us[1 := marker.(alive := false)];
    assert InBlast(dead[0], Player, 2, 0.0);
    var resolved := ResolveDeaths(us);
    assert resolved[0] == victim.(hp := -290.0);
    assert !resolved[1].alive;
    var w3 := w.(units := resolved);
    assert Crosses(w3.units[0], w3.playerWall, w3.aiWall);
    assert !Crosses(w3.units[1], w3.playerWall, w3.aiWall);
    CheckWinOutcome(w3);
  }

  // ---- The victory check ----

  /** The kinds that can win by crossing: walker, mini walker and tele-zoom. */
  predicate CanCross(k: UnitType) {
    k == Walker || k == MiniWalker || k == TeleZoom
  }

  /** A live crossing unit past the far edge of the board (within 0.05) while the wall it attacks is dead. */
  predicate Crosses(u: Unit, playerWall: Wall, aiWall: Wall) {
    u.alive && CanCross(u.kind) &&
    ((u.side == Player && !aiWall.alive && u.x >= COLS as real - 0.05) ||
     (u.side == Ai && !playerWall.alive && u.x <= -0.05))
  }

  /** `checkWin` over the first `n` units: each crossing unit in turn sets the outcome. */
  function CheckWinUpTo(w: World, n: nat): (r: World)
    requires n <= |w.units|
    ensures r == w.(over := r.over, winner := r.winner) && (w.over ==> r.over)
  {
    if n == 0 then w
    else
      var r := CheckWinUpTo(w, n - 1);
      var u := w.units[n - 1];
      if Crosses(u, w.playerWall, w.aiWall) then r.(over := true, winner := Some(u.side)) else r
  }

  /** `checkWin`: only the outcome may change, and a finished match stays finished. */
  function CheckWin(w: World): (r: World)
    ensures r == w.(over := r.over, winner := r.winner) && (w.over ==> r.over)
  {
    CheckWinUpTo(w, |w.units|)
  }

  /**
   * The check changes only the outcome; the match is over afterwards exactly
   * when it was before or some unit crosses; with no crossing unit the winner
   * is unchanged, and otherwise the LAST crossing unit in the list decides it.
   */
  lemma {:induction false} CheckWinUpToOutcome(w: World, n: nat)
    requires n <= |w.units|
    ensures var r := CheckWinUpTo(w, n);
      r == w.(over := r.over, winner := r.winner) &&
      (r.over <==> w.over || exists k :: 0 <= k < n && Crosses(w.units[k], w.playerWall, w.aiWall)) &&
      ((forall k :: 0 <= k < n ==> !Crosses(w.units[k], w.playerWall, w.aiWall)) ==> r.winner == w.winner) &&
      (forall k ::
         (0 <= k < n && Crosses(w.units[k], w.playerWall, w.aiWall) &&
          forall m :: k < m < n ==> !Crosses(w.units[m], w.playerWall, w.aiWall)) ==>
         r.winner == Some(w.units[k].side))
  {
    if n > 0 {
      CheckWinUpToOutcome(w, n - 1);
      var p := CheckWinUpTo(w, n - 1);
      var u := w.units[n - 1];
      if Crosses(u, w.playerWall, w.aiWall) {
        assert CheckWinUpTo(w, n) == p.(over := true, winner := Some(u.side));
      } else {
        assert CheckWinUpTo(w, n) == p;
      }
    }
  }

  /** The check touches only the outcome, never reopens a match, and sets the winner whenever it ends one. */
  lemma {:induction false} CheckWinUpToShape(w: World, n: nat)
    requires n <= |w.units|
    ensures var r := CheckWinUpTo(w, n);
      r == w.(over := r.over, winner := r.winner) && (w.over ==> r.over) &&
      ((w.over <==> w.winner.Some?) ==> (r.over <==> r.winner.Some?))
  {
    if n > 0 {
      CheckWinUpToShape(w, n - 1);
    }
  }

  lemma CheckWinOutcome(w: World)
    ensures var r := CheckWin(w);
      r == w.(over := r.over, winner := r.winner) &&
      (r.over <==> w.over || exists k :: 0 <= k < |w.units| && Crosses(w.units[k], w.playerWall, w.aiWall)) &&
      ((forall k :: 0 <= k < |w.units| ==> !Crosses(w.units[k], w.playerWall, w.aiWall)) ==> r.winner == w.winner) &&
      (forall k ::
         (0 <= k < |w.units| && Crosses(w.units[k], w.playerWall, w.aiWall) &&
          forall m :: k < m < |w.units| ==> !Crosses(w.units[m], w.playerWall, w.aiWall)) ==>
         r.winner == Some(w.units[k].side))
  {
    CheckWinUpToOutcome(w, |w.units|);
  }
}
