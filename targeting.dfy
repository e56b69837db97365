/**
 * Target selection of the two striking behaviours. `updateWalker` scans the
 * lane for the nearest enemy strictly ahead within one column; `updateRanger`
 * filters the lane's enemies and sorts them by distance, and the stable sort
 * puts first the earliest one at the smallest distance. Both pick the first
 * unit, in list order, whose key is minimal among the candidates.
 */
module Targeting {
  import opened Options
  import opened Arena

  datatype Reach = Melee | Ranged

  /** Signed distance from `u` to column `x` in `u`'s direction of advance. */
  function Ahead(u: Unit, x: real): real {
    (x - u.x) * Dir(u.side)
  }

  /** Unit `k` is a candidate target for unit `i`. */
  predicate Targetable(us: seq<Unit>, i: nat, k: nat, reach: Reach)
    requires i < |us| && k < |us|
  {
    us[k].alive && us[k].side != us[i].side && us[k].lane == us[i].lane &&
    (reach == Melee ==> 0.0 < Ahead(us[i], us[k].x) <= 1.0)
  }

  /** The sort key: forward distance for a walker, absolute distance for a ranger. */
  function Key(us: seq<Unit>, i: nat, k: nat, reach: Reach): real
    requires i < |us| && k < |us|
  {
    if reach == Melee then Ahead(us[i], us[k].x) else Abs(us[k].x - us[i].x)
  }

  /** The target chosen among the first `n` units, scanning them in order. */
  function NearestAmong(us: seq<Unit>, i: nat, reach: Reach, n: nat): (t: Option<nat>)
    requires i < |us| && n <= |us|
    ensures t.Some? ==> t.value < n && Targetable(us, i, t.value, reach)
  {
    if n == 0 then None
    else
      var t := NearestAmong(us, i, reach, n - 1);
      if Targetable(us, i, n - 1, reach) && (t.None? || Key(us, i, n - 1, reach) < Key(us, i, t.value, reach))
      then Some(n - 1)
      else t
  }

  /** The target unit `i` picks from the whole list. */
  function Nearest(us: seq<Unit>, i: nat, reach: Reach): (t: Option<nat>)
    requires i < |us|
    ensures t.Some? ==> t.value < |us| && Targetable(us, i, t.value, reach)
  {
    NearestAmong(us, i, reach, |us|)
  }

  /**
   * The chosen target is a candidate with the smallest key, the earliest such
   * in the list; there is none exactly when there is no candidate.
   */
  lemma {:induction false} NearestAmongIsNearest(us: seq<Unit>, i: nat, reach: Reach, n: nat)
    requires i < |us| && n <= |us|
    ensures var t := NearestAmong(us, i, reach, n);
      (t.None? <==> forall k :: 0 <= k < n ==> !Targetable(us, i, k, reach)) &&
      (t.Some? ==>
        Targetable(us, i, t.value, reach) &&
        (forall k :: 0 <= k < n && Targetable(us, i, k, reach) ==> Key(us, i, t.value, reach) <= Key(us, i, k, reach)) &&
        (forall k :: 0 <= k < t.value && Targetable(us, i, k, reach) ==> Key(us, i, t.value, reach) < Key(us, i, k, reach)))
  {
    if n > 0 {
      NearestAmongIsNearest(us, i, reach, n - 1);
    }
  }

  lemma NearestIsNearest(us: seq<Unit>, i: nat, reach: Reach)
    requires i < |us|
    ensures var t := Nearest(us, i, reach);
      (t.None? <==> forall k :: 0 <= k < |us| ==> !Targetable(us, i, k, reach)) &&
      (t.Some? ==>
        t.value < |us| && Targetable(us, i, t.value, reach) &&
        (forall k :: 0 <= k < |us| && Targetable(us, i, k, reach) ==> Key(us, i, t.value, reach) <= Key(us, i, k, reach)) &&
        (forall k :: 0 <= k < t.value && Targetable(us, i, k, reach) ==> Key(us, i, t.value, reach) < Key(us, i, k, reach)))
  {
    NearestAmongIsNearest(us, i, reach, |us|);
  }

  /** A melee target lies ahead, so its forward distance is its absolute distance. */
  lemma MeleeKeyIsDistance(us: seq<Unit>, i: nat, k: nat)
    requires i < |us| && k < |us| && Targetable(us, i, k, Melee)
    ensures Key(us, i, k, Melee) == Abs(us[k].x - us[i].x) <= 1.0
  {
  }

  /** The scan of the lane, in list order, keeping the nearest candidate seen so far. */
  method FindTarget(us: seq<Unit>, i: nat, reach: Reach) returns (target: Option<nat>)
    requires i < |us|
    ensures target == Nearest(us, i, reach)
  {
    target := None;
    var minDist := 0.0;
    var k := 0;
    while k < |us|
      invariant 0 <= k <= |us|
      invariant target == NearestAmong(us, i, reach, k)
      invariant target.Some? ==> minDist == Key(us, i, target.value, reach)
    {
      if Targetable(us, i, k, reach) {
        var d := Key(us, i, k, reach);
        if target.None? || d < minDist {
          minDist := d;
          target := Some(k);
        }
      }
      k := k + 1;
    }
  }
}
