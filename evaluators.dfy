/**
 * Properties of the recursive evaluators CheckMaximize, CheckEnemy and
 * CheckMaximizeEq, and the fact that every strategy only looks at its
 * window [l, r].
 */
module Evaluators {
  import opened Row
  import opened Strategies

  /** The sign a ply contributes with. */
  function Sign(enemy: bool): (sign: int)
  {
    if enemy then 1 else -1
  }

  function Abs(x: int): (a: nat)
  {
    if x < 0 then -x else x
  }

  /** The pots of the window [l, r]. */
  function Window(pots: seq<nat>, l: nat, r: nat): (w: seq<nat>)
    requires l <= r < |pots|
  {
    pots[l..r + 1]
  }

  /**
   * Window [l, r] of `p` holds the same pots, in the same order, as the
   * window of `q` that starts at `m`.
   */
  predicate SameWindow(p: seq<nat>, l: nat, r: nat, q: seq<nat>, m: nat)
  {
    && l <= r < |p|
    && m + (r - l) < |q|
    && forall i :: l <= i <= r ==> p[i] == q[i - l + m]
  }

  /** What SameWindow gives: equal ends, and equal inner windows. */
  lemma SameWindowAt(p: seq<nat>, l: nat, r: nat, q: seq<nat>, m: nat, k: nat)
    requires SameWindow(p, l, r, q, m)
    requires k <= r - l
    ensures p[l + k] == q[m + k]
  {
    assert p[l + k] == q[(l + k) - l + m];
  }

  lemma SameWindowInner(p: seq<nat>, l: nat, r: nat, q: seq<nat>, m: nat, i: nat, j: nat)
    requires SameWindow(p, l, r, q, m)
    requires l <= i <= j <= r
    ensures SameWindow(p, i, j, q, m + (i - l))
  {
  }

  // ---------------------------------------------------------------------
  // CheckMaximize
  // ---------------------------------------------------------------------

  /**
   * Every ply of CheckMaximize takes the end AlwaysHi would take, and adds
   * its value with the sign of the ply.
   */
  lemma CheckMaximizeFollowsAlwaysHi(pots: seq<nat>, l: nat, r: nat, enemy: bool)
    requires l < r < |pots|
    ensures var s := AlwaysHi(pots, l, r);
      CheckMaximize(pots, l, r, enemy)
        == Sign(enemy) * EndValue(pots, l, r, s)
           + CheckMaximize(pots, AfterL(l, r, s), AfterR(l, r, s), !enemy)
  {
  }

  /** The flag only fixes signs: flipping it negates the result. */
  lemma {:induction false} CheckMaximizeNegate(pots: seq<nat>, l: nat, r: nat, enemy: bool)
    requires l <= r < |pots|
    ensures CheckMaximize(pots, l, r, enemy) == -CheckMaximize(pots, l, r, !enemy)
    decreases r - l
  {
    if l < r {
      if pots[l] > pots[r] {
        CheckMaximizeNegate(pots, l + 1, r, !enemy);
      } else {
        CheckMaximizeNegate(pots, l, r - 1, !enemy);
      }
    }
  }

  /** The net score never exceeds, in absolute value, what the window holds. */
  lemma {:induction false} CheckMaximizeBound(pots: seq<nat>, l: nat, r: nat, enemy: bool)
    requires l <= r < |pots|
    ensures Abs(CheckMaximize(pots, l, r, enemy)) <= Sum(Window(pots, l, r))
    decreases r - l
  {
    if l == r {
      assert Window(pots, l, r) == [pots[l]];
    } else {
      WindowSumSplit(pots, l, r);
      if pots[l] > pots[r] {
        CheckMaximizeBound(pots, l + 1, r, !enemy);
      } else {
        CheckMaximizeBound(pots, l, r - 1, !enemy);
      }
    }
  }

  /** On a row whose total fits an `int`, so does every CheckMaximize value. */
  lemma CheckMaximizeFitsInt32(pots: seq<nat>, l: nat, r: nat, enemy: bool)
    requires l <= r < |pots|
    requires FitsInt32(pots)
    ensures -INT32_LIMIT < CheckMaximize(pots, l, r, enemy) < INT32_LIMIT
  {
    CheckMaximizeBound(pots, l, r, enemy);
    SumSliceBound(pots, l, r + 1);
  }

  /** CheckMaximize depends only on the pots of its window. */
  lemma {:induction false} CheckMaximizeShift(p: seq<nat>, l: nat, r: nat, q: seq<nat>, m: nat, enemy: bool)
    requires SameWindow(p, l, r, q, m)
    ensures CheckMaximize(p, l, r, enemy) == CheckMaximize(q, m, m + (r - l), enemy)
    decreases r - l
  {
    SameWindowAt(p, l, r, q, m, 0);
    SameWindowAt(p, l, r, q, m, r - l);
    if l < r {
      if p[l] > p[r] {
        SameWindowInner(p, l, r, q, m, l + 1, r);
        CheckMaximizeShift(p, l + 1, r, q, m + 1, !enemy);
      } else {
        SameWindowInner(p, l, r, q, m, l, r - 1);
        CheckMaximizeShift(p, l, r - 1, q, m, !enemy);
      }
    }
  }

  // ---------------------------------------------------------------------
  // CheckEnemy
  // ---------------------------------------------------------------------

  /**
   * CheckEnemy is CheckMaximize plus the greedy first pot when that ply is
   * not counted, converted to unsigned (reduced modulo 2^32).
   */
  lemma CheckEnemyIsWrappedCheckMaximize(pots: seq<nat>, l: nat, r: nat, enemy: bool)
    requires l <= r < |pots|
    ensures CheckEnemy(pots, l, r, enemy)
      == (CheckMaximize(pots, l, r, enemy) + (if enemy then 0 else BestEnd(pots, l, r))) % U32
  {
  }

  /** In particular, with the flag set the two agree modulo 2^32. */
  lemma CheckEnemyCounted(pots: seq<nat>, l: nat, r: nat)
    requires l <= r < |pots|
    ensures CheckEnemy(pots, l, r, true) == CheckMaximize(pots, l, r, true) % U32
  {
    CheckEnemyIsWrappedCheckMaximize(pots, l, r, true);
  }

  /**
   * A negative estimate turns into a huge unsigned one. On [1, 3, 1, 2, 2]
   * the two CheckEnemy estimates are 1 (taking the left pot) and 2^32 - 1
   * (taking the right pot), although the signed estimates are 1 and -1:
   * MinimizeEnemy therefore takes the left pot, where a signed comparison
   * would take the right one.
   */
  lemma UnsignedComparisonDecides()
    ensures EnemyScore([1, 3, 1, 2, 2], 0, 4, TakeLeft) == 1
    ensures EnemyScore([1, 3, 1, 2, 2], 0, 4, TakeRight) == U32 - 1
    ensures MinimizeEnemy([1, 3, 1, 2, 2], 0, 4) == TakeLeft
  {
  }

  lemma {:induction false} CheckEnemyShift(p: seq<nat>, l: nat, r: nat, q: seq<nat>, m: nat, enemy: bool)
    requires SameWindow(p, l, r, q, m)
    ensures CheckEnemy(p, l, r, enemy) == CheckEnemy(q, m, m + (r - l), enemy)
  {
    CheckEnemyIsWrappedCheckMaximize(p, l, r, enemy);
    CheckEnemyIsWrappedCheckMaximize(q, m, m + (r - l), enemy);
    CheckMaximizeShift(p, l, r, q, m, enemy);
    SameWindowAt(p, l, r, q, m, 0);
    SameWindowAt(p, l, r, q, m, r - l);
  }

  // ---------------------------------------------------------------------
  // CheckMaximizeEq and MaximizeEqual
  // ---------------------------------------------------------------------

  /**
   * Every ply of CheckMaximizeEq takes the end MaximizeEqual chooses on the
   * current window, and adds its value with the sign of the ply.
   */
  lemma CheckMaximizeEqFollowsMaximizeEqual(pots: seq<nat>, l: nat, r: nat, enemy: bool)
    requires l < r < |pots|
    ensures var s := MaximizeEqual(pots, l, r);
      CheckMaximizeEq(pots, l, r, enemy)
        == Sign(enemy) * EndValue(pots, l, r, s)
           + CheckMaximizeEq(pots, AfterL(l, r, s), AfterR(l, r, s), !enemy)
  {
  }

  /** On windows of at most three pots both evaluators coincide. */
  lemma {:induction false} CheckMaximizeEqSmall(pots: seq<nat>, l: nat, r: nat, enemy: bool)
    requires l <= r < |pots|
    requires r - l < 3
    ensures CheckMaximizeEq(pots, l, r, enemy) == CheckMaximize(pots, l, r, enemy)
    decreases r - l
  {
    if l < r {
      if pots[l] > pots[r] {
        CheckMaximizeEqSmall(pots, l + 1, r, !enemy);
      } else {
        CheckMaximizeEqSmall(pots, l, r - 1, !enemy);
      }
    }
  }

  lemma {:induction false} CheckMaximizeEqNegate(pots: seq<nat>, l: nat, r: nat, enemy: bool)
    requires l <= r < |pots|
    ensures CheckMaximizeEq(pots, l, r, enemy) == -CheckMaximizeEq(pots, l, r, !enemy)
    decreases r - l
  {
    if l < r {
      if MaximizeEqual(pots, l, r) == TakeLeft {
        CheckMaximizeEqNegate(pots, l + 1, r, !enemy);
      } else {
        CheckMaximizeEqNegate(pots, l, r - 1, !enemy);
      }
    }
  }

  lemma {:induction false} CheckMaximizeEqBound(pots: seq<nat>, l: nat, r: nat, enemy: bool)
    requires l <= r < |pots|
    ensures Abs(CheckMaximizeEq(pots, l, r, enemy)) <= Sum(Window(pots, l, r))
    decreases r - l
  {
    if l == r {
      assert Window(pots, l, r) == [pots[l]];
    } else {
      WindowSumSplit(pots, l, r);
      if MaximizeEqual(pots, l, r) == TakeLeft {
        CheckMaximizeEqBound(pots, l + 1, r, !enemy);
      } else {
        CheckMaximizeEqBound(pots, l, r - 1, !enemy);
      }
    }
  }

  lemma {:induction false} CheckMaximizeEqShift(p: seq<nat>, l: nat, r: nat, q: seq<nat>, m: nat, enemy: bool)
    requires SameWindow(p, l, r, q, m)
    ensures CheckMaximizeEq(p, l, r, enemy) == CheckMaximizeEq(q, m, m + (r - l), enemy)
    decreases r - l, 1
  {
    SameWindowAt(p, l, r, q, m, 0);
    SameWindowAt(p, l, r, q, m, r - l);
    if l < r {
      MaximizeEqualShift(p, l, r, q, m);
      if MaximizeEqual(p, l, r) == TakeLeft {
        SameWindowInner(p, l, r, q, m, l + 1, r);
        CheckMaximizeEqShift(p, l + 1, r, q, m + 1, !enemy);
      } else {
        SameWindowInner(p, l, r, q, m, l, r - 1);
        CheckMaximizeEqShift(p, l, r - 1, q, m, !enemy);
      }
    }
  }

  /** The champion's choice depends only on the pots of its window. */
  lemma {:induction false} MaximizeEqualShift(p: seq<nat>, l: nat, r: nat, q: seq<nat>, m: nat)
    requires SameWindow(p, l, r, q, m)
    ensures MaximizeEqual(p, l, r) == MaximizeEqual(q, m, m + (r - l))
    decreases r - l, 0
  {
    SameWindowAt(p, l, r, q, m, 0);
    SameWindowAt(p, l, r, q, m, r - l);
    if r - l >= 3 {
      SameWindowInner(p, l, r, q, m, l + 1, r);
      CheckMaximizeEqShift(p, l + 1, r, q, m + 1, false);
      SameWindowInner(p, l, r, q, m, l, r - 1);
      CheckMaximizeEqShift(p, l, r - 1, q, m, false);
    }
  }
}
