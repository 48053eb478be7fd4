/**
 * What each strategy chooses, stated without its code: each lookahead
 * strategy compares its two choices by one side-independent estimate from
 * Strategies, breaks ties towards the right (MaximizeEqual: towards AlwaysHi),
 * and is AlwaysHi below four pots.
 */
module Choices {
  import opened Strategies

  lemma LessForEnemyChoice(pots: seq<nat>, l: nat, r: nat)
    requires l <= r < |pots|
    ensures r - l < 3 ==> LessForEnemy(pots, l, r) == AlwaysHi(pots, l, r)
    ensures r - l >= 3 ==>
      var s := LessForEnemy(pots, l, r);
      Exposure(pots, l, r, s) <= Exposure(pots, l, r, Opposite(s))
    ensures (r - l >= 3 && Exposure(pots, l, r, TakeLeft) == Exposure(pots, l, r, TakeRight)) ==>
      LessForEnemy(pots, l, r) == TakeRight
  {
  }

  lemma MoreForEnemyChoice(pots: seq<nat>, l: nat, r: nat)
    requires l <= r < |pots|
    ensures r - l < 3 ==> MoreForEnemy(pots, l, r) == AlwaysHi(pots, l, r)
    ensures r - l >= 3 ==>
      var s := MoreForEnemy(pots, l, r);
      Exposure(pots, l, r, s) >= Exposure(pots, l, r, Opposite(s))
    ensures (r - l >= 3 && Exposure(pots, l, r, TakeLeft) == Exposure(pots, l, r, TakeRight)) ==>
      MoreForEnemy(pots, l, r) == TakeRight
  {
  }

  /**
   * LessForEnemy and MoreForEnemy take opposite ends whenever the two
   * exposures differ, and both take the right end when they are equal.
   */
  lemma ExposurePoliciesOppose(pots: seq<nat>, l: nat, r: nat)
    requires l + 3 <= r < |pots|
    ensures Exposure(pots, l, r, TakeLeft) != Exposure(pots, l, r, TakeRight) <==>
      LessForEnemy(pots, l, r) != MoreForEnemy(pots, l, r)
    ensures Exposure(pots, l, r, TakeLeft) == Exposure(pots, l, r, TakeRight) ==>
      LessForEnemy(pots, l, r) == MoreForEnemy(pots, l, r) == TakeRight
  {
  }

  lemma MaximizePairChoice(pots: seq<nat>, l: nat, r: nat)
    requires l <= r < |pots|
    ensures r - l < 3 ==> MaximizePair(pots, l, r) == AlwaysHi(pots, l, r)
    ensures r - l >= 3 ==>
      var s := MaximizePair(pots, l, r);
      PairScore(pots, l, r, s) >= PairScore(pots, l, r, Opposite(s))
    ensures (r - l >= 3 && PairScore(pots, l, r, TakeLeft) == PairScore(pots, l, r, TakeRight)) ==>
      MaximizePair(pots, l, r) == TakeRight
  {
  }

  lemma MaximizeThreeChoice(pots: seq<nat>, l: nat, r: nat)
    requires l <= r < |pots|
    ensures r - l < 3 ==> MaximizeThree(pots, l, r) == AlwaysHi(pots, l, r)
    ensures r - l >= 3 ==>
      var s := MaximizeThree(pots, l, r);
      ThreeScore(pots, l, r, s) >= ThreeScore(pots, l, r, Opposite(s))
    ensures (r - l >= 3 && ThreeScore(pots, l, r, TakeLeft) == ThreeScore(pots, l, r, TakeRight)) ==>
      MaximizeThree(pots, l, r) == TakeRight
  {
  }

  lemma MaximizeAllChoice(pots: seq<nat>, l: nat, r: nat)
    requires l <= r < |pots|
    ensures r - l < 3 ==> MaximizeAll(pots, l, r) == AlwaysHi(pots, l, r)
    ensures r - l >= 3 ==>
      var s := MaximizeAll(pots, l, r);
      AllScore(pots, l, r, s) >= AllScore(pots, l, r, Opposite(s))
    ensures (r - l >= 3 && AllScore(pots, l, r, TakeLeft) == AllScore(pots, l, r, TakeRight)) ==>
      MaximizeAll(pots, l, r) == TakeRight
  {
  }

  lemma MinimizeEnemyChoice(pots: seq<nat>, l: nat, r: nat)
    requires l <= r < |pots|
    ensures r - l < 3 ==> MinimizeEnemy(pots, l, r) == AlwaysHi(pots, l, r)
    ensures r - l >= 3 ==>
      var s := MinimizeEnemy(pots, l, r);
      EnemyScore(pots, l, r, s) <= EnemyScore(pots, l, r, Opposite(s))
    ensures (r - l >= 3 && EnemyScore(pots, l, r, TakeLeft) == EnemyScore(pots, l, r, TakeRight)) ==>
      MinimizeEnemy(pots, l, r) == TakeRight
  {
  }

  /** MaximizeEqual picks the larger estimate, deferring to AlwaysHi on a tie. */
  lemma MaximizeEqualChoice(pots: seq<nat>, l: nat, r: nat)
    requires l <= r < |pots|
    ensures r - l < 3 ==> MaximizeEqual(pots, l, r) == AlwaysHi(pots, l, r)
    ensures r - l >= 3 ==>
      var s := MaximizeEqual(pots, l, r);
      EqScore(pots, l, r, s) >= EqScore(pots, l, r, Opposite(s))
    ensures (r - l >= 3 && EqScore(pots, l, r, TakeLeft) == EqScore(pots, l, r, TakeRight)) ==>
      MaximizeEqual(pots, l, r) == AlwaysHi(pots, l, r)
  {
  }
}
