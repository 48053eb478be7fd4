/**
 * The strategy table (STRATEGIES): the eleven strategies in table order,
 * their display names, the champion (the last entry), and a dispatch
 * function that stands in for the table's function pointers.
 */
module Library {
  import opened Row
  import S = Strategies
  import opened Evaluators
  import Choices

  datatype Strategy =
    | AlwaysL
    | AlwaysR
    | AlwaysLo
    | AlwaysHi
    | LessForEnemy
    | MoreForEnemy
    | MaximizePair
    | MaximizeThree
    | MaximizeAll
    | MinimizeEnemy
    | MaximizeEqual

  /** The table, in its source order. */
  const Table: seq<Strategy> := [
    AlwaysL, AlwaysR, AlwaysLo, AlwaysHi, LessForEnemy, MoreForEnemy,
    MaximizePair, MaximizeThree, MaximizeAll, MinimizeEnemy, MaximizeEqual
  ]

  /** The strategy under test: the last table entry. */
  const Champion: Strategy := Table[|Table| - 1]

  function Name(st: Strategy): (name: string)
  {
    match st
    case AlwaysL => "always left"
    case AlwaysR => "always right"
    case AlwaysLo => "always lowest"
    case AlwaysHi => "always highest"
    case LessForEnemy => "less for enemy"
    case MoreForEnemy => "more for enemy"
    case MaximizePair => "maximize pair"
    case MaximizeThree => "maximize three"
    case MaximizeAll => "maximize all"
    case MinimizeEnemy => "minimize enemy"
    case MaximizeEqual => "maximize all & equal"
  }

  /** The strategies whose decision looks past the two exposed ends. */
  predicate IsLookahead(st: Strategy)
  {
    !(st.AlwaysL? || st.AlwaysR? || st.AlwaysLo? || st.AlwaysHi?)
  }

  /** Calls the strategy `st` on the window [l, r] of `pots`. */
  function Decide(st: Strategy, pots: seq<nat>, l: nat, r: nat): (s: S.Side)
    requires l <= r < |pots|
  {
    match st
    case AlwaysL => S.AlwaysL(pots, l, r)
    case AlwaysR => S.AlwaysR(pots, l, r)
    case AlwaysLo => S.AlwaysLo(pots, l, r)
    case AlwaysHi => S.AlwaysHi(pots, l, r)
    case LessForEnemy => S.LessForEnemy(pots, l, r)
    case MoreForEnemy => S.MoreForEnemy(pots, l, r)
    case MaximizePair => S.MaximizePair(pots, l, r)
    case MaximizeThree => S.MaximizeThree(pots, l, r)
    case MaximizeAll => S.MaximizeAll(pots, l, r)
    case MinimizeEnemy => S.MinimizeEnemy(pots, l, r)
    case MaximizeEqual => S.MaximizeEqual(pots, l, r)
  }

  /** The table lists every strategy exactly once and ends with the champion. */
  lemma TableLayout()
    ensures |Table| == 11
    ensures Champion == MaximizeEqual
    ensures forall st :: st in Table
    ensures forall i, j :: 0 <= i < j < |Table| ==> Table[i] != Table[j]
  {
    forall st ensures st in Table {
      match st
      case AlwaysL => assert Table[0] == st;
      case AlwaysR => assert Table[1] == st;
      case AlwaysLo => assert Table[2] == st;
      case AlwaysHi => assert Table[3] == st;
      case LessForEnemy => assert Table[4] == st;
      case MoreForEnemy => assert Table[5] == st;
      case MaximizePair => assert Table[6] == st;
      case MaximizeThree => assert Table[7] == st;
      case MaximizeAll => assert Table[8] == st;
      case MinimizeEnemy => assert Table[9] == st;
      case MaximizeEqual => assert Table[10] == st;
    }
  }

  /** AlwaysL and AlwaysR ignore the pots altogether. */
  lemma FixedSideStrategies(p: seq<nat>, l: nat, r: nat, q: seq<nat>, l': nat, r': nat)
    requires l <= r < |p| && l' <= r' < |q|
    ensures Decide(AlwaysL, p, l, r) == Decide(AlwaysL, q, l', r') == S.TakeLeft
    ensures Decide(AlwaysR, p, l, r) == Decide(AlwaysR, q, l', r') == S.TakeRight
  {
  }

  /** Below four pots every lookahead strategy is AlwaysHi. */
  lemma LookaheadFallsBackToAlwaysHi(st: Strategy, pots: seq<nat>, l: nat, r: nat)
    requires l <= r < |pots|
    requires IsLookahead(st) && r - l < 3
    ensures Decide(st, pots, l, r) == S.AlwaysHi(pots, l, r)
  {
    match st
    case LessForEnemy => Choices.LessForEnemyChoice(pots, l, r);
    case MoreForEnemy => Choices.MoreForEnemyChoice(pots, l, r);
    case MaximizePair => Choices.MaximizePairChoice(pots, l, r);
    case MaximizeThree => Choices.MaximizeThreeChoice(pots, l, r);
    case MaximizeAll => Choices.MaximizeAllChoice(pots, l, r);
    case MinimizeEnemy => Choices.MinimizeEnemyChoice(pots, l, r);
    case MaximizeEqual => Choices.MaximizeEqualChoice(pots, l, r);
  }

  /** The six pots nearest the ends of two windows holding the same pots agree. */
  lemma SameOuterPots(p: seq<nat>, l: nat, r: nat, q: seq<nat>, m: nat)
    requires SameWindow(p, l, r, q, m)
    requires r - l >= 3
    ensures p[l] == q[m] && p[l + 1] == q[m + 1] && p[l + 2] == q[m + 2]
    ensures p[r] == q[m + (r - l)] && p[r - 1] == q[m + (r - l) - 1] && p[r - 2] == q[m + (r - l) - 2]
  {
    SameWindowAt(p, l, r, q, m, 0);
    SameWindowAt(p, l, r, q, m, 1);
    SameWindowAt(p, l, r, q, m, 2);
    SameWindowAt(p, l, r, q, m, r - l);
    SameWindowAt(p, l, r, q, m, r - l - 1);
    SameWindowAt(p, l, r, q, m, r - l - 2);
  }

  lemma EndStrategiesShift(p: seq<nat>, l: nat, r: nat, q: seq<nat>, m: nat)
    requires SameWindow(p, l, r, q, m)
    ensures S.AlwaysHi(p, l, r) == S.AlwaysHi(q, m, m + (r - l))
    ensures S.AlwaysLo(p, l, r) == S.AlwaysLo(q, m, m + (r - l))
  {
    SameWindowAt(p, l, r, q, m, 0);
    SameWindowAt(p, l, r, q, m, r - l);
  }

  lemma ExposureStrategiesShift(p: seq<nat>, l: nat, r: nat, q: seq<nat>, m: nat)
    requires SameWindow(p, l, r, q, m)
    ensures S.LessForEnemy(p, l, r) == S.LessForEnemy(q, m, m + (r - l))
    ensures S.MoreForEnemy(p, l, r) == S.MoreForEnemy(q, m, m + (r - l))
    ensures S.MaximizePair(p, l, r) == S.MaximizePair(q, m, m + (r - l))
    ensures S.MaximizeThree(p, l, r) == S.MaximizeThree(q, m, m + (r - l))
  {
    EndStrategiesShift(p, l, r, q, m);
    if r - l >= 3 {
      SameOuterPots(p, l, r, q, m);
    }
  }

  lemma MaximizeAllShift(p: seq<nat>, l: nat, r: nat, q: seq<nat>, m: nat)
    requires SameWindow(p, l, r, q, m)
    ensures S.MaximizeAll(p, l, r) == S.MaximizeAll(q, m, m + (r - l))
  {
    EndStrategiesShift(p, l, r, q, m);
    if r - l >= 3 {
      SameWindowAt(p, l, r, q, m, 0);
      SameWindowAt(p, l, r, q, m, r - l);
      SameWindowInner(p, l, r, q, m, l + 1, r);
      SameWindowInner(p, l, r, q, m, l, r - 1);
      CheckMaximizeShift(p, l + 1, r, q, m + 1, false);
      CheckMaximizeShift(p, l, r - 1, q, m, false);
    }
  }

  lemma MinimizeEnemyShift(p: seq<nat>, l: nat, r: nat, q: seq<nat>, m: nat)
    requires SameWindow(p, l, r, q, m)
    ensures S.MinimizeEnemy(p, l, r) == S.MinimizeEnemy(q, m, m + (r - l))
  {
    EndStrategiesShift(p, l, r, q, m);
    if r - l >= 3 {
      SameWindowInner(p, l, r, q, m, l + 1, r);
      SameWindowInner(p, l, r, q, m, l, r - 1);
      CheckEnemyShift(p, l + 1, r, q, m + 1, false);
      CheckEnemyShift(p, l, r - 1, q, m, false);
    }
  }

  /**
   * A strategy reads only the pots of its window [l, r]: two windows holding
   * the same pots, wherever they sit in their rows, get the same decision.
   */
  lemma DecideShift(st: Strategy, p: seq<nat>, l: nat, r: nat, q: seq<nat>, m: nat)
    requires SameWindow(p, l, r, q, m)
    ensures Decide(st, p, l, r) == Decide(st, q, m, m + (r - l))
  {
    match st
    case AlwaysL =>
    case AlwaysR =>
    case AlwaysLo => EndStrategiesShift(p, l, r, q, m);
    case AlwaysHi => EndStrategiesShift(p, l, r, q, m);
    case LessForEnemy => ExposureStrategiesShift(p, l, r, q, m);
    case MoreForEnemy => ExposureStrategiesShift(p, l, r, q, m);
    case MaximizePair => ExposureStrategiesShift(p, l, r, q, m);
    case MaximizeThree => ExposureStrategiesShift(p, l, r, q, m);
    case MaximizeAll => MaximizeAllShift(p, l, r, q, m);
    case MinimizeEnemy => MinimizeEnemyShift(p, l, r, q, m);
    case MaximizeEqual => MaximizeEqualShift(p, l, r, q, m);
  }
}
