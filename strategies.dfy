/**
 * The strategy library: pure decision functions over the live window
 * [l, r] (inclusive) of a row, and the recursive evaluators behind the
 * lookahead strategies.
 *
 * The source computes the heuristics' differences in a 32-bit `int`; here
 * they are mathematical integers, which agree with the source on every row
 * whose total is below 2^31 (see Row.FitsInt32 and the bound lemmas in
 * Evaluators). The one place where the source's unsigned arithmetic changes a
 * decision, CheckEnemy, is modelled modulo 2^32 explicitly.
 */
module Strategies {
  import opened Row

  /** Which end of the window to take (PotsSide). */
  datatype Side = TakeLeft | TakeRight

  function Opposite(s: Side): (o: Side)
  {
    if s == TakeLeft then TakeRight else TakeLeft
  }

  function Max(a: nat, b: nat): (m: nat)
  {
    if a > b then a else b
  }

  /** The value of the pot at end `s` of the window [l, r]. */
  function EndValue(pots: seq<nat>, l: nat, r: nat, s: Side): (v: nat)
    requires l <= r < |pots|
  {
    if s == TakeLeft then pots[l] else pots[r]
  }

  /** Left bound of the window that remains after taking end `s`. */
  function AfterL(l: nat, r: nat, s: Side): (l1: nat)
    requires l < r
  {
    if s == TakeLeft then l + 1 else l
  }

  /** Right bound of the window that remains after taking end `s`. */
  function AfterR(l: nat, r: nat, s: Side): (r1: nat)
    requires l < r
  {
    if s == TakeRight then r - 1 else r
  }

  /** The better of the two ends of a window: what a greedy mover takes. */
  function BestEnd(pots: seq<nat>, l: nat, r: nat): (v: nat)
    requires l <= r < |pots|
  {
    Max(pots[l], pots[r])
  }

  // ---------------------------------------------------------------------
  // Net-differential estimates, written once for either side. Each
  // lookahead strategy compares its two choices by one of these.
  // ---------------------------------------------------------------------

  /** Best single pot the opponent can take right after I take end `s`. */
  function Exposure(pots: seq<nat>, l: nat, r: nat, s: Side): (v: nat)
    requires l < r < |pots|
  {
    BestEnd(pots, AfterL(l, r, s), AfterR(l, r, s))
  }

  /** My pot minus the opponent's best reply. */
  function PairScore(pots: seq<nat>, l: nat, r: nat, s: Side): (v: int)
    requires l < r < |pots|
  {
    EndValue(pots, l, r, s) - Exposure(pots, l, r, s)
  }

  /**
   * My pot, minus the pot the opponent takes greedily, plus my best pot
   * after that.
   */
  function ThreeScore(pots: seq<nat>, l: nat, r: nat, s: Side): (v: int)
    requires l + 2 <= r < |pots|
  {
    var l1, r1 := AfterL(l, r, s), AfterR(l, r, s);
    var reply := AlwaysHi(pots, l1, r1);
    EndValue(pots, l, r, s) - EndValue(pots, l1, r1, reply)
      + BestEnd(pots, AfterL(l1, r1, reply), AfterR(l1, r1, reply))
  }

  /** My pot plus the greedy continuation's net score for the rest. */
  function AllScore(pots: seq<nat>, l: nat, r: nat, s: Side): (v: int)
    requires l < r < |pots|
  {
    EndValue(pots, l, r, s) + CheckMaximize(pots, AfterL(l, r, s), AfterR(l, r, s), false)
  }

  /** CheckEnemy's (unsigned) estimate of the rest once I take end `s`. */
  function EnemyScore(pots: seq<nat>, l: nat, r: nat, s: Side): (v: nat)
    requires l < r < |pots|
  {
    CheckEnemy(pots, AfterL(l, r, s), AfterR(l, r, s), false)
  }

  /** My pot plus the MaximizeEqual continuation's net score for the rest. */
  function EqScore(pots: seq<nat>, l: nat, r: nat, s: Side): (v: int)
    requires l < r < |pots|
  {
    EndValue(pots, l, r, s) + CheckMaximizeEq(pots, AfterL(l, r, s), AfterR(l, r, s), false)
  }

  // ---------------------------------------------------------------------
  // The strategies.
  // ---------------------------------------------------------------------

  function AlwaysL(pots: seq<nat>, l: nat, r: nat): (s: Side)
    requires l <= r < |pots|
  {
    TakeLeft
  }

  function AlwaysR(pots: seq<nat>, l: nat, r: nat): (s: Side)
    requires l <= r < |pots|
  {
    TakeRight
  }

  /** Takes the larger end; a tie goes to the right. */
  function AlwaysHi(pots: seq<nat>, l: nat, r: nat): (s: Side)
    requires l <= r < |pots|
    ensures EndValue(pots, l, r, s) == BestEnd(pots, l, r)
    ensures EndValue(pots, l, r, s) >= EndValue(pots, l, r, Opposite(s))
    ensures pots[l] == pots[r] ==> s == TakeRight
  {
    if pots[l] > pots[r] then TakeLeft else TakeRight
  }

  /** Takes the smaller end; a tie goes to the right. */
  function AlwaysLo(pots: seq<nat>, l: nat, r: nat): (s: Side)
    requires l <= r < |pots|
    ensures EndValue(pots, l, r, s) <= EndValue(pots, l, r, Opposite(s))
    ensures pots[l] == pots[r] ==> s == TakeRight
  {
    if pots[l] < pots[r] then TakeLeft else TakeRight
  }

  /** Leaves the opponent the smaller best reply; a tie goes to the right. */
  function LessForEnemy(pots: seq<nat>, l: nat, r: nat): (s: Side)
    requires l <= r < |pots|
  {
    if r - l < 3 then AlwaysHi(pots, l, r)
    else
      var L := Max(pots[l + 1], pots[r]);
      var R := Max(pots[l], pots[r - 1]);
      if L < R then TakeLeft else TakeRight
  }

  /** Leaves the opponent the larger best reply; a tie goes to the right. */
  function MoreForEnemy(pots: seq<nat>, l: nat, r: nat): (s: Side)
    requires l <= r < |pots|
  {
    if r - l < 3 then AlwaysHi(pots, l, r)
    else
      var L := Max(pots[l + 1], pots[r]);
      var R := Max(pots[l], pots[r - 1]);
      if L > R then TakeLeft else TakeRight
  }

  /** Maximises my pot minus the opponent's best reply; a tie goes right. */
  function MaximizePair(pots: seq<nat>, l: nat, r: nat): (s: Side)
    requires l <= r < |pots|
  {
    if r - l < 3 then AlwaysHi(pots, l, r)
    else
      var L: int := pots[l] - Max(pots[l + 1], pots[r]);
      var R: int := pots[r] - Max(pots[l], pots[r - 1]);
      if L > R then TakeLeft else TakeRight
  }

  /**
   * Three plies: my pot, the opponent's greedy reply, my best pot after it.
   * Maximises that estimate; a tie goes to the right.
   */
  function MaximizeThree(pots: seq<nat>, l: nat, r: nat): (s: Side)
    requires l <= r < |pots|
  {
    if r - l < 3 then AlwaysHi(pots, l, r)
    else
      var L: int :=
        if pots[l + 1] > pots[r] then pots[l] - pots[l + 1] + Max(pots[l + 2], pots[r])
        else pots[l] - pots[r] + Max(pots[l + 1], pots[r - 1]);
      var R: int :=
        if pots[l] > pots[r - 1] then pots[r] - pots[l] + Max(pots[l + 1], pots[r - 1])
        else pots[r] - pots[r - 1] + Max(pots[l], pots[r - 2]);
      if L > R then TakeLeft else TakeRight
  }

  /**
   * Net score (the side whose plies carry `enemy == true` minus the other)
   * when both sides take the larger end, ties to the right, until the
   * window is empty. The source's name for the flag is kept: `enemy` set
   * means the current ply counts positively.
   */
  function CheckMaximize(pots: seq<nat>, l: nat, r: nat, enemy: bool): (v: int)
    requires l <= r < |pots|
    decreases r - l
  {
    var mul := if enemy then 1 else -1;
    if l == r then mul * pots[l]
    else if pots[l] > pots[r] then mul * pots[l] + CheckMaximize(pots, l + 1, r, !enemy)
    else mul * pots[r] + CheckMaximize(pots, l, r - 1, !enemy)
  }

  /** Maximises my pot plus the greedy continuation; a tie goes right. */
  function MaximizeAll(pots: seq<nat>, l: nat, r: nat): (s: Side)
    requires l <= r < |pots|
  {
    if r - l < 3 then AlwaysHi(pots, l, r)
    else
      var L := pots[l] + CheckMaximize(pots, l + 1, r, false);
      var R := pots[r] + CheckMaximize(pots, l, r - 1, false);
      if L > R then TakeLeft else TakeRight
  }

  /**
   * One greedy ply, counted only when `enemy` is set, then CheckMaximize on
   * the rest. The source returns this as an `unsigned int`, so a negative
   * total wraps around modulo 2^32.
   */
  function CheckEnemy(pots: seq<nat>, l: nat, r: nat, enemy: bool): (v: nat)
    requires l <= r < |pots|
    ensures v < U32
  {
    if l == r then (if enemy then pots[l] else 0) % U32
    else
      var pts := if pots[l] > pots[r] then pots[l] else pots[r];
      var rest :=
        if pots[l] > pots[r] then CheckMaximize(pots, l + 1, r, !enemy)
        else CheckMaximize(pots, l, r - 1, !enemy);
      ((if enemy then pts else 0) + rest) % U32
  }

  /**
   * Takes the end whose CheckEnemy estimate, compared as unsigned values,
   * is smaller; a tie goes to the right.
   */
  function MinimizeEnemy(pots: seq<nat>, l: nat, r: nat): (s: Side)
    requires l <= r < |pots|
  {
    if r - l < 3 then AlwaysHi(pots, l, r)
    else
      var L := CheckEnemy(pots, l + 1, r, false);
      var R := CheckEnemy(pots, l, r - 1, false);
      if L < R then TakeLeft else TakeRight
  }

  /**
   * Like CheckMaximize, but each ply takes the end MaximizeEqual chooses on
   * the current window. Mutually recursive with MaximizeEqual: the measure
   * is (r - l, 1) here and (r - l, 0) there.
   */
  function CheckMaximizeEq(pots: seq<nat>, l: nat, r: nat, enemy: bool): (v: int)
    requires l <= r < |pots|
    decreases r - l, 1
  {
    var mul := if enemy then 1 else -1;
    if l == r then mul * pots[l]
    else if MaximizeEqual(pots, l, r) == TakeLeft then
      mul * pots[l] + CheckMaximizeEq(pots, l + 1, r, !enemy)
    else
      mul * pots[r] + CheckMaximizeEq(pots, l, r - 1, !enemy)
  }

  /**
   * The champion: maximises my pot plus its own continuation's net score;
   * when both estimates are equal it defers to AlwaysHi.
   */
  function MaximizeEqual(pots: seq<nat>, l: nat, r: nat): (s: Side)
    requires l <= r < |pots|
    decreases r - l, 0
  {
    if r - l < 3 then AlwaysHi(pots, l, r)
    else
      var L := pots[l] + CheckMaximizeEq(pots, l + 1, r, false);
      var R := pots[r] + CheckMaximizeEq(pots, l, r - 1, false);
      if L == R then AlwaysHi(pots, l, r)
      else if L > R then TakeLeft else TakeRight
  }
}
