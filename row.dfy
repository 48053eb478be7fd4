/**
 * The row of pots: a double-ended queue of unsigned values that only ever
 * shrinks, by one pot taken from either end (CPotsHolder).
 */
module Row {

  /** One past the largest value an `unsigned int` (VAL) can hold. */
  const U32: int := 0x1_0000_0000

  /** One past the largest value an `int` can hold. */
  const INT32_LIMIT: int := 0x8000_0000

  /** Total value of the pots in `s`. */
  function Sum(s: seq<nat>): (total: nat)
  {
    if s == [] then 0 else s[0] + Sum(s[1..])
  }

  /** Sum can equally be peeled off at the right end. */
  lemma {:induction false} SumLast(s: seq<nat>)
    requires s != []
    ensures Sum(s) == Sum(s[..|s| - 1]) + s[|s| - 1]
  {
    if |s| > 1 {
      SumLast(s[1..]);
      assert s[1..][..|s[1..]| - 1] == s[..|s| - 1][1..];
    }
  }

  lemma {:induction false} SumAppend(a: seq<nat>, b: seq<nat>)
    ensures Sum(a + b) == Sum(a) + Sum(b)
  {
    if a != [] {
      assert (a + b)[1..] == a[1..] + b;
      SumAppend(a[1..], b);
    } else {
      assert a + b == b;
    }
  }

  /** A contiguous part of a row is worth at most the whole row. */
  lemma SumSliceBound(s: seq<nat>, i: nat, j: nat)
    requires i <= j <= |s|
    ensures Sum(s[i..j]) <= Sum(s)
  {
    assert s == s[..i] + s[i..j] + s[j..];
    SumAppend(s[..i] + s[i..j], s[j..]);
    SumAppend(s[..i], s[i..j]);
  }

  /** Peeling either end off the window [l, r]. */
  lemma WindowSumSplit(s: seq<nat>, l: nat, r: nat)
    requires l < r < |s|
    ensures Sum(s[l..r + 1]) == s[l] + Sum(s[l + 1..r + 1])
    ensures Sum(s[l..r + 1]) == Sum(s[l..r]) + s[r]
  {
    assert s[l..r + 1][1..] == s[l + 1..r + 1];
    SumLast(s[l..r + 1]);
    assert s[l..r + 1][..r - l] == s[l..r];
  }

  /** Every pot is at most the total. */
  lemma {:induction false} SumBoundsElements(s: seq<nat>, i: nat)
    requires i < |s|
    ensures s[i] <= Sum(s)
  {
    if i > 0 {
      SumBoundsElements(s[1..], i - 1);
    }
  }

  /**
   * The rows on which the signed arithmetic of the strategies never leaves
   * the range of a 32-bit `int`: every partial score is bounded by the row's
   * total, so a total below 2^31 keeps all of them exact.
   */
  predicate FitsInt32(s: seq<nat>)
  {
    Sum(s) < INT32_LIMIT
  }

  /** The rows GenPots produces: an even count of 4 to 12 pots, each 1 to 9. */
  predicate GeneratorShape(s: seq<nat>)
  {
    && |s| % 2 == 0
    && 4 <= |s| <= 12
    && forall i :: 0 <= i < |s| ==> 1 <= s[i] <= 9
  }

  lemma {:induction false} SumAtMostNine(s: seq<nat>)
    requires forall i :: 0 <= i < |s| ==> s[i] <= 9
    ensures Sum(s) <= 9 * |s|
  {
    if s != [] {
      assert forall i :: 0 <= i < |s[1..]| ==> s[1..][i] == s[i + 1];
      SumAtMostNine(s[1..]);
    }
  }

  /** Every generated row is one on which the model's arithmetic is exact. */
  lemma GeneratedRowFits(s: seq<nat>)
    requires GeneratorShape(s)
    ensures FitsInt32(s) && Sum(s) <= 108
  {
    SumAtMostNine(s);
  }

  class PotsHolder {
    var pots: seq<nat>

    /** The holder starts with its own copy of the source row. */
    constructor (src: seq<nat>)
      ensures pots == src
    {
      pots := src;
    }

    /** Read-only view of the current row, as the strategies see it. */
    function GetPots(): (view: seq<nat>)
      reads this
    {
      pots
    }

    /** Removes and returns the leftmost pot. */
    method TakeL() returns (val: nat)
      requires pots != []
      modifies this
      ensures val == old(pots)[0]
      ensures pots == old(pots)[1..]
      ensures Sum(old(pots)) == val + Sum(pots)
    {
      val := pots[0];
      pots := pots[1..];
    }

    /** Removes and returns the rightmost pot. */
    method TakeR() returns (val: nat)
      requires pots != []
      modifies this
      ensures val == old(pots)[|old(pots)| - 1]
      ensures pots == old(pots)[..|old(pots)| - 1]
      ensures Sum(old(pots)) == Sum(pots) + val
    {
      SumLast(pots);
      val := pots[|pots| - 1];
      pots := pots[..|pots| - 1];
    }

    predicate IsEmpty()
      reads this
      ensures IsEmpty() <==> |pots| == 0
    {
      pots == []
    }
  }
}
