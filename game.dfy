/**
 * Players, matches and the per-row tournament: a player (CPlayer) binds a
 * strategy to a running score; a match lets the champion (player A, always
 * first) and a challenger (player B) take turns on one fresh copy of the row
 * until it is empty; the tournament plays the champion against every table
 * entry, itself included, and records whether it did not lose.
 */
module Game {
  import opened Row
  import S = Strategies
  import opened Evaluators
  import opened Library

  /** The pot a move at end `s` of the whole row takes. */
  function Taken(row: seq<nat>, s: S.Side): (v: nat)
    requires row != []
  {
    S.EndValue(row, 0, |row| - 1, s)
  }

  /** The row left after a move at end `s`. */
  function Remaining(row: seq<nat>, s: S.Side): (rest: seq<nat>)
    requires row != []
    ensures |rest| == |row| - 1
  {
    if s == S.TakeLeft then row[1..] else row[..|row| - 1]
  }

  /** A move splits the row's total between the pot taken and the rest. */
  lemma TakenAndRemaining(row: seq<nat>, s: S.Side)
    requires row != []
    ensures Sum(row) == Taken(row, s) + Sum(Remaining(row, s))
  {
    SumLast(row);
  }

  /**
   * The row left after a move holds exactly the pots of the window the
   * strategies see after that move, shifted to start at 0.
   */
  lemma RemainingIsWindow(row: seq<nat>, s: S.Side)
    requires |row| > 1
    ensures SameWindow(row, S.AfterL(0, |row| - 1, s), S.AfterR(0, |row| - 1, s), Remaining(row, s), 0)
    ensures S.AfterR(0, |row| - 1, s) - S.AfterL(0, |row| - 1, s) == |row| - 2
  {
  }

  class Player {
    var points: nat
    const strategy: Strategy
    /** How many moves this player has made (not in the source). */
    ghost var moves: nat

    constructor (st: Strategy)
      ensures points == 0 && strategy == st && moves == 0
    {
      points := 0;
      strategy := st;
      moves := 0;
    }

    /**
     * Asks the strategy for a side on the whole current row, takes that
     * pot and adds it to `points`, an `unsigned int` that wraps modulo 2^32.
     */
    method Move(game: PotsHolder) returns (pts: nat)
      requires !game.IsEmpty()
      modifies this, game
      ensures var p := old(game.pots);
        var side := Decide(strategy, p, 0, |p| - 1);
        pts == Taken(p, side) && game.pots == Remaining(p, side)
      ensures points == (old(points) + pts) % U32
      ensures moves == old(moves) + 1
    {
      var pots := game.GetPots();
      var side := Decide(strategy, pots, 0, |pots| - 1);
      if side == S.TakeLeft {
        pts := game.TakeL();
      } else {
        pts := game.TakeR();
      }
      points := (points + pts) % U32;
      moves := moves + 1;
    }
  }

  /** Final points of the first and of the second mover. */
  datatype Score = Score(first: nat, second: nat)

  /**
   * The match as a value: `first` moves, then the roles swap on the row that
   * is left, until it is empty. The second mover does not move once the
   * first mover has emptied the row.
   */
  function Play(first: Strategy, second: Strategy, row: seq<nat>): (score: Score)
    decreases |row|
  {
    if row == [] then Score(0, 0)
    else
      var s := Decide(first, row, 0, |row| - 1);
      var rest := Play(second, first, Remaining(row, s));
      Score(Taken(row, s) + rest.second, rest.first)
  }

  /** One move of a match: the first mover's pot, then the swapped match on the rest. */
  lemma PlayStep(first: Strategy, second: Strategy, row: seq<nat>, s: S.Side)
    requires row != [] && s == Decide(first, row, 0, |row| - 1)
    ensures Play(first, second, row)
      == Score(Taken(row, s) + Play(second, first, Remaining(row, s)).second,
               Play(second, first, Remaining(row, s)).first)
  {
  }

  /** A score that stays within the row's total never wraps around. */
  lemma AddWithoutWrap(points: nat, pts: nat, bound: nat, total: nat)
    requires points + pts <= bound <= total < INT32_LIMIT
    ensures (points + pts) % U32 == points + pts
  {
  }

  /** Every pot ends up with exactly one of the two players. */
  lemma {:induction false} PlayConserves(first: Strategy, second: Strategy, row: seq<nat>)
    ensures Play(first, second, row).first + Play(first, second, row).second == Sum(row)
    decreases |row|
  {
    if row != [] {
      var s := Decide(first, row, 0, |row| - 1);
      TakenAndRemaining(row, s);
      PlayConserves(second, first, Remaining(row, s));
    }
  }

  /** CheckMaximize on the window left after a move is CheckMaximize on the shrunk row. */
  lemma CheckMaximizeOnRemaining(row: seq<nat>, s: S.Side, enemy: bool)
    requires |row| > 1
    ensures S.CheckMaximize(row, S.AfterL(0, |row| - 1, s), S.AfterR(0, |row| - 1, s), enemy)
      == S.CheckMaximize(Remaining(row, s), 0, |row| - 2, enemy)
  {
    RemainingIsWindow(row, s);
    CheckMaximizeShift(row, S.AfterL(0, |row| - 1, s), S.AfterR(0, |row| - 1, s), Remaining(row, s), 0, enemy);
  }

  /** The same for CheckMaximizeEq. */
  lemma CheckMaximizeEqOnRemaining(row: seq<nat>, s: S.Side, enemy: bool)
    requires |row| > 1
    ensures S.CheckMaximizeEq(row, S.AfterL(0, |row| - 1, s), S.AfterR(0, |row| - 1, s), enemy)
      == S.CheckMaximizeEq(Remaining(row, s), 0, |row| - 2, enemy)
  {
    RemainingIsWindow(row, s);
    CheckMaximizeEqShift(row, S.AfterL(0, |row| - 1, s), S.AfterR(0, |row| - 1, s), Remaining(row, s), 0, enemy);
  }

  /**
   * CheckMaximize seen from the mover: the greedy pot it takes minus the
   * opponent's CheckMaximize on the row that is left.
   */
  lemma GreedyEstimateStep(row: seq<nat>)
    requires |row| > 1
    ensures var s := S.AlwaysHi(row, 0, |row| - 1);
      S.CheckMaximize(row, 0, |row| - 1, true)
        == Taken(row, s) - S.CheckMaximize(Remaining(row, s), 0, |row| - 2, true)
  {
    var s := S.AlwaysHi(row, 0, |row| - 1);
    CheckMaximizeFollowsAlwaysHi(row, 0, |row| - 1, true);
    CheckMaximizeOnRemaining(row, s, false);
    CheckMaximizeNegate(Remaining(row, s), 0, |row| - 2, false);
  }

  /**
   * CheckMaximizeEq seen from the mover: the pot MaximizeEqual takes minus
   * the opponent's CheckMaximizeEq on the row that is left.
   */
  lemma ChampionEstimateStep(row: seq<nat>)
    requires |row| > 1
    ensures var s := S.MaximizeEqual(row, 0, |row| - 1);
      S.CheckMaximizeEq(row, 0, |row| - 1, true)
        == Taken(row, s) - S.CheckMaximizeEq(Remaining(row, s), 0, |row| - 2, true)
  {
    var s := S.MaximizeEqual(row, 0, |row| - 1);
    CheckMaximizeEqFollowsMaximizeEqual(row, 0, |row| - 1, true);
    CheckMaximizeEqOnRemaining(row, s, false);
    CheckMaximizeEqNegate(Remaining(row, s), 0, |row| - 2, false);
  }

  /**
   * CheckMaximize is exactly the net score of a match in which both players
   * use AlwaysHi.
   */
  lemma {:induction false} GreedySelfPlay(row: seq<nat>)
    requires row != []
    ensures Play(AlwaysHi, AlwaysHi, row).first - Play(AlwaysHi, AlwaysHi, row).second
      == S.CheckMaximize(row, 0, |row| - 1, true)
    decreases |row|
  {
    var n := |row|;
    if n > 1 {
      var s := S.AlwaysHi(row, 0, n - 1);
      var rest := Remaining(row, s);
      PlayStep(AlwaysHi, AlwaysHi, row, s);
      GreedyEstimateStep(row);
      GreedySelfPlay(rest);
    }
  }

  /**
   * CheckMaximizeEq is exactly the net score of the champion playing
   * itself: its estimate is its own self-play.
   */
  lemma {:induction false} ChampionSelfPlay(row: seq<nat>)
    requires row != []
    ensures Play(MaximizeEqual, MaximizeEqual, row).first - Play(MaximizeEqual, MaximizeEqual, row).second
      == S.CheckMaximizeEq(row, 0, |row| - 1, true)
    decreases |row|
  {
    var n := |row|;
    if n > 1 {
      var s := S.MaximizeEqual(row, 0, n - 1);
      var rest := Remaining(row, s);
      PlayStep(MaximizeEqual, MaximizeEqual, row, s);
      ChampionEstimateStep(row);
      ChampionSelfPlay(rest);
    }
  }

  /**
   * The match loop: A and B take turns on `pots`, A first, and the loop
   * stops as soon as the row is empty, even between A's and B's move.
   */
  method PlayMatch(pots: PotsHolder, a: Player, b: Player)
    requires a != b
    requires a.points == 0 && b.points == 0 && a.moves == 0 && b.moves == 0
    requires FitsInt32(pots.pots)
    modifies pots, a, b
    ensures pots.pots == []
    ensures Score(a.points, b.points) == Play(a.strategy, b.strategy, old(pots.pots))
    ensures a.moves == (|old(pots.pots)| + 1) / 2 && b.moves == |old(pots.pots)| / 2
  {
    ghost var gen := pots.pots;
    ghost var total := Play(a.strategy, b.strategy, gen);
    PlayConserves(a.strategy, b.strategy, gen);
    while !pots.IsEmpty()
      invariant a.moves == b.moves && |gen| == |pots.pots| + 2 * a.moves
      invariant a.points + Play(a.strategy, b.strategy, pots.pots).first == total.first
      invariant b.points + Play(a.strategy, b.strategy, pots.pots).second == total.second
      decreases |pots.pots|
    {
      ghost var row, before := pots.pots, a.points;
      var ptsA := a.Move(pots);
      ghost var rest := pots.pots;
      PlayStep(a.strategy, b.strategy, row, Decide(a.strategy, row, 0, |row| - 1));
      AddWithoutWrap(before, ptsA, total.first, Sum(gen));
      if pots.IsEmpty() {
        break;
      }
      before := b.points;
      var ptsB := b.Move(pots);
      PlayStep(b.strategy, a.strategy, rest, Decide(b.strategy, rest, 0, |rest| - 1));
      AddWithoutWrap(before, ptsB, total.second, Sum(gen));
    }
  }

  /**
   * One tournament game: the champion (A) against `challenger` (B) on a
   * fresh copy of `gen`; `win` says A did not lose.
   */
  method RunMatch(gen: seq<nat>, challenger: Strategy)
    returns (pointsA: nat, pointsB: nat, win: bool, ghost movesA: nat, ghost movesB: nat)
    requires FitsInt32(gen)
    ensures Score(pointsA, pointsB) == Play(Champion, challenger, gen)
    ensures pointsA + pointsB == Sum(gen)
    ensures win <==> pointsA >= pointsB
    ensures movesA == (|gen| + 1) / 2 && movesB == |gen| / 2
  {
    var pots := new PotsHolder(gen);
    var a := new Player(Champion);
    var b := new Player(challenger);
    PlayMatch(pots, a, b);
    PlayConserves(Champion, challenger, gen);
    pointsA, pointsB := a.points, b.points;
    win := pointsA >= pointsB;
    movesA, movesB := a.moves, b.moves;
  }

  /** One line of the tournament's report. */
  datatype MatchRecord = MatchRecord(challenger: Strategy, pointsA: nat, pointsB: nat, win: bool)

  /** The record the champion's match against `st` on `gen` must produce. */
  function Expected(gen: seq<nat>, st: Strategy): (record: MatchRecord)
  {
    var score := Play(Champion, st, gen);
    MatchRecord(st, score.first, score.second, score.first >= score.second)
  }

  /**
   * Plays the champion against every table entry, in table order, each on
   * its own copy of `gen`.
   */
  method Tournament(gen: seq<nat>) returns (records: seq<MatchRecord>)
    requires FitsInt32(gen)
    ensures |records| == |Table|
    ensures forall i :: 0 <= i < |Table| ==> records[i] == Expected(gen, Table[i])
    ensures forall i :: 0 <= i < |Table| ==> records[i].pointsA + records[i].pointsB == Sum(gen)
  {
    records := [];
    for i := 0 to |Table|
      invariant |records| == i
      invariant forall j :: 0 <= j < i ==> records[j] == Expected(gen, Table[j])
      invariant forall j :: 0 <= j < i ==> records[j].pointsA + records[j].pointsB == Sum(gen)
    {
      var pointsA, pointsB, win, _, _ := RunMatch(gen, Table[i]);
      records := records + [MatchRecord(Table[i], pointsA, pointsB, win)];
    }
  }

  /** The champion's match against itself is a win exactly when its own estimate is not negative. */
  lemma ChampionSelfMatch(gen: seq<nat>)
    requires gen != []
    ensures Expected(gen, Champion).win <==> S.CheckMaximizeEq(gen, 0, |gen| - 1, true) >= 0
  {
    TableLayout();
    ChampionSelfPlay(gen);
  }
}
