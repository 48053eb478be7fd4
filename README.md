# Pots: a verified model of the strategy test bench

The program under study is a test bench for the two-player "pots" game.
A row of pots, each holding a non-negative value, lies on a table. Two
players alternate turns, and each turn takes the pot at the left or the
right end of the row. The game ends when the row is empty. The player
with the larger total does not lose. Ties count as a win for the first
player.

The repository defines eleven strategies, from "always take the left pot"
to a recursive lookahead. It declares the last table entry the champion.
For each generated row, the bench plays the champion, always moving
first, against every strategy on a fresh copy of the row. A strategy
that beats the champion is flagged.

This model covers:

- `Row`: the row of pots as a class, `PotsHolder`, whose sequence
  shrinks by one end at a time. It also holds the row total `Sum` and the
  shape of the generated rows.
- `Strategies`: the eleven decision functions and their recursive
  evaluators (`CheckMaximize`, `CheckEnemy`, `CheckMaximizeEq`), as pure
  functions over the window `[l, r]` of a row.
- `Choices`: what every lookahead strategy chooses, stated without its
  code. Each one picks the side with the better estimate, breaks ties to
  the right (`MaximizeEqual` defers to `AlwaysHi`), and behaves like
  `AlwaysHi` below four pots.
- `Evaluators`: what the evaluators compute. Their sign flips with the
  ply flag. They are bounded by the window's total. They read only their
  window. With the ply flag set, `CheckEnemy` is `CheckMaximize`
  reduced modulo 2^32. With the flag clear, which is how `MinimizeEnemy`
  calls it, it is `CheckMaximize` plus the greedy first pot, reduced
  modulo 2^32.
- `Library`: the strategy table in source order, its display names, the
  champion, and the dispatch `Decide` that replaces the table's function
  pointers.
- `Game`:
  - the `Player` class, whose `points` wrap modulo 2^32;
  - the match as a value, `Play`;
  - the match loop (`PlayMatch`), which is proved to compute `Play`;
  - one tournament game (`RunMatch`) and the tournament over the table
    (`Tournament`);
  - the fact that the two lookahead evaluators are exactly the net score
    of a self-play match.

The champion is the last table entry, `MaximizeEqual` (the `"maximize all
& equal"` entry; `main` picks the last index).

The source computes the heuristics' differences in 32-bit `int` and
`unsigned int`. The model uses unbounded integers. The two agree on every
row whose total is below 2^31, which is `Row.FitsInt32`. Every partial
score is bounded by that total (`CheckMaximizeBound`,
`CheckMaximizeEqBound`). The generated rows hold at most 108 in total
(`GeneratedRowFits`). The matches require `FitsInt32`. Within it,
`PlayMatch` proves that the players' 2^32 wrap-around never occurs.
There is one place where unsigned arithmetic changes a decision:
`CheckEnemy` returns an `unsigned int`, and `MinimizeEnemy` compares two
such values. That place is modelled exactly, modulo 2^32, and
`UnsignedComparisonDecides` shows a row where it matters.

## Model

| member | source | states |
|---|---|---|
| Row.PotsHolder.constructor | test/main.cpp:14-17 | the holder starts with a copy of the source row |
| Row.PotsHolder.TakeL | test/main.cpp:34-39 | returns the leftmost pot, removes exactly that pot, and the total drops by its value |
| Row.PotsHolder.TakeR | test/main.cpp:41-46 | returns the rightmost pot, removes exactly that pot, and the total drops by its value |
| Row.PotsHolder.IsEmpty | test/main.cpp:48-51 | true exactly when no pot is left |
| Row.GeneratedRowFits | test/main.cpp:280-291 | every row of the generator's shape (an even count from 4 to 12, values 1 to 9) totals at most 108, so the model's arithmetic is exact on it |
| Row.PotsHolder.GetPots | test/main.cpp:29-32 | the read-only view of the current row; `Game.Player.Move` states its move on this view |
| Strategies.AlwaysL | test/main.cpp:61-64 | always the left end; its contract is `Library.FixedSideStrategies` |
| Strategies.AlwaysR | test/main.cpp:66-69 | always the right end; its contract is `Library.FixedSideStrategies` |
| Strategies.LessForEnemy | test/main.cpp:81-88 | the smaller-exposure choice; its contract is `Choices.LessForEnemyChoice` |
| Strategies.MoreForEnemy | test/main.cpp:90-97 | the larger-exposure choice; its contract is `Choices.MoreForEnemyChoice` |
| Strategies.MaximizePair | test/main.cpp:99-107 | the pair-estimate choice; its contract is `Choices.MaximizePairChoice` |
| Strategies.MaximizeThree | test/main.cpp:109-133 | the three-ply choice; its contract is `Choices.MaximizeThreeChoice` |
| Strategies.CheckMaximize | test/main.cpp:135-154 | the greedy continuation's net score; its contracts are `Evaluators.CheckMaximizeNegate`, `CheckMaximizeBound`, `CheckMaximizeShift` and `Game.GreedySelfPlay` |
| Strategies.MaximizeAll | test/main.cpp:156-164 | the greedy-lookahead choice; its contract is `Choices.MaximizeAllChoice` |
| Strategies.MinimizeEnemy | test/main.cpp:186-194 | the unsigned-estimate choice; its contracts are `Choices.MinimizeEnemyChoice` and `Evaluators.UnsignedComparisonDecides` |
| Strategies.CheckMaximizeEq | test/main.cpp:198-218 | the champion's continuation net score; its contracts are `Evaluators.CheckMaximizeEqNegate`, `CheckMaximizeEqBound`, `CheckMaximizeEqSmall` and `Game.ChampionSelfPlay` |
| Strategies.MaximizeEqual | test/main.cpp:220-230 | the champion's choice; its contracts are `Choices.MaximizeEqualChoice` and `Evaluators.MaximizeEqualShift` |
| Library.Table | test/main.cpp:238-251 | the eleven strategies in table order; its contract is `Library.TableLayout` |
| Library.Decide | test/main.cpp:259-267 | calls the table entry's strategy on a window; its contracts are `Library.DecideShift` and `Library.LookaheadFallsBackToAlwaysHi` |
| Game.Play | test/main.cpp:305-313 | the match as a value, first mover then swapped roles; its contracts are `Game.PlayConserves`, `Game.GreedySelfPlay`, `Game.ChampionSelfPlay`, and `Game.PlayMatch` ties the loop to it |
| Strategies.AlwaysHi | test/main.cpp:71-74 | takes an end holding the larger value, never the smaller one, and takes the right end on a tie |
| Strategies.AlwaysLo | test/main.cpp:76-79 | takes an end holding the smaller value, and takes the right end on a tie |
| Strategies.CheckEnemy | test/main.cpp:166-184 | the result is an unsigned 32-bit value |
| Choices.LessForEnemyChoice | test/main.cpp:81-88 | below four pots it is AlwaysHi; otherwise it leaves the opponent the smaller best reply, and goes right on a tie |
| Choices.MoreForEnemyChoice | test/main.cpp:90-97 | below four pots it is AlwaysHi; otherwise it leaves the opponent the larger best reply, and goes right on a tie |
| Choices.ExposurePoliciesOppose | test/main.cpp:81-97 | from four pots up, LessForEnemy and MoreForEnemy differ exactly when the two exposures differ, and both go right when they are equal |
| Choices.MaximizePairChoice | test/main.cpp:99-107 | below four pots it is AlwaysHi; otherwise its side maximises "my pot minus the opponent's best reply", and it goes right on a tie |
| Choices.MaximizeThreeChoice | test/main.cpp:109-133 | below four pots it is AlwaysHi; otherwise its side maximises the three-ply estimate (my pot, the greedy reply, my best pot after it), and it goes right on a tie |
| Choices.MaximizeAllChoice | test/main.cpp:156-164 | below four pots it is AlwaysHi; otherwise its side maximises "my pot plus CheckMaximize of the rest", and it goes right on a tie |
| Choices.MinimizeEnemyChoice | test/main.cpp:186-194 | below four pots it is AlwaysHi; otherwise its side minimises the unsigned CheckEnemy estimate, and it goes right on a tie |
| Choices.MaximizeEqualChoice | test/main.cpp:220-230 | below four pots it is AlwaysHi; otherwise its side maximises "my pot plus CheckMaximizeEq of the rest", and it falls back to AlwaysHi when both estimates are equal |
| Evaluators.CheckMaximizeFollowsAlwaysHi | test/main.cpp:135-154 | each ply of CheckMaximize takes the end AlwaysHi takes and adds its value with the ply's sign |
| Evaluators.CheckMaximizeNegate | test/main.cpp:135-154 | flipping the ply flag negates CheckMaximize |
| Evaluators.CheckMaximizeBound | test/main.cpp:135-154 | the absolute value of CheckMaximize is at most the window's total |
| Evaluators.CheckMaximizeFitsInt32 | test/main.cpp:135-154 | on a row whose total fits an `int`, every CheckMaximize value fits an `int` |
| Evaluators.CheckMaximizeShift | test/main.cpp:135-154 | CheckMaximize reads only the pots of its window, wherever the window sits |
| Evaluators.CheckEnemyIsWrappedCheckMaximize | test/main.cpp:166-184 | CheckEnemy is CheckMaximize, plus the greedy first pot when that ply is not counted, reduced modulo 2^32 |
| Evaluators.CheckEnemyCounted | test/main.cpp:166-184 | with the flag set, CheckEnemy is CheckMaximize modulo 2^32 |
| Evaluators.UnsignedComparisonDecides | test/main.cpp:186-194 | on [1, 3, 1, 2, 2] the estimates are 1 and 2^32 - 1, so MinimizeEnemy takes the left pot, although the signed estimates are 1 and -1 |
| Evaluators.CheckEnemyShift | test/main.cpp:166-184 | CheckEnemy reads only the pots of its window |
| Evaluators.CheckMaximizeEqSmall | test/main.cpp:198-230 | on windows of at most three pots, CheckMaximizeEq equals CheckMaximize |
| Evaluators.CheckMaximizeEqNegate | test/main.cpp:198-218 | flipping the ply flag negates CheckMaximizeEq |
| Evaluators.CheckMaximizeEqBound | test/main.cpp:198-218 | the absolute value of CheckMaximizeEq is at most the window's total |
| Evaluators.CheckMaximizeEqShift | test/main.cpp:198-218 | CheckMaximizeEq reads only the pots of its window |
| Evaluators.MaximizeEqualShift | test/main.cpp:220-230 | the champion's choice depends only on the pots of its window |
| Library.TableLayout | test/main.cpp:238-251 | the table has eleven entries, lists every strategy exactly once, and ends with the champion MaximizeEqual |
| Library.FixedSideStrategies | test/main.cpp:61-69 | AlwaysL always goes left and AlwaysR always goes right, whatever the pots |
| Library.LookaheadFallsBackToAlwaysHi | test/main.cpp:81-230 | below four pots, every lookahead strategy decides like AlwaysHi |
| Library.EndStrategiesShift | test/main.cpp:71-79 | AlwaysHi and AlwaysLo read only their window |
| Library.ExposureStrategiesShift | test/main.cpp:81-133 | LessForEnemy, MoreForEnemy, MaximizePair and MaximizeThree read only their window |
| Library.MaximizeAllShift | test/main.cpp:156-164 | MaximizeAll reads only its window |
| Library.MinimizeEnemyShift | test/main.cpp:186-194 | MinimizeEnemy reads only its window |
| Library.DecideShift | test/main.cpp:61-230 | every table strategy reads only its window: two windows holding the same pots get the same decision |
| Game.TakenAndRemaining | test/main.cpp:264-272 | a move splits the row's total between the pot taken and the row left |
| Game.RemainingIsWindow | test/main.cpp:264-269 | the row left after a move holds exactly the pots of the window the strategy sees after that move |
| Game.CheckMaximizeOnRemaining | test/main.cpp:135-154 | CheckMaximize on the window after a move equals CheckMaximize on the shrunk row |
| Game.CheckMaximizeEqOnRemaining | test/main.cpp:198-218 | CheckMaximizeEq on the window after a move equals CheckMaximizeEq on the shrunk row |
| Game.GreedyEstimateStep | test/main.cpp:135-154 | CheckMaximize of a row is the greedy pot minus the opponent's CheckMaximize of the rest |
| Game.ChampionEstimateStep | test/main.cpp:198-230 | CheckMaximizeEq of a row is the champion's pot minus the opponent's CheckMaximizeEq of the rest |
| Game.Player.constructor | test/main.cpp:258-262 | a player starts with zero points and keeps its strategy |
| Game.Player.Move | test/main.cpp:264-272 | takes the pot at the end its strategy picks on the whole row, returns it, leaves the rest, and adds it to the points modulo 2^32 |
| Game.PlayConserves | test/main.cpp:306-313 | every pot of the row ends up with exactly one of the two players |
| Game.GreedySelfPlay | test/main.cpp:135-154 | CheckMaximize of a row is exactly the net score of a match in which both players use AlwaysHi |
| Game.ChampionSelfPlay | test/main.cpp:198-230 | CheckMaximizeEq of a row is exactly the net score of the champion playing itself |
| Game.PlayMatch | test/main.cpp:306-313 | the loop empties the row, its points equal the match value Play (no wrap-around occurs), and A moves ceil(n/2) times and B floor(n/2) times |
| Game.RunMatch | test/main.cpp:303-316 | on a fresh copy of the row, the champion's and the challenger's points are the match value, sum to the row's total, and `win` holds exactly when the champion did not score less |
| Game.Tournament | test/main.cpp:301-318 | one record per table entry, in table order, each the champion's match against that entry on the same unconsumed row |
| Game.ChampionSelfMatch | test/main.cpp:305-316 | the champion's match against itself is a win exactly when its own estimate CheckMaximizeEq of the row is not negative |

## Left out

- `Print` (test/main.cpp:19-27) and every `verbose` trace or report line: console output only.
- `GetPoints` (test/main.cpp:274-277): a plain read of `points`, which the model reads directly.
- GenPots' pseudo-random numbers (test/main.cpp:280-291): randomness is not modelled. `GeneratorShape` states the shape of the rows it can produce, and the tournament takes the row as a parameter.
- The 9999-trial loop in `main` (test/main.cpp:297): it only repeats the tournament on new random rows.
- The debug trap on a loss (test/main.cpp:317): it is a halt, not a value. `Tournament` returns the `win` flag of every record instead.
- The globals `gen` and `verbose` (test/main.cpp:4-5): fixed build switches, here fixed to random rows without tracing.
- The function-pointer table: replaced by the `Strategy` datatype, with the dispatch `Library.Decide`.
- Strategies: 32-bit overflow of the heuristics' intermediate values is not modelled. These values are exact whenever the row total is below 2^31, and the matches require that.
- Row.PotsHolder.constructor: pot values are not bounded by 2^32. The row total bound `FitsInt32` bounds them far below it wherever a match is played.
- Game.PlayMatch: requires `FitsInt32`, and the players' wrap-around is proved not to occur under it. Rows with larger totals are not covered.
- That the champion never loses: this is the bench's hope, checked by running it. It is not a property of the code, and it is not proved here.
