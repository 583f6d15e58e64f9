# Foosball Elo ratings, modelled in Dafny

The program rates the players of two-against-two foosball matches. It reads a roster
and a list of matches. Every player starts at one rating. Each match is processed in
list order:

- each team's two ratings are pooled into one (`calculate_avg_elo`);
- one rating change is computed from the pooled ratings, the two scores, the scale `T`
  and the factor `K` (`calculate_elo_diff_team`, `calculate_elo_diff`);
- that change is added to both team-1 players and subtracted from both team-2 players.

At the end, the players are listed by descending rating, with a medal on the first three.

The model has six modules:

- `EloRating` is the rating model as pure functions on reals. The two transcendentals, `10 ** x` and
  `log10`, are a `Math` parameter: any positive function for `10 ** x`, any function for
  `log10`. A property that needs a law of exact arithmetic (10^0 = 1, 10^x · 10^-x = 1,
  log10(10^x) = x) takes that law as a hypothesis of the lemma. No such law is assumed
  anywhere.
- `Matches` has the match records. It defines what one match does to the rating table
  (`ApplyGame`) and what the list of matches does (`Fold`, a left fold that stops at the first
  failure). It also holds the lemmas about both: the sum of all ratings is kept, names are
  never created, and the fold composes over concatenation.
- `Roster` builds the starting table from the roster: the names in dictionary insertion order,
  all at the starting rating.
- `Ranking` is the stable descending sort, the numbering and the medals.
- `Tournament` has the rating table as a class (`RatingTable`) that is updated in place. It is
  loaded by a loop over the roster and updated by a loop over the matches, and each of its
  methods is proved equal to the value-level definitions. The module also holds the whole
  run, as written and corrected (see Findings), and the worked four-player example.

These are the model's decisions:

- A match naming a player who is not on the roster stops the run at that match with
  `MissingPlayer(name)`, as the dictionary lookup's `KeyError` does. The four lookups happen in
  argument order, team 1 first.
- A scale `T` of 0 stops the run with `ZeroScale`, the `ZeroDivisionError` of
  `calculate_avg_elo`. It does so even for a match with no points, because the pooling runs
  before the zero-score guard. The lookups come first, so a missing player is reported before
  a zero scale.
- Scores are integers. The zero-score guard tests `score1 + score2 == 0`, so scores of 1 and -1
  also give no change.
- Ratings are mathematical reals, not floating point.

## Model

| member | source | states |
|---|---|---|
| EloRating.AvgWin | run.py:16-17 | the expected score of the first rating against the second lies strictly between 0 and 1 |
| EloRating.WinFraction | run.py:24 | the share of the points won lies in [0, 1] for non-negative scores, is 0 when the first side scored nothing and 1 when the second side scored nothing |
| EloRating.EloDiff | run.py:20-26 | 0 when no points were scored, for any T (the guard returns before T is used); otherwise K times (share won - expected share); with K > 0 the change is positive exactly when the share won beats the expectation, and with non-negative scores it lies strictly inside (-K, K) |
| EloRating.Scaled | run.py:25 | `K * (win - expected)` has the sign of `win - expected` for K > 0 and stays inside (-K, K) for a share and an expectation |
| EloRating.EloDiffTeam | run.py:29-35 | 0 when no points were scored, for any four ratings; strictly inside (-K, K) for K > 0 and non-negative scores; positive exactly when team 1's share beats the expectation of the two pooled ratings |
| EloRating.EvenOdds | run.py:16-17 | given 10^0 = 1, two equal ratings expect exactly one half |
| EloRating.Complementary | run.py:16-17 | given 10^x · 10^-x = 1, the two sides' expectations add up to 1 |
| EloRating.AvgElo | run.py:9-13 | given log10(10^x) = x, pooling two equal ratings gives that rating back |
| EloRating.AvgEloSymmetric | run.py:9-13 | pooling does not depend on the order of the two teammates |
| EloRating.TeammatesCommute | run.py:29-35 | swapping the two players inside each team does not change the rating change |
| EloRating.FractionsComplement | run.py:24 | the two sides' shares of the points add up to 1 |
| EloRating.EloDiffAntisymmetric | run.py:20-26 | when the two expectations are complementary, rating the second side against the first (scores swapped) gives exactly the negated change |
| EloRating.TeamsSwapNegates | run.py:29-35 | given 10^x · 10^-x = 1, listing the teams the other way round (scores swapped) negates the team change |
| EloRating.EvenTeamsDelta | run.py:29-35 | with four equal ratings (given 10^0 = 1 and log10(10^x) = x) the change is K times (share won - 1/2) |
| Matches.ApplyGame | run.py:130-143 | a match fails exactly when one of its four names is missing or T is 0; a missing name is absent from the table and named by the match; on success the keys are kept, each player moves by +δ per team-1 place and -δ per team-2 place (repeats accumulate), δ is computed from the table before the match, and every other player is unchanged |
| Matches.FirstMissingReported | run.py:131-134 | the reported missing player is the first absent name in argument order: team 1 first, team 2 second |
| Matches.GameDelta | run.py:130-139 | the change of one match is 0 when no points were scored, and strictly inside (-K, K) for K > 0 and non-negative scores |
| Matches.Credit | run.py:140-141 | `players[name] += δ` keeps the keys, raises that name by δ and leaves every other name as it was |
| Matches.Debit | run.py:142-143 | `players[name] -= δ` keeps the keys, lowers that name by δ and leaves every other name as it was |
| Matches.Settle | run.py:140-143 | the four in-place updates, each reading the entry the previous one left, keep the keys and move each name by its per-place total of +δ/-δ |
| Matches.ApplyGameSettles | run.py:130-143 | a match whose four players are present, at a non-zero scale, succeeds with exactly the four updates of its one change |
| Matches.Fold | run.py:129-143 | the left fold over the match list keeps the table's key set, whether it finishes or stops |
| Matches.ApplyGameZeroSum | run.py:140-143 | a match keeps the sum of all ratings, even when names repeat |
| Matches.FoldZeroSum | run.py:129-143 | the whole run keeps the sum of all ratings, whether it finishes or stops at a failing match |
| Matches.ZeroScoreNoOp | run.py:21-22 | a match with no points scored leaves the table exactly as it was |
| Matches.SettleNothing | run.py:140-143 | settling a change of 0 leaves the table exactly as it was |
| Matches.FoldAppend | run.py:129 | running `a + b` is running `a` and then, if nothing failed, running `b` on its result |
| Matches.FoldOne | run.py:129-143 | a list of one match is that match's outcome: its failure with the table untouched, or its new table |
| Matches.FoldSnoc | run.py:129-143 | an extra match at the end is applied last, to the table the earlier matches left |
| Matches.FoldMissingPlayer | run.py:131-134 | a run fails with a missing player only for a name absent from the starting table and named by some match: no name is ever created |
| Matches.FoldSucceeds | run.py:129-143 | the run finishes without a failure exactly when every match names only players on the table and, unless there are no matches, T is not 0 |
| Roster.RosterOrder | run.py:41-43 | the dictionary's key order lists every roster name once, and nothing else |
| Roster.InitialRatings | run.py:41-43 | the starting table has exactly the roster's names as keys, each at the starting rating |
| Roster.RosterOrderFirstSeen | run.py:41-43 | the key order follows each name's first line in the roster; a repeated line does not move the name |
| Roster.LoadStep | run.py:41-43 | one more roster line sets that name to the starting rating and appends it to the key order only if it was not yet a key |
| Roster.RosterOrderDistinct | run.py:41-43 | a roster without repeated lines gives its names in exactly the roster's order |
| Roster.StartingTableListed | run.py:39-43 | the key order lists exactly the starting table's keys, each once |
| Ranking.Items | run.py:155 | the table's items in key order, one entry per listed name with its rating |
| Ranking.Ranked | run.py:155 | the sort gives a permutation of the items, by non-increasing rating, in which the entries of each rating keep their input order (stable sort) |
| Ranking.Icon | run.py:157-158 | a position gets a medal exactly when it is among the first three |
| Ranking.Standings | run.py:154-159 | line i (0-based) is numbered i + 1, carries the name and rating of the i-th ranked entry, the lines are in non-increasing rating, and only the first three carry a medal |
| Ranking.StandingsRank | run.py:154-159 | the ranking lines list every entry exactly once |
| Ranking.RankedSorted | run.py:155 | sorting entries already in non-increasing rating leaves them as they are (the sort is stable) |
| Tournament.RatingTable.FromRoster | run.py:38-44 | the loop over the roster leaves the names in first-listing order and the table equal to the starting table |
| Tournament.RatingTable.Play | run.py:130-143 | one in-place match does what ApplyGame says: the same failure with the table untouched, or exactly ApplyGame's table |
| Tournament.RatingTable.ApplyChange | run.py:140-143 | the four in-place updates leave exactly Settle's table and keep the key order |
| Tournament.RatingTable.ProcessGames | run.py:129-143 | the in-place game loop ends in exactly the table and failure of Fold |
| Tournament.RatingTable.Entries | run.py:155 | `players.items()`: each listed name with its current rating, in key order |
| Tournament.Results | run.py:127-159 | from a loaded roster, the run ranks the players exactly when every match names only roster players and T is not 0 (or there are no matches); a ranking has one line per distinct roster name; a missing player is off the roster and named by some match |
| Tournament.ResultsRankRoster | run.py:127-159 | a finished run ranks exactly the roster's names: a name appears on some ranking line if and only if it is on the roster (with Results' line count, each distinct name once) |
| Tournament.RunAsWritten | run.py:127-159 | the program as written: load at 1500, whatever -E says, run the matches, rank, or report the failure |
| Tournament.Run | run.py:125-159 | the corrected program: load at the -E rating, run the matches, rank, or report the failure |
| Tournament.AsWrittenIgnoresStartFlag | run.py:125-127 | with -E 1000, a one-player roster and no matches, the program as written ranks the player at 1500, while the corrected one ranks them at 1000 |
| Tournament.RunStartsAtConfiguredRating | run.py:41-43 | in the corrected run before any match, every roster name is ranked exactly once, at the -E rating |
| Tournament.TotalOfUniform | run.py:43 | n listed ratings that are all v sum to n · v |
| Tournament.RunConservesTotal | run.py:127-143 | a whole run from the loaded table keeps the total rating of the loaded table, whether it finishes or stops |
| Tournament.RunKeepsStartingTotal | run.py:129-143 | a run from a table whose n listed players all stand at v, as the loader leaves them, ends or stops with those ratings summing to n · v |
| Tournament.EvenMatchScenario | run.py:129-143 | four players at 1500 and one match A B C D 1 0 at T 400, K 128 (given 10^0 = 1 and log10(10^x) = x) end at A = B = 1564 and C = D = 1436 |
| Tournament.EvenMatchRanking | run.py:127-159 | the same run ranks A 1564 with the gold medal, B 1564 silver, C 1436 bronze and D 1436 with none, in roster order among ties |
| Tournament.PathDependence | run.py:129-143 | the order of the matches matters: from four players at 1500, A B C D 1 0 then A B C D 0 1 leaves A at another rating than the two matches in the other order (given 10^0 = 1 and log10(10^x) = x) |
| Tournament.OrderMatters | run.py:129-143 | the same for any four distinct players who all stand at the same rating, at T 400 and K 128 |
| Tournament.WonThenLost | run.py:129-143 | after a win and the lost return match, the first player stands 64 up plus the change of the return match from that position |
| Tournament.LostThenWon | run.py:129-143 | after a loss and the won return match, the first player stands 64 down plus the change of the return match from that position |
| Tournament.OrderChangesA | run.py:9-35 | given log10(10^x) = x, those two final ratings differ: v + 64 - 128 / (1 + 10^-0.32) is not v + 64 - 128 / (1 + 10^0.32) |

## Left out

- Command-line parsing (run.py:106-125): T, K and the starting rating are fields of `Config`.
- Reading `players.txt` and `games.txt` (run.py:38-53): the roster is a sequence of names
  after `strip()`, and a match is a record of four names and two integers.
- `int()` parsing of scores (run.py:135-136), and a match line with fewer than six fields:
  the record is already well formed.
- Writing the shell script and `os.chmod` (run.py:61-102, 145-151). Its ranking loop
  (run.py:97-102) is the same sort and icons as `Ranking.Standings`.
- `print` and `:.0f` rounding (run.py:153-159): a ranking line keeps the exact rating.
- Floating point: ratings are reals, so rounding, overflow of `10 ** x`, and a `log10`
  domain error do not occur in the model.
- The values of `10 ** x` and `log10`: they are a parameter. Laws about them are the
  hypotheses of the lemmas that need them, and they are never assumed for every `Math`.
- Tournament.RunConservesTotal: states the final total equal to the loaded table's total, not
  "number of players times the starting rating"; that form is Tournament.RunKeepsStartingTotal,
  stated for any listed table whose players all stand at one rating, which the loaded table is
  (Roster.StartingTableListed, Roster.InitialRatings).

## Findings

The program parses `-E` into `elo_start` but calls `load_players()` with no argument.
Because of that, every player starts at the function's default of 1500. The -E value is used
only as the fallback of the generated script. The -E flag's help text, "ELO rating start"
(run.py:109), names it as the starting rating of every player. The model follows the code as written in `Tournament.RunAsWritten` and
holds the corrected program in `Tournament.Run`.

| source | as written | input that shows it | evidently intended | confidence | as-written member | corrected member |
|---|---|---|---|---|---|---|
| run.py:127 | `players = load_players()` starts every player at 1500 whatever -E says | `-E 1000`, roster `A`, no matches: A is ranked at 1500 | `load_players(elo_start)`: every player starts at the -E rating | high, not executed | Tournament.RunAsWritten (shown by Tournament.AsWrittenIgnoresStartFlag) | Tournament.Run (proved by Tournament.RunStartsAtConfiguredRating) |
