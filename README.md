# World Cup simulator — a verified model of the simulation core

The simulator estimates each national team's chance of winning a 48-team
World Cup by playing the tournament many times (Monte Carlo) and counting
champions. It has two implementations, and both are modelled here:

- **Python** (`src/core/tournament.py`, `group_stage.py`, `group_draw.py`):
  - the field is cut into four strength pots;
  - twelve groups A–L are drawn, one team from each pot;
  - every group plays a round-robin of six fixtures (3/1/0 points, goal
    difference, tie-break on points, then goal difference, then strength);
  - the winners and runners-up go into a fixed round-of-32 template, followed
    by the eight best third-placed teams;
  - a single-elimination knockout is driven by a win-probability matrix;
  - the champions are tallied into a table of winning shares.
- **C++** (`src/core/cxx_sim.cpp`): the same tournament, played on team
  indices:
  - a shuffled seating of indices 0..47;
  - groups ranked by the comparator `rank_cmp` after a shuffle and a stable
    sort;
  - a 32-team knockout seeded in collection order;
  - a dictionary of winning shares.
- **Vig stripping** (`src/core/vig.py`): bookmaker decimal odds become implied
  probabilities that are rescaled to sum to 1, per head-to-head row or per
  bookmaker.

Every random draw is an input of the model, and the rest is deterministic:

| Random step | Input in the model |
|---|---|
| `rng.shuffle`, `std::shuffle` | the swap positions of a Fisher–Yates pass (`Common.IsSwapDraw`) |
| Poisson scorelines | one `RoundRobin.Score` per fixture |
| uniform knockout values | one real per match |

The match model (expected goals, `match_probabilities`, `win_prob`) is a
function parameter, so the properties hold whatever it computes.

Modules:

| Module | File | Contents |
|---|---|---|
| `Common` | `common.dfy` | results, labels, sums, Fisher–Yates shuffles on sequences and in place |
| `Sorting` | `sorting.dfy` | the stable sort (functional insertion sort and an in-place array version), proved to permute and to order |
| `RoundRobin` | `round_robin.dfy` | the fixture schedule and the scoring rule shared by both group stages |
| `GroupStage` | `group_stage.dfy` | Python `play_group` |
| `GroupDraw` | `group_draw.dfy` | Python `make_pots`, `draw_groups` |
| `Knockout` | `knockout.dfy` | the bracket halving shared by `_simulate_knockout` and `play_knock` |
| `Tournament` | `tournament.dfy` | Python `_win_matrix`, `BRACKET_ORDER`, `_knockout_bracket`, `_simulate_knockout`, qualification, best thirds, `simulate_many` |
| `CxxSim` | `cxx_sim.dfy` | the C++ simulator |
| `Vig` | `vig.dfy` | `decimal_to_prob`, `strip_vig_h2h`, `strip_vig_outrights` |

Mutable code is modelled imperatively:

- The C++ team-stat array, the `id` array, the `wins` and `thirds` vectors,
  the Python thirds list that `_knockout_bracket` shuffles, and the win
  matrix are `array`s, updated by methods with loop invariants.
- The Python dictionaries (`pts`, `gd`, `groups`, `win_count`) are `map`
  values that the loops reassign.
- A pandas row that `strip_vig_h2h` writes to is the class `Vig.Row`.

Each such method is proved equal to a specification function. The
properties are then lemmas about that function.

A point the proofs bring out: `RankCmp` ends with the index comparison,
so no two records of a C++ group are ever tied. The `std::shuffle` before
each `std::stable_sort` is meant as a "random tie-break root". It has no
effect on the result, as `CxxSim.RankingIgnoresShuffle` proves.

## Model

| member | source | states |
|---|---|---|
| Common.Label | src/core/group_draw.py:13 | the i-th group label is the letter i places after 'A' |
| Common.ShufflePermutes | src/core/group_draw.py:16 | a shuffle loses and duplicates nothing: the multiset and the membership are kept |
| Common.ShuffleInPlace | src/core/cxx_sim.cpp:70 | the in-place shuffle leaves the array equal to the Fisher–Yates shuffle of its old contents |
| Common.CollectOk | src/core/tournament.py:100-124 | the runs' results are collected exactly when every run succeeds, and then in order |
| Common.CountsSumToLength | src/core/tournament.py:124 | counting the champions over distinct team keys that contain them all accounts for every run once |
| Common.ScaledSum | src/core/tournament.py:126 | dividing every count by n divides their sum by n |
| Common.FractionsSumToOne | src/core/tournament.py:126 | counts that sum to n, each divided by n, sum to 1 |
| Common.DistinctMultiset | src/core/group_draw.py:16 | a permutation of a list without repeats has no repeats |
| Sorting.SortPermutes | src/core/group_stage.py:50-54 | the sort returns a permutation of its input |
| Sorting.SortSorted | src/core/group_stage.py:50-54 | under a strict weak order the sort's output has nothing strictly before an earlier element |
| Sorting.SortedPrefixDominates | src/core/tournament.py:118 | in a sorted sequence nothing after position k beats anything up to k |
| Sorting.SortedUnique | src/core/cxx_sim.cpp:71 | two sorted permutations of the same items under a total order are equal |
| Sorting.SortIgnoresInputOrder | src/core/cxx_sim.cpp:70-71 | under a total order the sorted result does not depend on the input order |
| Sorting.InsertionSort | src/core/cxx_sim.cpp:71 | the in-place stable sort leaves the array equal to the functional sort of its old contents |
| Sorting.InsertLast | src/core/cxx_sim.cpp:71 | one insertion pass puts element i into the sorted prefix and leaves the suffix alone |
| RoundRobin.FixturesAreTheSixPairs | src/core/group_stage.py:27-29 | the double loop visits every unordered pair of the four teams exactly once |
| RoundRobin.FixtureIndex | src/core/group_stage.py:27-28 | each pair i < j has a position in the schedule |
| RoundRobin.FixtureAwardsTwoOrThree | src/core/group_stage.py:37-43 | a fixture awards 3 points in total, or 1 + 1 on a draw |
| RoundRobin.TotalPointsBounds | src/core/group_stage.py:36-43 | a group hands out between 2 and 3 points per fixture played, so 12 to 18 in all |
| RoundRobin.GoalDiffZeroSum | src/core/group_stage.py:46-47 | after any number of fixtures the four goal differences sum to 0 |
| RoundRobin.PointsPerPlayedFixture | src/core/group_stage.py:37-43 | a team has between 0 and 3 points per fixture it has played |
| RoundRobin.PointsBounds | src/core/group_stage.py:27-43 | after the six fixtures each team has 0 to 9 points |
| RoundRobin.Points | src/core/group_stage.py:36-43 | the points team t has after the given fixtures in schedule order: 3 for a win, 1 each for a draw, 0 for a loss |
| RoundRobin.GoalDiff | src/core/group_stage.py:45-47 | team t's goals scored minus goals conceded over the given fixtures |
| RoundRobin.GoalsFor | src/core/cxx_sim.cpp:64-65 | team t's goals scored over the given fixtures |
| RoundRobin.FixtureStep | src/core/group_stage.py:36-47 | playing fixture k adds its points, goal difference and goals to the totals |
| GroupStage.BetterIsStrictWeakOrder | src/core/group_stage.py:50-54 | the tie-break order on (points, goal difference, strength) is a valid sort order |
| GroupStage.Totals | src/core/group_stage.py:23-47 | one record per input team, in input order, with the points and goal difference of the six fixtures and the team's strength |
| GroupStage.GroupTable | src/core/group_stage.py:49-55 | the totals sorted best first by (points, goal difference, strength), returned as (team, points, goal difference); the function `play_group` is proved equal to |
| GroupStage.PlayGroup | src/core/group_stage.py:17-55 | the table is the group's four teams, each once, with 3/1/0 points and goal difference summed over the six fixtures, ordered best first |
| GroupStage.PlayFixtures | src/core/group_stage.py:23-47 | the dictionaries end with every team's points and goal difference from the six fixtures |
| GroupStage.PlayFixture | src/core/group_stage.py:29-47 | one fixture adds its points and goal difference to the two teams and nothing to the others |
| GroupStage.GroupTablePermutesTeams | src/core/group_stage.py:50-55 | the returned table lists exactly the input teams |
| GroupStage.GroupTableCarriesTotals | src/core/group_stage.py:55 | every row carries its team's accumulated points and goal difference |
| GroupStage.GroupTableSorted | src/core/group_stage.py:50-54 | no row is strictly better than a row above it |
| GroupDraw.StrongerIsStrictWeakOrder | src/core/group_draw.py:8 | ordering by descending strength is a valid sort order |
| GroupDraw.ByStrength | src/core/group_draw.py:8 | the field reordered so that no row is stronger than one before it, keeping every row |
| GroupDraw.CutPots | src/core/group_draw.py:9 | pot k is rows k·pot_size to (k+1)·pot_size − 1 of an ordering, clamped like a positional slice, so four pots of at most pot_size |
| GroupDraw.MakePots | src/core/group_draw.py:7-9 | four pots of at most pot_size teams |
| GroupDraw.AnyTieOrderPotsByStrength | src/core/group_draw.py:8-9 | for any strength-sorted ordering, whatever the order of tied strengths, no team of a later pot is stronger than one of an earlier pot |
| GroupDraw.PotsByStrength | src/core/group_draw.py:8-9 | every team of an earlier pot is at least as strong as every team of a later pot |
| GroupDraw.CutPartitions | src/core/group_draw.py:9 | any ordering of 48 rows cuts into four pots of 12 that, laid end to end, give it back |
| GroupDraw.AnyTieOrderPartitionsField | src/core/group_draw.py:7-9 | for any reordering of a 48-team field, whatever the order of tied strengths, the pots hold 12 each and together hold the field |
| GroupDraw.PotsPartitionField | src/core/group_draw.py:7-9 | with 48 teams the pots hold 12 each, laid end to end they are the strength order, and together they hold the field |
| GroupDraw.ShuffledPots | src/core/group_draw.py:14-16 | each pot's name list after its shuffle, as long as the pot |
| GroupDraw.Column | src/core/group_draw.py:17-18 | group i: the i-th name of every pot list that has one, in pot order |
| GroupDraw.DrawGroups | src/core/group_draw.py:12-19 | keys A–L; group i is the i-th team of each shuffled pot in pot order; together the groups hold every pot's teams |
| GroupDraw.DrawPot | src/core/group_draw.py:15-18 | one pot's pass appends its shuffled i-th team to group i |
| GroupDraw.DealPot | src/core/group_draw.py:17-18 | the inner loop appends team i to group i and nothing else |
| GroupDraw.ShuffledPotsKeepTeams | src/core/group_draw.py:14-16 | the shuffled pots hold the same teams as the pots |
| GroupDraw.FullDrawShape | src/core/group_draw.py:12-19 | with four pots of twelve every group has four teams, the k-th from pot k |
| GroupDraw.FullDrawKeepsNames | src/core/group_draw.py:7-19 | the shuffled pots of a 48-team field hold exactly the field's names |
| GroupDraw.FullDrawGroupsDistinct | src/core/group_draw.py:12-19 | with distinct names every group is four different teams of the field |
| Knockout.Pick | src/core/tournament.py:79-82 | the first team of a pairing when the uniform draw is below its win probability, the second otherwise |
| Knockout.Round | src/core/tournament.py:76-83 | a round halves the field |
| Knockout.RoundAdvancesOneOfEachPair | src/core/tournament.py:77-82 | each pairing advances its first team when the draw is below its win probability, otherwise the second |
| Knockout.Champion | src/core/tournament.py:74-84 | on a power-of-two bracket, the team left after halving round by round, each round using the draws after the earlier rounds' |
| Knockout.Outcome | src/core/tournament.py:74-84 | the loop on any bracket: an index error for an empty bracket or an odd round, otherwise the team left after the rounds |
| Knockout.MatchesIsSlotsMinusOne | src/core/tournament.py:75-83 | a knockout of n slots plays n − 1 matches |
| Knockout.Pow2Of32 | src/core/tournament.py:73 | 32 is a power of two, so a 32-team bracket can be played out |
| Knockout.ChampionInBracket | src/core/tournament.py:84 | the champion is one of the bracket's teams |
| Knockout.ChampionUsesFirstDraws | src/core/tournament.py:79 | only the first n − 1 uniform draws influence the champion |
| Knockout.ChampionDependsOnBracketPairs | src/core/tournament.py:79 | only the win probabilities between bracket teams matter |
| Knockout.OutcomeIsChampion | src/core/tournament.py:74-84 | the loop finishes exactly when the bracket size is a power of two, and then returns the champion; otherwise `alive[i+1]` or `alive[0]` fails |
| Tournament.WinTable | src/core/tournament.py:24-35 | the matrix is N × N |
| Tournament.WinMatrix | src/core/tournament.py:24-35 | the filled array is 0.5 on the diagonal and the home-win probability of strength i against strength j elsewhere |
| Tournament.DiagonalNeverUsed | src/core/tournament.py:32 | between two different teams the knockout reads only off-diagonal entries, so the 0.5 is never used |
| Tournament.SimulateKnockout | src/core/tournament.py:70-84 | the loop returns the knockout outcome, including the index error for a non-power-of-two field |
| Tournament.PlayRound | src/core/tournament.py:76-83 | one pass of the loop yields the round's winners, all from the round |
| Tournament.TemplateSlots | src/core/tournament.py:61-62 | one slot per template entry (the source's BRACKET_ORDER or the corrected FULL_BRACKET_ORDER): the team in place pos of group grp |
| Tournament.Bracket | src/core/tournament.py:55-67 | the template slots followed by the shuffled thirds, or an assertion error when they are not 32 |
| Tournament.BracketShape | src/core/tournament.py:55-67 | the bracket succeeds exactly when template slots plus thirds make 32; then the template slots come first and the thirds follow in some order |
| Tournament.KnockoutBracket | src/core/tournament.py:55-67 | the method returns that bracket and leaves the caller's thirds list shuffled |
| Tournament.BracketOrderCoversAToH | src/core/tournament.py:38-52 | the template has 16 entries: the winner and runner-up of each group A–H once |
| Tournament.FullBracketOrderCoversAll | src/core/tournament.py:38-52 | the corrected template has 24 entries: the winner and runner-up of each group A–L once |
| Tournament.TemplatesPairWinnersWithRunnersUp | src/core/tournament.py:39-46 | every round-of-32 pairing sets a group winner against another group's runner-up |
| Tournament.Names | src/core/tournament.py:92 | the team names in row order |
| Tournament.Strengths | src/core/tournament.py:26 | the strengths in row order |
| Tournament.StrengthMap | src/core/tournament.py:107 | one key per team name of the field |
| Tournament.StrengthMapLookup | src/core/tournament.py:107 | with distinct names, each team's strength is looked up in its own row |
| Tournament.IndexMapLookup | src/core/tournament.py:93 | with distinct names, the i-th team's index is i |
| Tournament.FieldMaps | src/core/tournament.py:92-94 | every team of the field is a key of both lookup tables, and its index is a row of the matrix |
| Tournament.DrawnGroups | src/core/tournament.py:102 | twelve groups of four different teams of the field |
| Tournament.Tables | src/core/tournament.py:105-107 | twelve tables of four rows, each a team of its group |
| Tournament.Qualified | src/core/tournament.py:110-114 | group letter to the first two teams of that group's table |
| Tournament.QualifiedStep | src/core/tournament.py:112-114 | each group adds its first two teams under its own letter |
| Tournament.Thirds | src/core/tournament.py:111-115 | one third-placed team per group |
| Tournament.BestThirds | src/core/tournament.py:118-119 | min(8, n) names are taken |
| Tournament.BestThirdsAreBest | src/core/tournament.py:118-119 | the best thirds are the first eight of the thirds sorted by (pts, gd, strength), and none left out beats any of them |
| Tournament.QualifiedFitsTemplate | src/core/tournament.py:61-62 | any template over groups A–L and places 1, 2 can be read from the qualified teams |
| Tournament.RunBracket | src/core/tournament.py:100-122 | a run's bracket: draw, group tables, qualification, best thirds and the bracket builder in turn |
| Tournament.RunChampion | src/core/tournament.py:100-123 | a run's champion: the knockout outcome of its bracket on the win matrix, or the error that ends the run |
| Tournament.RunBracketTeams | src/core/tournament.py:100-122 | a run's bracket exists exactly when the template has 24 entries, and then all 32 slots are teams of the field |
| Tournament.RunChampionOk | src/core/tournament.py:100-123 | a run crowns a champion exactly when the template has 24 entries, and the champion is a team of the field |
| Tournament.PlayGroups | src/core/tournament.py:105-107 | each group's result is its play_group table |
| Tournament.Qualify | src/core/tournament.py:110-115 | the qualified dictionary holds each table's first two, and the thirds list holds each table's third with its key |
| Tournament.PlayRun | src/core/tournament.py:100-123 | one loop pass returns the run's champion or its error |
| Tournament.GroupPhase | src/core/tournament.py:102-115 | the draw, the group play and the qualification give the tables' qualified teams and thirds |
| Tournament.KnockoutPhase | src/core/tournament.py:118-123 | the bracket and knockout give the run's champion or its error |
| Tournament.RunResults | src/core/tournament.py:100-124 | one result per run |
| Tournament.Champions | src/core/tournament.py:100-124 | the champions of the runs in order, or the first run's error, which ends the loop |
| Tournament.ChampionsOk | src/core/tournament.py:100-124 | the loop finishes exactly when there are no runs or the template has 24 entries, and then yields one field team per run |
| Tournament.ChampionTable | src/core/tournament.py:126-127 | one row per team, in field order: the team and its titles divided by n_runs |
| Tournament.ShareRows | src/core/tournament.py:126-127 | the rows built from the tally dictionary, one per team |
| Tournament.HigherProbIsStrictWeakOrder | src/core/tournament.py:128 | ordering by descending share is a valid sort order |
| Tournament.ChampionTableSumsToOne | src/core/tournament.py:126-127 | with one field champion per run the shares sum to 1 |
| Tournament.SharesAreScaledCounts | src/core/tournament.py:126 | each share is the team's number of titles divided by n_runs |
| Tournament.TalliedRows | src/core/tournament.py:124-127 | the tally dictionary gives the champion table |
| Tournament.SortedTable | src/core/tournament.py:126-128 | the sorted table is a permutation of the champion table, ordered by share, summing to 1 |
| Tournament.SimulateMany | src/core/tournament.py:87-128 | fails exactly when a run fails; otherwise returns a permutation of the champion table, most likely champion first, with shares summing to 1 |
| Tournament.TallyChampions | src/core/tournament.py:96-124 | fails exactly when the run loop fails; otherwise `win_count[t]` is the number of runs t won |
| Tournament.TallyStep | src/core/tournament.py:124 | `win_count[champ] += 1` keeps the tally of the champions so far |
| Tournament.AsWrittenSimulateManyFails | src/core/tournament.py:38-52 | with the 16-entry template every call fails |
| Tournament.CorrectedSimulateManySucceeds | src/core/tournament.py:55-67 | with the 24-entry template every run crowns a champion |
| CxxSim.KFactIsFactorial | src/core/cxx_sim.cpp:19 | KFACT[k] is k! for k = 0..8 |
| CxxSim.RankCmpIsStrictWeakOrder | src/core/cxx_sim.cpp:47-52 | rank_cmp is a valid `std::stable_sort` comparator |
| CxxSim.RankCmpIsTotal | src/core/cxx_sim.cpp:47-52 | rank_cmp is the lexicographic order on (−pts, −gd, −gf, id), and of two records with different ids exactly one comes first |
| CxxSim.GroupStats | src/core/cxx_sim.cpp:59-69 | four records carrying the group's indices in order |
| CxxSim.Ranking | src/core/cxx_sim.cpp:70-71 | a group's four records, shuffled with the draw and then stably sorted by rank_cmp |
| CxxSim.GroupGoalDiffZeroSum | src/core/cxx_sim.cpp:64-65 | a group's goal differences sum to 0 |
| CxxSim.GroupPointsTotal | src/core/cxx_sim.cpp:66-68 | a group hands out 12 to 18 points |
| CxxSim.RankingSortsTheGroup | src/core/cxx_sim.cpp:70-71 | the final order is sorted by rank_cmp and permutes the records, so its ids permute the group |
| CxxSim.StatsTotallyRanked | src/core/cxx_sim.cpp:51 | different records of a group are strictly ordered one way |
| CxxSim.RankingIgnoresShuffle | src/core/cxx_sim.cpp:70-71 | the final order is the same whatever the shuffle drew |
| CxxSim.PlayGroup | src/core/cxx_sim.cpp:53-75 | appends the ranked first and second indices to top2 and returns the third record |
| CxxSim.PlayMatches | src/core/cxx_sim.cpp:60-69 | the array ends with the records of the six fixtures |
| CxxSim.PlayMatch | src/core/cxx_sim.cpp:63-68 | match k takes the records after k fixtures to those after k + 1 |
| CxxSim.ScoreMatch | src/core/cxx_sim.cpp:64-68 | each team's record gains what the scoreline gives it: goals for, goal difference, 3/1/0 points |
| CxxSim.MatchStep | src/core/cxx_sim.cpp:64-68 | a credited match extends the records by one fixture |
| CxxSim.PlayKnock | src/core/cxx_sim.cpp:77-91 | on a power-of-two bracket returns the knockout champion, who is one of the teams |
| CxxSim.PlayKnockRound | src/core/cxx_sim.cpp:82-88 | one pass of the outer loop yields the round's winners |
| CxxSim.Iota | src/core/cxx_sim.cpp:98 | 0, 1, …, n − 1 |
| CxxSim.Seating | src/core/cxx_sim.cpp:97-99 | the 48 indices 0..47 after their shuffle |
| CxxSim.GroupIdx | src/core/cxx_sim.cpp:104 | group g is the indices at positions 4g to 4g+3 of the seating |
| CxxSim.TopTwos | src/core/cxx_sim.cpp:103-108 | `ko32` after n groups: two indices per group |
| CxxSim.Thirds | src/core/cxx_sim.cpp:103-108 | the thirds after n groups: one record per group |
| CxxSim.RankedThirds | src/core/cxx_sim.cpp:110-111 | the twelve thirds, shuffled and then stably sorted by rank_cmp |
| CxxSim.Ko32 | src/core/cxx_sim.cpp:101-112 | the knockout field: the groups' top two in group order, then the ids of the first eight ranked thirds |
| CxxSim.TournamentOnce | src/core/cxx_sim.cpp:93-116 | the knockout champion of `ko32` under win_prob |
| CxxSim.SeatingIsPermutation | src/core/cxx_sim.cpp:97-99 | the shuffled `id` array holds every index 0..47 once |
| CxxSim.GroupsPartitionTheField | src/core/cxx_sim.cpp:103-104 | the twelve groups are four distinct teams each, disjoint, and cover 0..47 |
| CxxSim.GroupRankingInField | src/core/cxx_sim.cpp:104-106 | every ranked id of a group is one of the 48 |
| CxxSim.TopTwosStep | src/core/cxx_sim.cpp:106 | each group appends its first and second to `ko32` |
| CxxSim.Ko32Shape | src/core/cxx_sim.cpp:101-115 | `ko32` has 24 + 8 = 32 team indices, so play_knock halves it to a champion who is one of them |
| CxxSim.BestThirdsAreBest | src/core/cxx_sim.cpp:110-112 | the eight thirds taken are sorted by rank_cmp, the thirds are kept, and none of the four left out ranks ahead of a chosen one |
| CxxSim.RankedPrefix | src/core/cxx_sim.cpp:110-112 | after shuffling and sorting, the first n are sorted and none of the rest ranks ahead of them |
| CxxSim.SimulateTournamentOnce | src/core/cxx_sim.cpp:93-116 | returns the tournament's champion index |
| CxxSim.PlayGroups | src/core/cxx_sim.cpp:103-108 | the group loop gives every group's top two and third |
| CxxSim.AddBestThirds | src/core/cxx_sim.cpp:110-112 | appends the ids of the first eight sorted thirds |
| CxxSim.ChampionInField | src/core/cxx_sim.cpp:115 | a champion is one of the 48 indices |
| CxxSim.Champions | src/core/cxx_sim.cpp:125-126 | one champion index per run, in run order |
| CxxSim.Wins | src/core/cxx_sim.cpp:123-128 | one count per index |
| CxxSim.Shares | src/core/cxx_sim.cpp:129-131 | one share per index: its wins divided by n_runs |
| CxxSim.Dict | src/core/cxx_sim.cpp:129-131 | one key per team name; a repeated name keeps its last value |
| CxxSim.DictLookup | src/core/cxx_sim.cpp:129-131 | with distinct names each name maps to its own index's value |
| CxxSim.WinsSumToRuns | src/core/cxx_sim.cpp:123-128 | the win counts sum to n_runs |
| CxxSim.SharesSumToOne | src/core/cxx_sim.cpp:129-131 | the shares sum to 1 |
| CxxSim.SimulateMany | src/core/cxx_sim.cpp:118-133 | the dictionary maps each name to its index's share of the runs |
| CxxSim.CountWins | src/core/cxx_sim.cpp:123-128 | `wins` ends as the number of runs each index won |
| CxxSim.RunOnce | src/core/cxx_sim.cpp:126 | the r-th run yields its champion, an index 0..47 |
| CxxSim.Tally | src/core/cxx_sim.cpp:127 | `++wins[champ]` extends the count by one run |
| CxxSim.WinsAt | src/core/cxx_sim.cpp:123-128 | wins[x] is the number of runs index x won |
| CxxSim.TeamShares | src/core/cxx_sim.cpp:129-132 | with distinct names, each name maps to its index's titles divided by n_runs, and the 48 values sum to 1 |
| Vig.DecimalToProb | src/core/vig.py:7-8 | the implied probability times the price is 1 |
| Vig.EvenMoneyIsHalf | src/core/vig.py:7-8 | a price of 2.0 implies one half |
| Vig.Reciprocals | src/core/vig.py:15 | element-wise decimal_to_prob |
| Vig.Normalise | src/core/vig.py:18 | every probability divided by their common sum, one per probability |
| Vig.NormaliseSumsToOne | src/core/vig.py:18 | the rescaled probabilities sum to 1 |
| Vig.NormaliseTimesTotal | src/core/vig.py:18 | every rescaled entry times the sum gives back the entry |
| Vig.NormaliseKeepsRatios | src/core/vig.py:18 | rescaling keeps every ratio between two entries |
| Vig.ColumnsDiffer | src/core/vig.py:12-22 | each probability column is its price column with "_odds" replaced by "_prob", and the six names are different |
| Vig.Present | src/core/vig.py:14 | the non-missing prices among the first k columns, at most k of them |
| Vig.StripVigH2H | src/core/vig.py:11-24 | the row result: KeyError for an absent price column, TypeError for a text price, the row unchanged when the reciprocals sum to 0, otherwise the row with the probability columns of its present prices rescaled |
| Vig.H2HFails | src/core/vig.py:13-15 | the row is rejected exactly when a price column is absent (KeyError) or holds text (TypeError) |
| Vig.H2HZeroSumUnchanged | src/core/vig.py:16-17 | when the reciprocals sum to 0 the row comes back unchanged |
| Vig.H2HAllMissingUnchanged | src/core/vig.py:14-17 | a row with every price missing comes back unchanged |
| Vig.H2HRescales | src/core/vig.py:18-24 | each present price's probability column is its reciprocal over the common sum; nothing else is written |
| Vig.H2HThreeWaySumsToOne | src/core/vig.py:11-24 | with all three prices quoted and positive the three probabilities sum to 1 |
| Vig.H2HSumsToOne | src/core/vig.py:12-24 | whenever the row is rescaled, the probabilities written for its present prices, in column order, sum to 1, whichever of the three are quoted |
| Vig.FilledProbs | src/core/vig.py:19-23 | the probability cells of the present prices, in column order, one per present price |
| Vig.FilledProbsPrefix | src/core/vig.py:19-23 | when the i-th present price's column holds adj[i], the filled cells are the first values of adj |
| Vig.Row.constructor | src/core/vig.py:11 | a row holds the given cells |
| Vig.StripVigH2HRow | src/core/vig.py:11-24 | the row is updated in place to the specified result and returned, or left alone on an error |
| Vig.CollectOdds | src/core/vig.py:14-15 | fails exactly when the function fails, with the same error, and otherwise gives the present prices in column order |
| Vig.WriteProbs | src/core/vig.py:19-23 | the write loop fills the probability columns of the present prices with a running index |
| Vig.Written | src/core/vig.py:19-23 | the row after the write loop has visited the first k price columns, the running index counting the present prices |
| Vig.WrittenCells | src/core/vig.py:19-23 | the i-th present price's column gets adj[i], and every other cell is kept |
| Vig.StrLessIsStrictWeakOrder | src/core/vig.py:30 | Python's string order is a strict total order |
| Vig.Dedup | src/core/vig.py:30 | the distinct bookmakers, each once |
| Vig.GroupKeys | src/core/vig.py:30 | the distinct bookmakers sorted in Python string order: the order the grouping visits them |
| Vig.GroupKeysSpec | src/core/vig.py:30 | the groups are visited once per distinct bookmaker, in strictly ascending order |
| Vig.Group | src/core/vig.py:30 | a group's rows are rows of the table with that bookmaker |
| Vig.GroupSize | src/core/vig.py:30 | a bookmaker's group has one row per occurrence |
| Vig.GroupSumPositive | src/core/vig.py:31-32 | a group with positive prices has a positive reciprocal sum |
| Vig.Priced | src/core/vig.py:31-34 | the copy has as many rows as the group |
| Vig.Blocks | src/core/vig.py:30-35 | one rescaled copy per bookmaker group, in key order |
| Vig.Flatten | src/core/vig.py:36 | the blocks laid end to end |
| Vig.FlattenLength | src/core/vig.py:36 | the concatenation has as many rows as its blocks together |
| Vig.StripVigOutrights | src/core/vig.py:27-36 | the table result: an error when there are no groups to concatenate, otherwise the blocks laid end to end |
| Vig.OutrightsFails | src/core/vig.py:36 | only an empty table is rejected (pd.concat of no frames) |
| Vig.OutrightsKeepRowCount | src/core/vig.py:27-36 | a non-empty table gives as many rows as it has |
| Vig.BlockCopiesRows | src/core/vig.py:30-35 | block k is bookmaker k's rows in table order, with the price and other cells copied and `implied_prob` set to the reciprocal over the bookmaker's sum |
| Vig.BlockSumsToOne | src/core/vig.py:31-34 | each bookmaker's implied probabilities sum to 1 |
| Vig.StripVigOutrightsTable | src/core/vig.py:27-36 | the loop builds the specified result |

## Left out

- GroupDraw.MakePots: the strength sort is not stable (pandas `sort_values` with its default algorithm), so teams of equal strength may come out in any order; the model keeps them in input order. GroupDraw.AnyTieOrderPotsByStrength and GroupDraw.AnyTieOrderPartitionsField prove the two pot properties for every strength-sorted ordering of the field, so they hold whatever order the source leaves ties in.
- The match model (`expected_goals`, `match_probabilities`, `pois`, `sample_match`, `win_prob` in src/core/match_model.py and src/core/cxx_sim.cpp:20-43): `win_prob` and the home-win probability are function parameters, and the Poisson scorelines are inputs. `KFACT` is modelled only as a table.
- The random generators (`np.random.Generator`, `std::mt19937`, `std::generate_canonical`): every draw is an input. The model does not capture the draws' distributions, only their shape (e.g. a Fisher–Yates swap index in range).
- The pybind glue, `_cxx.py`, the app and the data fetchers: these are I/O and bindings.
- Floating point: prices, strengths and shares are `real`. Rounding, NaN and infinity are not modelled.
- Tournament.SimulateMany, CxxSim.SimulateMany: require at least one run. With `n_runs = 0` the source divides by zero: every share is NaN, in Python and in C++ (`0.0 / 0`).
- Tournament.SimulateMany: the order among rows of equal share is whatever `sort_values` produces (its default sort is not stable). The model uses a stable insertion sort and proves only that the result is a permutation, sorted by share.
- Tournament.ValidField, Tournament.SimulateMany: the model requires a field of exactly 48 rows with distinct team names, the size the source is written for. With repeated names, `set_index("team")` lookups return several rows and the dictionaries merge keys. With more than 48 rows the source does not fail: `make_pots` still cuts four pots of twelve, so only the 48 strongest rows are drawn, and every other team keeps a title count of 0 and a share of 0. That larger field, which the callers pass when bookmakers quote more teams, is not modelled. With fewer than 48 rows the pots run short and `play_group` fails with an index error, which is not modelled either.
- CxxSim.SimulateMany: requires exactly 48 teams and 48 strengths. With more, the source stays in range: only the first 48 indices are ever seated and read, so every later name gets share 0.0; that larger input is not modelled. Only with fewer than 48 teams or strengths does it read or write out of range (`s[0..47]` and `wins[champ]`), which is undefined behaviour.
- CxxSim.PlayKnock: requires a power-of-two bracket. On other sizes the source reads `teams[i+1]` past the end, which is undefined behaviour. `simulate_tournament_once` always passes 32.
- CxxSim.SimulateTournamentOnce: the champion index goes through `std::to_string` and `std::stoi` in the source. The model returns the int directly.
- Vig.DecimalToProb, Vig.StripVigH2H, Vig.StripVigH2HRow: require non-zero prices. With Python floats a zero price raises ZeroDivisionError; with NumPy float64 it gives an infinite probability and then NaN. Neither outcome is modelled.
- Vig.StripVigOutrightsTable: requires positive prices. It also does not model rows whose bookmaker is NaN, which `groupby` drops, because a bookmaker is a string here.
- Vig.Row: a pandas row is a map from column names to cells. Column order and dtype changes are not modelled.

## Findings

The template `BRACKET_ORDER` holds only the winners and runners-up of
groups A–H: 16 entries. With the 8 best thirds, `_knockout_bracket` collects
24 teams, so `assert len(slots) == 32` fails on every run. The comment in
the template ("fill remaining 16 slots with best third-placed teams") is also
inconsistent with taking 8 thirds. The intended template, the one the
module's docstring describes, also places groups I–L. `FULL_BRACKET_ORDER`
adds eight entries for them, paired the way A–H are. The rest of the model
uses that template.

| source | as written | input that shows it | evidently intended | confidence | as-written member | corrected member |
|---|---|---|---|---|---|---|
| src/core/tournament.py:38-52 | 16 template entries plus 8 best thirds give a 24-team bracket, and the assertion at line 66 fails | any call of simulate_many with n_runs ≥ 1 | 24 template entries (winners and runners-up of all twelve groups) plus 8 thirds = 32 | not executed | Tournament.AsWrittenSimulateManyFails | Tournament.CorrectedSimulateManySucceeds |
