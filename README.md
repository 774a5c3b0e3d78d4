# SciolyPredictions scoring core in Dafny

This project models the scoring engine of SciolyPredictions, which predicts
rankings for multi-event Science Olympiad tournaments. Its input is a
tournament's teams, events and placings, already loaded. The model covers:

- how placings are normalised into per-team score lists, sums and averages (`Results`);
- the three "bombed event" detectors: mean, standard deviation and IQR (`Detectors`, `Stats`);
- the drop algorithm and the per-school capped view of the `Drops` class (`DropsModel`);
- super-scoring of a school across its divisional teams (`SuperScore`);
- the weighted rank aggregation and competitiveness ratio of a tournament (`TournamentModel`);
- the older stand-alone `main` in the top-level `drops.py` (`LegacyDrops`).

Python exceptions are modelled as `Err` results (or `Some(error)` failures for
methods that change state). Each exception is named (`KeyError`, `ValueError`,
`IndexError`, `ZeroDivisionError`, `NotImplementedError`, `AttributeError`) and
raised under the same condition, in the same order, as in the code.

Modules:

- `Common`: option/result datatypes, integer and real sums, `list.index`, order-keeping deduplication.
- `StableSort`: Python's stable `sorted` with a key, proved to return a sorted permutation that keeps equal-key items in their original order.
- `Stats`: numpy's `mean`, population variance (`std` squared) and linear-interpolation `quantile`, plus Python's `round` of an integer ratio (half to even).
- `Results`: the fields `Results._populate` sets, computed by `Populate` (a method with the placement loop) and described by `PopulatedFrom`.
- `Detectors`: the three flag rules and the detection walk over the placings, shared by the class and the script.
- `DropsModel`: the class `Drops` with its fields. The detectors, `drop`, `__handle_model` and `ret_scores` are methods on it, proved against list functions (`DropMaxima`, `Dropped`, `SchoolBest`).
- `SuperScore`: the class `SuperScoreModel`. `_aggregate_scores` is proved against the fold `Aggregate`, and `Aggregate` against the minimum `BestPlace`.
- `TournamentModel`: the class `Tournament`. It covers the model registry keyed by weight, `aggregate` (proved against `Total` and `WeightedPositions`), `set_comp` and `tourney_weight`.
- `LegacyDrops`: the script keyed by school name. It covers its negative-index list access, the pooling of divisions into one entry, and the shallow copy that lets dropping mutate `full_scores`.

Where the code does not do what its design suggests, the model follows the code:

- `Mean`, `Iqr` and `StdDeviation` pass their `alpha` to `Drops` as the method name. Their construction therefore always raises `KeyError` at the dispatch lookup. A `Tournament` that lists one of them fails in `setup`. Their detection loops, and the `super().method()` that has no target, are still modelled (`DropsModel.Drops.SubclassMethod`).
- The detectors look a placing's team up before they test for a trial event. A placing with an unknown team therefore raises `KeyError` in detection, and in super-scoring, even when its event is a trial. `_populate` raises `KeyError` only for scored placings.
- When every event is a trial event, `averages` divides a numpy value by zero. That gives `inf` or `nan`, not an exception. `Average` models those values. The mean rule then flags a placing only when the average times alpha is `-inf`.
- `set_comp` is described as the number of teams that competed at nationals over the total number of teams. The code divides the number of distinct schools shared with the nationals list by the number of team entries. A school that brings two teams is counted once above the line and twice below it, so the ratio stays below 1 (`TournamentModel.Competitiveness` gives 1 only when the schools are distinct).
- In `SuperScoreModel`, `_pre_aggregate_scores` is assigned only inside the placing loop, and the attribute's default is set only after `_populate` has run. A results file with teams but no placings therefore raises `AttributeError`.

## Model

| member | source | states |
|---|---|---|
| Common.IndexOf | src/superscore.py:61 | `list.index`: none exactly when the item is absent; otherwise the first position holding it |
| Common.Dedup | src/tournament.py:62-63 | first-occurrence order of dict keys: no repeats, exactly the same items, never longer |
| Common.DedupOrder | src/tournament.py:62-63 | the kept items appear in the order of their first occurrences |
| Common.DedupDistinct | src/tournament.py:62-63 | a list without repeats comes back unchanged |
| StableSort.SortFacts | src/drops.py:96 | `sorted` with a key returns a permutation, ascending by key, with the items of each key in their original order |
| StableSort.SortSameItems | src/superscore.py:47 | sorting neither adds nor loses an item |
| Stats.Variance | src/drops.py:71 | the population variance under `np.std` is never negative |
| Stats.StdFenceMeaning | src/drops.py:70-73 | the square-root-free test holds exactly when place > mean + alpha·sd, for the non-negative sd whose square is the variance, for any sign of alpha |
| Stats.StdFenceAntitone | src/stddeviation.py:13-17 | raising alpha never adds a flagged place |
| Stats.SortInts | src/iqr.py:12-13 | the sorted copy `np.quantile` works on is an ascending permutation of the scores |
| Stats.InterpolateBounds | src/iqr.py:12-13 | a linear-interpolated quantile lies between the two neighbouring sorted values, and equals the lower one at an integer index |
| Stats.QuartilesOrdered | src/iqr.py:12-15 | q1 ≤ q3, so the interquartile range is never negative |
| Stats.InterpolateMonotone | src/iqr.py:12-13 | a later virtual index never interpolates to a smaller value |
| Stats.IqrFenceMonotone | src/iqr.py:15 | the IQR threshold never decreases with alpha and is at least q3 for alpha ≥ 0 |
| Stats.RoundHalfEven | src/drops.py:84-87 | `round(num/den)` is within half of the ratio, is even at an exact half, and is non-negative for non-negative totals |
| Results.DisplayName | utils/results.py:40 | a team name is the school, a space, then the suffix; with no suffix it ends in the space |
| Results.Schools | utils/results.py:62 | `team_names` holds exactly the schools of the teams, without suffixes |
| Results.KeyedByNumber | utils/results.py:39-42 | the dict comprehension has exactly the team numbers as keys |
| Results.KeyedByNumberLastWins | utils/results.py:39-42 | for a repeated team number, the dict keeps the value of its last entry |
| Results.EventNames | utils/results.py:43 | `events` lists every event name in file order |
| Results.TrialNames | utils/results.py:44-48 | `trial_events` holds exactly the names of events flagged as trial, never more names than events |
| Results.TrialNamesAppend | utils/results.py:44-48 | the comprehension works event by event: a concatenation gives the concatenated names, and one event gives its name iff it is a trial, so order and repeats follow the events |
| Results.NonTrial | src/drops.py:45-47 | `_non_trials` holds exactly the events that are not trial events, never more than the events |
| Results.NonTrialAppend | src/drops.py:45-47 | the filter works name by name: a concatenation gives the concatenated results, and one name is kept iff it is not a trial, so order and repeats follow the input |
| Results.ScoresOf | utils/results.py:50-54 | every score listed for team t comes from one of t's non-trial placings, with a missing place counted as the sentinel |
| Results.ScoresOfComplete | utils/results.py:50-54 | every non-trial placing of t contributes its place (or the sentinel) to t's list |
| Results.ScoresOfAppend | utils/results.py:50-54 | the list is built placing by placing: a concatenation gives the concatenated lists, and one placing contributes its place iff it is a scored placing of t, so order and repeats follow the placings |
| Results.RecordPlacing | utils/results.py:49-55 | one turn of the placement loop: fails exactly for a scored placing of an unknown team, otherwise keeps the keys and extends each list to the places of one more placing |
| Results.BuildFullScores | utils/results.py:49-55 | the placement loop raises KeyError exactly when a non-trial placing names an unknown team; otherwise each team's list is its placings' places in order |
| Results.SumsOf | utils/results.py:56 | `score_sum[t]` is the sum of `full_scores[t]` for every team |
| Results.AveragesOf | utils/results.py:57-60 | `averages[t]` is `score_sum[t]` divided by the number of non-trial events, with numpy's inf/nan on a zero count |
| Results.SortedNumbers | utils/results.py:38 | sorting the teams by number keeps exactly the same team numbers |
| Results.TeamKeys | utils/results.py:38-42 | `teams` has one key per distinct team number |
| Results.Populate | utils/results.py:36-62 | raises KeyError exactly when a non-trial placing names an unknown team; otherwise every field is as `PopulatedFrom` describes |
| Results.Assemble | utils/results.py:36-62 | assembling the fields from the per-team lists meets `PopulatedFrom` |
| Results.AssembledTeams | utils/results.py:38-48 | the team and event fields are built from the sorted teams and the events as described |
| Results.AssembledScores | utils/results.py:49-60 | the score lists, sums and averages are built as described |
| Results.WalkEvents | utils/results.py:104-110 | `walk_events` yields exactly the non-trial events (in event order, by NonTrialAppend) |
| Results.WalkedEventsAreNonTrial | utils/results.py:104-110 | an event is walked exactly when it is listed and no listing of it is a trial |
| Results.SchoolOrder | utils/results.py:62 | one entry per school of the teams, no repeats |
| Results.SchoolList | drops.py:14 | the script's team list holds each team entry's school, in file order |
| Results.Entries | src/superscore.py:68-70 | each school of the order is paired with its value from the dict |
| Results.SchoolsPresent | utils/results.py:62 | the schools of the sorted teams are exactly the schools of the file |
| Results.SchoolOfTeam | src/superscore.py:27-29 | every team number's school is one of `team_names` |
| Detectors.RunMeaning | src/drops.py:49-76 | a detection walk fails iff some placing's lookup or statistic fails; otherwise each team's list grows by exactly its flagged events, in placing order |
| Detectors.RunKeys | src/drops.py:41 | detection never adds or removes a team key of `bombed_events` |
| Detectors.RunStopsAtFailure | src/drops.py:49-76 | once a placing raises, the lists stay as they were at that point |
| Detectors.TrialNeverFlagged | src/mean.py:13 | no trial event is ever appended, whatever the rule or alpha |
| Detectors.FlagAntitone | src/mean.py:12 | with a larger alpha, a placing that is flagged was also flagged with the smaller one (for non-negative averages under the mean rule), and the lookup errors are the same |
| Detectors.FlaggedCountAntitone | src/mean.py:8-15 | raising alpha never increases the number of flagged events of a team |
| Detectors.StdWorkedExample | src/stddeviation.py:13-17 | scores [1,1,1,1,5] with alpha 1 flag the 5 and not the 1s or a 3 |
| Detectors.IqrWorkedExample | src/iqr.py:12-15 | scores [2,4,4,4,5] with alpha 1.5 give the threshold 4 (q1 = q3 = 4), so place 5 is flagged and place 4 is not |
| DropsModel.Max | src/drops.py:92 | `max` returns an element that no element exceeds |
| DropsModel.RemoveFirstMax | src/drops.py:92 | `remove(max(...))` removes exactly one copy of the maximum |
| DropsModel.RemoveFirstMaxIsFirst | src/drops.py:92 | the copy removed is the first occurrence of the maximum, and the other entries keep their order |
| DropsModel.DropMaximaSplits | src/drops.py:90-92 | after k rounds, the kept and the removed entries together are exactly the original list |
| DropsModel.DropMaximaLargest | src/drops.py:90-92 | every removed entry is at least every kept one |
| DropsModel.DropMaximaSum | src/drops.py:90-94 | the remaining sum is the original sum minus the removed entries |
| DropsModel.DropMaximaSumBounded | src/drops.py:90-94 | with non-negative places, the sum after dropping is non-negative and at most the sum before |
| DropsModel.Totals | src/drops.py:94 | `score_with_drops` pairs each team with the sum of its current list |
| DropsModel.SchoolBestIsMinimum | src/drops.py:104-107 | a school's value is at most the cap and every sum of its teams, and equals the cap or one of those sums |
| DropsModel.BestTotals | src/drops.py:104-107 | the min-update loop leaves exactly the school names as keys, each holding that minimum |
| DropsModel.RuleOf | src/drops.py:21-25 | the dispatch succeeds exactly for "std_deviation", "mean" and "iqr", each selecting its own rule; anything else is KeyError |
| DropsModel.AlphaOf | src/drops.py:26 | `alpha or 2`: a given non-zero alpha is kept, and a missing or zero one becomes 2 |
| DropsModel.RunRule | src/drops.py:49-76 | the detection loop ends where the walk `Run` ends: same lists, same exception |
| DropsModel.RuleStep | src/drops.py:50-57 | one turn of the detection loop is one `Step` of the walk, and keeps the team keys |
| DropsModel.RemoveMaxEach | src/drops.py:91-92 | one round fails with an empty list exactly when some team has none; otherwise every team loses one maximum |
| DropsModel.RemoveRounds | src/drops.py:90-92 | k rounds keep the team keys and fail iff some list is shorter than k; otherwise each list is its k-maxima-dropped version |
| DropsModel.SchoolKeys | src/drops.py:42-44 | `_teams_without_suffix` has exactly the team numbers as keys |
| DropsModel.TeamsPresent | utils/results.py:38-42 | `teams` is empty exactly when the file has no teams, and its keys are the distinct team numbers |
| DropsModel.Drops.Init | src/drops.py:14-47 | a fresh object: `averaged_bombed_events` 0, an empty bombed list per team, not yet dropped, the score lists of `_populate` |
| DropsModel.Drops.New | src/drops.py:14-37 | construction raises KeyError for an unknown scored team or method name, ZeroDivisionError with no teams, and otherwise yields the initial state |
| DropsModel.Drops.Configure | src/drops.py:21-37 | the part after `_populate`: KeyError for a bad method name, ZeroDivisionError with no teams, else the initial state |
| DropsModel.Drops.Detect | src/drops.py:49-76 | the selected detector leaves `bombed_events` and its exception exactly as the walk `Run` gives them |
| DropsModel.Drops.SubclassMethod | src/mean.py:8-17 | a subclass's `method` always raises: the walk's exception, or AttributeError from `super().method()` after a clean walk |
| DropsModel.Drops.Drop | src/drops.py:78-98 | `drop` runs detection, then sets `to_drop` to the rounded mean bombed count; it raises ValueError, and only ValueError, iff some list is shorter than that, and otherwise trims every list by `to_drop` maxima and stores the sums in ascending order |
| DropsModel.Drops.DropCounted | src/drops.py:84-98 | the part of `drop` after detection, with the same outcome |
| DropsModel.Drops.RemoveMaxima | src/drops.py:90-92 | k rounds fail iff some list is shorter than k; otherwise each list is its k-maxima-dropped version |
| DropsModel.Drops.RetScores | src/drops.py:101-116 | each school gets the minimum of the cap and its teams' current sums; the result is NotImplementedError before `drop`, else sorted ascending |
| SuperScore.Blank | src/superscore.py:50-56 | every school starts with one slot per non-trial event, each holding the sentinel |
| SuperScore.Place | src/superscore.py:57-64 | one placing keeps every school and slot count; a failure is KeyError, ValueError or IndexError |
| SuperScore.PlaceOne | src/superscore.py:57-64 | the in-place slot update agrees with `Place` |
| SuperScore.Fault | src/superscore.py:58-61 | a placing fails iff its team is unknown (KeyError) or its event is neither trial nor listed (ValueError) |
| SuperScore.Aggregate | src/superscore.py:49-65 | the loop keeps every school and slot count; a failure is one of the three lookup errors |
| SuperScore.BestPlaceIsMinimum | src/superscore.py:61-64 | a slot is at most its start and every counted place of the school in that event, and equals one of them |
| SuperScore.BestPlaceAntitone | src/superscore.py:61-64 | one more placing never raises a slot |
| SuperScore.PlaceFault | src/superscore.py:58-64 | a placing fails in the update exactly when it has a fault, with that fault's exception |
| SuperScore.PlaceValue | src/superscore.py:61-64 | a counted placing lowers the slot to `min(slot, place)`, and every other slot is unchanged |
| SuperScore.AggregateFaults | src/superscore.py:57-65 | the loop succeeds iff no placing has a fault; on failure it raises the first faulty placing's exception |
| SuperScore.AggregateStops | src/superscore.py:57-65 | once a placing raises, later placings change nothing |
| SuperScore.AggregateIsBest | src/superscore.py:49-65 | after the loop, every slot is the best place the school got in that event, or the sentinel |
| SuperScore.BestPlaceOrderFree | src/superscore.py:57-64 | a slot's best place does not depend on the order of the placings |
| SuperScore.AggregateOrderFree | src/superscore.py:57-65 | reordering the placings changes neither whether the loop fails nor the slots it leaves |
| SuperScore.Totals | src/superscore.py:68-70 | a school's super score is the sum of its slots |
| SuperScore.SuperScoreBounded | src/superscore.py:50-70 | a super score is at most the slot count times `len(teams)+1`, and every slot is at most each counted place |
| SuperScore.NonTrialCount | src/superscore.py:53 | non-trial and trial events together never outnumber the events |
| SuperScore.BlankFits | src/superscore.py:50-56 | the starting slots cover every school and non-trial event |
| SuperScore.RawCovered | src/superscore.py:55 | every school of `team_names` has a slot list |
| SuperScore.NewError | src/superscore.py:10-31 | AttributeError only with teams and no placings; no exception with neither |
| SuperScore.SuperScoresOf | src/superscore.py:67-70 | one entry per school of `team_names`, in that order, each paired with its slot sum |
| SuperScore.SuperScoreModel.Init | src/superscore.py:10-29 | the fields `_populate` derives: `teams_without_suffix`, `_non_trials`, school order |
| SuperScore.SuperScoreModel.AggregateScores | src/superscore.py:49-65 | `_aggregate_scores` fails exactly as `Aggregate` does, and stores its slots unless there were no placings |
| SuperScore.SuperScoreModel.CalculateSuperScores | src/superscore.py:67-70 | fails with AttributeError when nothing was aggregated, or KeyError when a school has no slots; otherwise stores each school's slot sum |
| SuperScore.SuperScoreModel.Ranking | src/superscore.py:41-47 | `super_scores` is the same entries, sorted ascending by score, with ties in school order |
| SuperScore.SuperScoreModel.Build | src/superscore.py:22-31 | `_populate`'s two steps fail with the loop's exception, or AttributeError with teams and no placings; otherwise each school's super score is its slot sum |
| SuperScore.SuperScoreModel.New | src/superscore.py:10-31 | construction raises exactly `NewError` and otherwise yields `SuperScoresOf` |
| TournamentModel.EqualModelsShareSlot | utils/results.py:24-31 | result objects compare by weight alone: storing b after a replaces a exactly when `a == b`, whatever their super scores, and otherwise keeps both in order; `<`, `>` and `==` are consistent |
| TournamentModel.RegisterFacts | src/tournament.py:62-63 | storing under a weight keeps the keys distinct, appends a new weight at the end, and replaces the model of an existing weight in place |
| TournamentModel.RegisterAt | src/tournament.py:62-63 | after `models[w] = m`, looking up w gives m |
| TournamentModel.SetupErrorClosedForm | src/tournament.py:42-43 | setup fails iff there are models and either the super-score model fails or any model is a `Drops` subclass |
| TournamentModel.SetupStep | src/tournament.py:42-43 | each model construction in turn decides whether setup fails |
| TournamentModel.SetupStops | src/tournament.py:42-43 | after the first failing model, setup fails with its exception |
| TournamentModel.PositionSumDistinct | src/tournament.py:94-95 | in a ranking without repeats, a team gains weight times its 1-based position, or nothing when absent |
| TournamentModel.TotalIsWeightedPositions | src/tournament.py:92-99 | `prelim[team]` is the sum over models of weight times the team's 1-based position |
| TournamentModel.PrelimKeys | src/tournament.py:86-90 | the keys of `prelim` are exactly the first model's ranking, without repeats |
| TournamentModel.PrelimKeysOrder | src/tournament.py:86-90 | the keys follow the first model's ranking, each at its first position, and are that ranking when it has no repeats |
| TournamentModel.PrelimOf | src/tournament.py:83-100 | `prelim` pairs each key with its weighted position total |
| TournamentModel.RanksFacts | src/tournament.py:100-103 | `ranks` is a permutation of the prelim keys, without repeats, ascending by total, with ties in prelim order |
| TournamentModel.Competitiveness | src/tournament.py:75-79 | ZeroDivisionError iff there are no team entries; otherwise in [0,1], 1 when every entry is a distinct national school, 0 when none is |
| TournamentModel.CommonSchools | src/tournament.py:75-76 | the shared schools never outnumber the entries, match them all when all are distinct national schools, and are none when none are national |
| TournamentModel.MakeModel | src/tournament.py:62 | a model builds exactly when it is a super-score model whose construction succeeds, and fails with that construction's exception otherwise; a built model carries its weight and the super scores of the results |
| TournamentModel.RegisterWeights | src/tournament.py:63 | storing a model under its own weight keeps the keys distinct, adds the weight once, and every stored model still carries the weight it is stored under |
| TournamentModel.StoreModel | src/tournament.py:59-63 | `__self` on a registry: the model's exception and the registry unchanged; or the registry is `Register` of the old one with the model now under w, which carries weight w and `SuperScoresOf(raw)`, every other entry keeping its model, with the keys distinct and every weight matching |
| TournamentModel.Accumulate | src/tournament.py:83-99 | the accumulation raises KeyError iff a later ranking has a team outside the first; otherwise each key holds its weighted position total |
| TournamentModel.AccumulateModel | src/tournament.py:92-99 | one model's ranking adds its weighted positions, or raises KeyError for an unknown team |
| TournamentModel.AddPositions | src/tournament.py:94-95 | each ranked team gains weight × (i+1) in the ranking's order; KeyError for an unknown team |
| TournamentModel.Tournament.Init | src/tournament.py:24-33 | a fresh tournament: no models, zero competitiveness and recentness, empty prelim, no ranks |
| TournamentModel.Tournament.Setup | src/tournament.py:42-43 | the registry loop fails exactly as `SetupError` says; otherwise the keys are the distinct weights in first-seen order |
| TournamentModel.Tournament.SetupOne | src/tournament.py:42-43 | one model construction fails exactly as `SetupError` does, or registers the built model (weight and `SuperScoresOf(raw)`) under its weight, other entries unchanged |
| TournamentModel.Tournament.AddModel | src/tournament.py:59-63 | `__self` fails with the model's exception and stores nothing; or `_models` becomes `Register` of the old dict with the built model, holding `SuperScoresOf(raw)`, under its weight |
| TournamentModel.Tournament.Aggregate | src/tournament.py:82-104 | KeyError iff a later ranking has an unknown team; otherwise `prelim` and `ranks` are the weighted totals and their stable ascending order, computed from the models alone, so a repeat call gives the same ranks |
| TournamentModel.Tournament.TourneyWeight | src/tournament.py:128-130 | with competitiveness in [0,1] and non-negative recentness, the weight lies between 0 and the recentness |
| TournamentModel.Tournament.New | src/tournament.py:17-57 | ValueError unless the weights sum to exactly 1; then the setup exception, or ZeroDivisionError with no teams; otherwise the registry, competitiveness and recentness are as computed |
| TournamentModel.Tournament.Build | src/tournament.py:36-57 | `setup` and `set_comp` fail as described, and otherwise leave the registry keyed by the distinct weights |
| TournamentModel.Tournament.SetRest | src/tournament.py:45-57 | recentness is the given value and competitiveness the ratio, unless the ratio raises |
| TournamentModel.Tournament.SetComp | src/tournament.py:65-80 | `set_comp` stores and returns the ratio, or raises ZeroDivisionError and keeps the old value |
| LegacyDrops.SchoolAt | drops.py:25 | `teams[n - 1]` succeeds iff the index is in Python's range, negative indices included, and otherwise raises IndexError |
| LegacyDrops.NegativeNumbersWrap | drops.py:25 | team numbers 0 and below select schools from the end of the list |
| LegacyDrops.FullScores | drops.py:22-28 | `full_scores` has exactly the schools as keys |
| LegacyDrops.Totals | drops.py:21-26 | `total_scores` has exactly the schools as keys |
| LegacyDrops.TotalIsSum | drops.py:24-28 | `total_scores[s]` is the sum of `full_scores[s]` |
| LegacyDrops.Tally | drops.py:21-28 | the placing loop raises IndexError iff a team number is out of range; otherwise it leaves the totals and lists described |
| LegacyDrops.AddPlacing | drops.py:25-28 | one placing adds to its school's total and list, only for a non-trial event |
| LegacyDrops.Averages | drops.py:33 | every average times the non-trial event count gives the total |
| LegacyDrops.RuleFor | drops.py:69-74 | "std_deviation" and "iqr" select their rule; every other call selects the mean rule |
| LegacyDrops.Empty | drops.py:36 | `bombed_events` starts with every school as a key, each holding an empty list |
| LegacyDrops.Detect | drops.py:37-64 | the detector loop ends where the walk `Run` ends |
| LegacyDrops.RemoveRound | drops.py:83-84 | one round fails iff some list is empty, and otherwise removes one maximum from each |
| LegacyDrops.RemoveMaxima | drops.py:82-84 | `drops` rounds fail iff some list is shorter; otherwise each list is its maxima-dropped version |
| LegacyDrops.DropCount | drops.py:80 | `drops` is within half of the bombed total divided by the length of the team list |
| LegacyDrops.TrimmedOk | drops.py:82-84 | lists trimmed by k maxima each are the successful result of the drop loop |
| LegacyDrops.ScoresAfterDrops | drops.py:9-89 | `main` returns exactly `Outcome` |
| LegacyDrops.DetectAndDrop | drops.py:77-84 | detection followed by dropping gives `Dropping` |
| LegacyDrops.DropStage | drops.py:79-84 | the copy and the drop loop give the lists trimmed by `drops` maxima |
| LegacyDrops.OtherCallsAreMean | drops.py:69-74 | any call name other than "std_deviation" or "iqr" gives the same outcome as "mean" |
| LegacyDrops.MeanAndStdNeverRaise | drops.py:37-64 | once the totals are computed, the mean and std detectors never raise |
| LegacyDrops.IqrRaisesOnEmptyList | drops.py:46-54 | the IQR detector raises, with IndexError, iff some placing's school has an empty score list |
| LegacyDrops.IqrFailureIsIndexError | drops.py:48-49 | when the IQR walk fails, the failure is IndexError |
| LegacyDrops.OutcomeErrors | drops.py:9-89 | besides IQR: IndexError iff a team number is out of range; ZeroDivisionError with no teams or no non-trial events; otherwise ValueError iff some list is shorter than `drops` |
| LegacyDrops.OutcomeLists | drops.py:79-89 | on success, every school's list has lost exactly `drops` entries, the removed ones are at least the kept ones, and the two together are the original list |
| LegacyDrops.TrimmedLists | drops.py:82-84 | trimmed lists keep the keys and split each original into kept and removed maxima |
| LegacyDrops.TeamTotalIsSum | drops.py:24-26 | a team number's running total is the sum of its score list from `Results` |
| LegacyDrops.TeamTotals | drops.py:21-26 | one running total per team number, in order |
| LegacyDrops.SchoolPoolsDivisions | drops.py:21-26 | a school's total pools the totals of all its divisional teams |

## Left out

- Loading YAML and opening files (`_load_data`, `setup`'s read, `set_comp`'s nationals file, the script's `open`). The teams, events and placings are inputs, and the list of national schools is a parameter.
- The date arithmetic behind `recentness` in `setup`. Recentness is a real-valued input.
- `visualize` in `Drops` and `SuperScoreModel`, and every `print`. The script's `score_with_drops` is only printed and is not modelled. The printed average of bombed events divides by the number of teams, and that ZeroDivisionError with no teams is modelled.
- IEEE floating point. Averages, weights, thresholds and ratios are exact reals. So the check that the weights sum to 1 is exact here. Where the float sum is off by one unit in the last place, the source raises ValueError and the model accepts: ten weights of 0.1 added left to right give 0.9999999999999999, as `sum` does before Python 3.12.
- numpy's `mean`, `std` and `quantile` are defined explicitly. The std rule is stated on the variance, so no square root is taken.
- Python's set iteration order for `team_names`. The model uses the schools in first-occurrence order among the sorted teams.
- The second `_populate` call in the `Drops` constructor. It recomputes the same fields from the same file, so it is modelled once.
- The state an object is left in after an exception part-way through a loop. For example, a drop round that raises ValueError has already shortened some lists. Methods that fail report the exception, and make no promise about fields the loop had changed.
- Fields that are set and never read: `_super_placements`, `_super_averages`, `_full_res_wo_suffix`, `non_trial_events` and `_data`.
- Trivial property getters (`teams`, `events`, `models`, `prelim`, `ranks`, `model_list`, `__float__`). Each model field is read directly.
- The default alphas of `Mean`, `Iqr` and `StdDeviation` (2, 1.5 and 2), and `StdDeviation`'s call to `method` from its constructor. Construction fails at the dispatch lookup before either matters.
- utils/teams.py, tests/models.py and src/__init__.py are not part of this model.
- TournamentModel.Tournament.New, TournamentModel.Tournament.Build and TournamentModel.Tournament.Setup state the registry's keys and weights, but not the super scores of the stored models across the whole loop. Each step of the loop (`SetupOne`, `AddModel`, `StoreModel`) states the model it stores and its super scores.
- The default arguments of the script's `main` (`call="std_deviation"`, `alpha=1.5`). The model's `main` takes both explicitly.
- The comparisons `__lt__`, `__gt__` and `__eq__` on `Drops` objects. They are modelled on `SuperScoreModel` only, since `Drops` objects keep the weight 0 and so all compare equal.
- TournamentModel.Tournament.TourneyWeight states the bounds of `competitiveness * recentness`, not the product itself.
- LegacyDrops.Averages states averages as exact reals when the non-trial event count is positive. With no non-trial events the script raises ZeroDivisionError, which `Outcome` reports.
