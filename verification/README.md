# Verified model of the osu! performance calculator

A Dafny model of the parts of the calculator that do not depend on tuned floating-point formulas,
with proofs of what they promise:

- **Hit results** (`osu_hits.dfy`, `mania_hits.dfy`, `taiko_hits.dfy`, `catch_hits.dfy`): from a
  wanted accuracy and partly given counts, `generate_state` tries a few rounded candidates. The
  result is nearest to the accuracy among all legal splits, accounts for every object, and
  generating again returns the same state. `osu_play.dfy`, `mania_play.dfy`, `taiko_play.dfy`,
  `catch_play.dfy` and `plays.dfy` state the same of plays as lists of results: accuracy is what these
  earn of the most they could, and no other play comes nearer.
- **Sorts** (`tandem.dfy`, `sorting.dfy`, `csharp_sort.dfy`, `legacy_sort.dfy`, `decoded_objects.dfy`):
  the tandem sorter with its marked indices, C#'s introspective sort, osu!'s legacy quicksort on sorted
  input, and the order of objects and sounds they leave after decoding.
- **Stacking** (`stacking.dfy`): the heights on every map, pass by pass, and without sliders in one formula.
- **Gradual calculation** (`gradual.dfy`, `osu_gradual.dfy`, `taiko_gradual.dfy`,
  `catch_gradual.dfy`, `mania_gradual.dfy`): every item is the batch calculation of the
  prefix; for osu!taiko it is shown on exactly which maps.
- **Strains** (`strains_vec.dfy`, `descending.dfy`, `strain_skill.dfy`): the run-length list means
  the plain list, up to the difficulty value; section peaks.
- **osu!taiko** (`taiko_objects.dfy`, `taiko_color.dfy`, `taiko_color_reading.dfy`,
  `taiko_convert.dfy`): note indices, colour encoding and how it reads, slider conversion.
- **Control points** (`control_points.dfy`, `timing_section.dfy`): lookup by time, and what decoding
  makes of the lines of the timing section.
- The **ring buffer** (`limited_queue.dfy`) and **osu!mania patterns** (`mania_pattern.dfy`,
  `mania_generators.dfy`).

`rounding.dfy`, `remainders.dfy`, `orders.dfy` and `wrappers.dfy` hold what these share.

Numbers: `f64` and `f32` are `real`, `u32` and `usize` are `nat` with every subtraction proved safe
or written as saturating, `x.floor() as u32` is `FloorU32`. A quotient by zero is infinite or not a
number as in the source where a search can meet it. `usize` is 64 bits wide where marks are set in it.
Random numbers, the per-object work of skills and strain formulas are parameters: any function.

Where the code and its description differ, the code is followed:

- The gradual osu!taiko calculation does not agree with the batch calculation on every map;
  `TaikoGradual.AgreesExactlyIf` says on which it does: those with less than three objects and no hit,
  and those with at least three of which the first two are hits. `TaikoGradual.Disagrees` gives the
  first wrong item of every other map, and `TaikoGradual.LenIsSafeExactlyIf` says on which maps the
  length is safe to ask for.
- The gradual osu!, osu!mania and osu!catch calculations of an empty map have length one, and no item.
- After zeros have been dropped the length of a strain list is stale, unless there were none.
- A streak of osu!taiko notes may start with an object that is no note; see
  `TaikoColor.StreakHasOneColor`.
- Skipping redundant control points can lose something if points are not added in time order: for
  some values exactly if a time that a later one falls short of does not come again behind that one
  (`ControlPoints.LosesNothingExactlyIf`). `ControlPoints.SomeLost` gives such values. Even in time
  order the BPM multiplier, which is not compared, can be lost where velocities are equal or clamped:
  `ControlPoints.MultiplierIsKeptExactlyIf` and, at an input, `ControlPoints.ClampedMultiplierIsLost`.
- Searches for a free column can fail outside the loops named below: with eight columns, exactly when
  the previous pattern has left the special one only (`ManiaGenerators.SearchCanFail` gives such a
  pattern; whether a conversion produces one is not part of the model), and when more notes are wanted
  than there are columns.

## Model

| member | source | states |
|---|---|---|
| `OsuHits.BestN100` | src/osu/performance/mod.rs:466-498 | with n300 given, one of the floor and ceiling candidates for n100 is at least as near to the wanted accuracy as any legal split, for all three score origins |
| `OsuHits.BestN300BesideN100` | src/osu/performance/mod.rs:499-531 | the same for n300 beside a given n100 |
| `OsuHits.BestN300BesideN50` | src/osu/performance/mod.rs:532-565 | the same for n300 beside a given n50 |
| `OsuHits.BestN300AndN100` | src/osu/performance/mod.rs:566-602 | with nothing given, one of at most four tried pairs matches any split of the remaining objects, also where trading results skips scores |
| `OsuHits.SearchN100AndN50` | src/osu/performance/mod.rs:466-498 | the search returns a split of the remaining objects that is nearest among all splits with the given n300 |
| `OsuHits.SearchN300AndN50` | src/osu/performance/mod.rs:499-531 | nearest among all splits with the given n100 |
| `OsuHits.SearchN300AndN100` | src/osu/performance/mod.rs:532-565 | nearest among all splits with the given n50 |
| `OsuHits.SearchAll` | src/osu/performance/mod.rs:566-602 | nearest among all splits |
| `OsuHits.ShiftKeepsAccuracy` | src/osu/performance/mod.rs:604-619 | one 300 and four 50s against five 100s changes neither the accuracy nor the number of objects |
| `OsuHits.ShiftByPriority` | src/osu/performance/mod.rs:604-619 | the shift leaves no further one to make in the direction of the priority and keeps the split nearest |
| `OsuHits.HitsForAccuracy` | src/osu/performance/mod.rs:451-622 | each arm of the match keeps the given counts, fills the remaining objects and is nearest; with all given the rest goes to the count of the priority |
| `OsuHits.HitsWithoutAccuracy` | src/osu/performance/mod.rs:622-640 | without an accuracy the rest goes to the first open count in the order of the priority |
| `OsuHits.GeneratedTotal` | src/osu/performance/mod.rs:368-663 | hits are never fewer than the objects, and exactly as many whenever the given counts fit |
| `OsuHits.ResultsOfPlay` | src/osu/performance/mod.rs:370-432 | in the fields: misses, ticks, slider ends and combo are those given as far as the map has them, or else all it has (no misses), and there are results for all objects passed |
| `OsuPlay.AccuracyOfPlay` | src/osu/performance/mod.rs:1565-1600 | a play is any list of results for the passed objects and, in lazer, slider ends and large ticks; the accuracy of its counts is what these results earn of the most they could, 300, 100 and 50 for an object, 30 for a tick, 150 or without slider accuracy 10 for a slider end |
| `OsuPlay.NoPlayIsNearer` | src/osu/performance/mod.rs:368-663 | where the given counts leave room, the generated results are those of a play, and no play of the map with as many misses, ticks and slider ends that has the given counts comes nearer to the accuracy |
| `OsuHits.GeneratingAgain` | src/osu/performance/mod.rs:642-663 | generating from the stored result returns the same state and stores the same fields |
| `OsuHits.OsuPerformance.GenerateState` | src/osu/performance/mod.rs:368-663 | the returned state is a generated one of the old fields, and the fields afterwards are the old ones with that state stored |
| `ManiaHits.MatchOneOpen` | src/mania/performance/mod.rs:324-460 | with one of n200, n100, n50 open, the searched numbers of 320s and 300s contain a match for every legal split |
| `ManiaHits.MatchInRange` | src/mania/performance/mod.rs:461-655 | searching only between the rounded extremes of the real solutions reaches the gain of every pair of counts |
| `ManiaHits.MatchTwoOpen` | src/mania/performance/mod.rs:461-655 | with two of n200, n100, n50 open, a tried pair matches every legal split |
| `ManiaHits.MatchWithFewest` | src/mania/performance/mod.rs:664-676 | where the second upper bound on 320s and 300s cuts the range, every wanted gain is still met up to rounding |
| `ManiaHits.MatchThreeOpen` | src/mania/performance/mod.rs:664-676 | the range of 320s and 300s reaches a match for every split although it is cut |
| `ManiaHits.MatchAllOpen` | src/mania/performance/mod.rs:660-718 | one of the triples tried in the three nested loops matches every legal split |
| `ManiaHits.SearchOneOpen` | src/mania/performance/mod.rs:324-460 | the search returns the nearest legal split |
| `ManiaHits.SearchTwoOpen` | src/mania/performance/mod.rs:461-655 | the two nested loops return the nearest legal split |
| `ManiaHits.SearchThreeOpen` | src/mania/performance/mod.rs:660-718 | the three nested loops return the nearest legal split, with any of n320 and n300 given |
| `ManiaHits.TradingKeepsAccuracy` | src/mania/performance/mod.rs:648-656 | two 200s against a 320 and a 100 keep the accuracy and the number of objects |
| `ManiaHits.FinishSearch` | src/mania/performance/mod.rs:722-741 | dividing 320s from 300s and redistributing the 200s keeps the nearest distance and the given counts |
| `ManiaHits.RestFills` | src/mania/performance/mod.rs:295-321 | with one count open, or only the two best, the rest is the nearest choice |
| `ManiaHits.HitsForAccuracy` | src/mania/performance/mod.rs:280-741 | every arm of the match keeps the given counts, accounts for the objects and is nearest to the accuracy |
| `ManiaHits.HitsWithoutAccuracy` | src/mania/performance/mod.rs:744-768 | without an accuracy the rest goes to the first open count in the order of the priority |
| `ManiaHits.GeneratedTotal` | src/mania/performance/mod.rs:252-785 | results are never fewer than the objects, and exactly as many whenever the given counts fit |
| `ManiaHits.ResultsOfPlay` | src/mania/performance/mod.rs:262-272 | in the fields: one result for every object passed and in lazer another for every hold note of the map, more only if more than that are given; misses are those given, but no more than objects passed |
| `ManiaPlay.ResultsAreCounted` | src/mania/performance/mod.rs:268-270 | objects and hold notes counted for a list of objects make one result a circle and, in lazer, two a hold note |
| `ManiaPlay.PlayHasAllResults` | src/mania/performance/mod.rs:262-272 | with the attributes of a list of objects that all count as passed, a generated state has one result a circle and, in lazer, two a hold note, whenever the given counts fit |
| `ManiaPlay.AccuracyOfPlay` | src/mania/performance/mod.rs:946-964 | the accuracy of counts is what any list of results with these counts earns of 300 for each: 300 for 320s and 300s, and the number itself below |
| `ManiaPlay.NoPlayIsNearer` | src/mania/performance/mod.rs:252-785 | where the given counts leave room, the generated results are those of a play, and no play of the map with as many misses that has the given counts comes nearer to the accuracy |
| `ManiaHits.GeneratingAgain` | src/mania/performance/mod.rs:770-785 | generating from the stored result returns the same state |
| `ManiaHits.ManiaPerformance.GenerateState` | src/mania/performance/mod.rs:252-785 | the returned state is a generated one of the old fields, which are stored with it |
| `TaikoHits.BestN300` | src/taiko/performance/mod.rs:252-270 | one of the two candidates is at least as near as any split |
| `TaikoHits.SearchN300` | src/taiko/performance/mod.rs:252-270 | the search returns the nearest split of the remaining objects |
| `TaikoHits.SplitResults` | src/taiko/performance/mod.rs:240-288 | the choice for every combination of given counts, accuracy and priority |
| `TaikoHits.GeneratedTotal` | src/taiko/performance/mod.rs:230-306 | the total is never below the objects, and equal to them exactly if the given counts leave room |
| `TaikoHits.ResultsOfPlay` | src/taiko/performance/mod.rs:218-306 | in the fields: misses and combo are those given as far as the map has them, and there are results for all objects passed, more only if more are given |
| `TaikoPlay.AccuracyOfPlay` | src/taiko/performance/mod.rs:577-589 | the accuracy of counts is what any list of results with these counts earns, 300 for a great and 150 for an ok, of 300 each |
| `TaikoPlay.NoPlayIsNearer` | src/taiko/performance/mod.rs:218-306 | where the given counts leave room, the generated results are those of a play, and no play with as many misses that has the given count comes nearer to the accuracy |
| `TaikoHits.GeneratingAgain` | src/taiko/performance/mod.rs:290-306 | generating from the stored result returns the same state |
| `TaikoHits.TaikoPerformance.GenerateState` | src/taiko/performance/mod.rs:218-306 | the returned state is a generated one of the old fields, which are stored with it |
| `CatchHits.SplitPalpable` | src/catch/performance/mod.rs:290-339 | fruits, droplets and misses make up the palpable objects of the map; no unchecked subtraction goes below zero |
| `CatchHits.BestTiny` | src/catch/performance/mod.rs:341-369 | one of the two candidates is at least as near as any number of tiny droplets |
| `CatchHits.FindBestTinyDroplets` | src/catch/performance/mod.rs:341-369 | the closure returns the nearest number of tiny droplets |
| `CatchHits.SplitTiny` | src/catch/performance/mod.rs:371-407 | the choice for every combination of given tiny droplets and accuracy |
| `CatchHits.GeneratedTotal` | src/catch/performance/mod.rs:266-413 | fruits, droplets and misses equal those of the map; tiny droplets are never fewer, and equal if an accuracy is given or one count is open |
| `CatchHits.ResultsOfPlay` | src/catch/performance/mod.rs:266-413 | in the fields: misses are those given, but no more than fruits and droplets; the combo is the given one, or what was caught of these |
| `CatchPlay.AccuracyOfPlay` | src/catch/performance/mod.rs:588-606 | the accuracy of counts is the share of what was caught in any list of results with these counts |
| `CatchPlay.NoPlayIsNearer` | src/catch/performance/mod.rs:341-407 | with neither or both of the tiny droplets given, and not as many as the map has, no play of the map with as many misses comes nearer to the accuracy than the generated one |
| `CatchHits.GeneratingAgain` | src/catch/performance/mod.rs:266-413 | generating from the stored result returns the same state |
| `CatchHits.CatchPerformance.GenerateState` | src/catch/performance/mod.rs:266-413 | the returned state is a generated one of the old fields, which are stored with it |
| `Tandem.StableOrderOrders` | src/util/sort/tandem.rs:15-23 | the stored order is a permutation that sorts stably |
| `Tandem.StableOrderIsUnique` | src/util/sort/tandem.rs:15-23 | any other permutation that sorts stably is the same one |
| `Tandem.StableOrderKeeps` | src/util/sort/tandem.rs:31-59 | no list rearranged by the order of another one loses or gains an element |
| `Tandem.ParallelListsStayPaired` | src/util/sort/tandem.rs:5-8 | rearranging two parallel lists is sorting the list of their pairs by key |
| `Tandem.ToggleMarkIdx` | src/util/sort/tandem.rs:67-75 | toggling changes the mark and nothing else about the index |
| `Tandem.TandemSorter.NewStable` | src/util/sort/tandem.rs:15-23 | stores the stable order of the list, unmarked |
| `Tandem.TandemSorter.ToggleMarks` | src/util/sort/tandem.rs:61-65 | takes the marks off all indices |
| `Tandem.TandemSorter.Sort` | src/util/sort/tandem.rs:31-59 | element k becomes the former element at the stored index k, whatever earlier calls have left behind, and the stored order stays |
| `Tandem.FollowsCycle` | src/util/sort/tandem.rs:48-53 | one swap along a cycle arranges one position and leaves the cycle intact |
| `Tandem.ClosesCycle` | src/util/sort/tandem.rs:55-55 | the position that leads back to the start is arranged by the swaps before it |
| `Sorting.SwapIfGreater` | src/util/sort/mod.rs:45-52 | swaps exactly if the first compares greater |
| `Sorting.DownHeap` | src/util/sort/mod.rs:25-43 | makes a heap from the position on, permuting only heap positions, with all accesses in bounds |
| `Sorting.TopIsGreatest` | src/util/sort/mod.rs:9-23 | nothing in the heap is above its top |
| `Sorting.HeapSort` | src/util/sort/mod.rs:9-23 | sorts the part from lo to hi, permutes it and touches nothing else |
| `CsharpSort.InsertionSort` | src/util/sort/csharp.rs:97-112 | sorts the part, permutes it and touches nothing else |
| `CsharpSort.PickPivotAndPartition` | src/util/sort/csharp.rs:59-95 | the returned position is strictly inside the part, nothing before it is above it and nothing behind it below; the scans are stopped by sentinels |
| `CsharpSort.Crossed` | src/util/sort/csharp.rs:72-94 | where the scans have crossed, the pivot swapped in divides the part |
| `CsharpSort.RestPartitioned` | src/util/sort/csharp.rs:52-55 | after the recursive call what is behind the next hi is sorted and nowhere below what is not |
| `CsharpSort.SortShort` | src/util/sort/csharp.rs:29-44 | parts of up to 16 elements are sorted |
| `CsharpSort.IntroSort` | src/util/sort/csharp.rs:22-57 | for every total preorder and depth limit the part is sorted and permuted, through quick, heap and insertion paths; it terminates and hi never goes below lo |
| `CsharpSort.Ilog2Is` | src/util/sort/csharp.rs:13-20 | the depth limit is twice the floor of the binary logarithm of the length |
| `CsharpSort.Sort` | src/util/sort/csharp.rs:6-20 | the result is sorted and has the same elements |
| `LegacySort.SortedAgain` | src/util/sort/osu_legacy.rs:24-29 | two sorted lists of the same elements compare equal at every position, so the heap fallback keeps the keys |
| `LegacySort.BothOnKey` | src/util/sort/osu_legacy.rs:41-47 | both scans stop on elements that compare equal to the one at mid |
| `LegacySort.StepsInward` | src/util/sort/osu_legacy.rs:49-60 | after a swap the next pair stands on the same key, although mid is read again |
| `LegacySort.PartitionByKey` | src/util/sort/osu_legacy.rs:40-61 | on a sorted part only equal keys are swapped, all indices are in bounds and i never passes right |
| `LegacySort.DepthLimitedQuickSort` | src/util/sort/osu_legacy.rs:18-83 | on a sorted part the keys at all positions stay, elements move among equals only, and every subtraction is safe, at every depth |
| `LegacySort.Sort` | src/util/sort/osu_legacy.rs:10-16 | as both callers run it, on a sorted list: same elements, equal keys at every position |
| `Stacking.CarriesTop` | src/osu/convert.rs:81-196 | every object is a top of a stack or carries one |
| `Stacking.RaisedNext` | src/osu/convert.rs:158-166 | one step of a chain gives the base its new height and leaves what lies between alone |
| `Stacking.AllRaised` | src/osu/convert.rs:109-122 | where nothing is found to stack onto, everything the chain leads to has its height |
| `Stacking.PositiveHeights` | src/osu/convert.rs:81-196 | a height is positive exactly if a later object stacks onto the object |
| `Stacking.FinalHeights` | src/osu/convert.rs:81-196 | distances from first tops are positive exactly on bases, and one more than that of an object directly on top |
| `Stacking.SearchFinds` | src/osu/convert.rs:110-166 | a search ends with the last earlier object at which there is something to find |
| `Stacking.CoversIs` | src/osu/convert.rs:110-166 | without sliders one object covers another if and only if it is near and in range of it, neither is a spinner, and everything between is a spinner, or in range without being near |
| `Stacking.NearIs` | src/osu/convert.rs:110-166 | objects are near exactly if they are less than three osu!pixels apart |
| `Stacking.HeightOf` | src/osu/convert.rs:158-166 | the height is the distance from the first top that rests on the object, though other chains overwrite it |
| `Stacking.Stack` | src/osu/convert.rs:81-196 | on every map the heights are what the passes from the last object to the second amount to |
| `Stacking.WithoutSliders` | src/osu/convert.rs:81-196 | without sliders every object ends at its distance from the first top that rests on it: never below zero, positive exactly if a later object stacks onto it, and then one more than one of those |
| `Stacking.UnderSlider` | src/osu/convert.rs:130-156 | a chain that ends at a slider is turned over where it is on the end of the slider: its bottom goes one below the slider and each step upward one further down; the rest of it stays raised |
| `Stacking.Settled` | src/osu/convert.rs:90-103 | no pass touches the objects behind its own, so the height of an object is settled after its pass |
| `Stacking.StackCircles` | src/osu/convert.rs:105-167 | the loop computes the whole chain from a circle on every map, and the turn at a slider |
| `Stacking.StackBelow` | src/osu/convert.rs:141-153 | objects on the end of the slider move down by the offset, no others |
| `Stacking.StackSliders` | src/osu/convert.rs:168-196 | the loop raises exactly the chain along slider ends, each object by its distance from the slider it starts at |
| `GradualCalls.NthIsNexts` | src/osu/difficulty/gradual.rs:200-226 | nth(n) is min(n, len - 1) + 1 calls of next |
| `GradualCalls.CallsAreNexts` | src/osu/difficulty/gradual.rs:153-232 | any interleaving of next and nth is a number of calls of next |
| `OsuGradual.CreateDifficultyObjects` | src/osu/difficulty/mod.rs:358-394 | each difficulty object has its object, the last one and the one before that |
| `OsuGradual.FedInOrder` | src/osu/difficulty/mod.rs:249-275 | skills are given each passed object but the first, once and in order, among the difficulty objects of the whole map, each of which has its object and the two before it |
| `OsuGradual.CountsAreNumbers` | src/osu/difficulty/gradual.rs:126-139 | counts are the numbers of objects of each kind, the combo is the number of objects and nested objects |
| `OsuGradual.Calculate` | src/osu/difficulty/mod.rs:220-275 | the batch calculation processes the difficulty objects of the passed objects and counts exactly those |
| `OsuGradual.OsuGradualDifficulty.constructor` | src/osu/difficulty/gradual.rs:74-124 | starts with the first object counted |
| `OsuGradual.OsuGradualDifficulty.Next` | src/osu/difficulty/gradual.rs:153-192 | item k is the batch calculation of k objects; afterwards there is none |
| `OsuGradual.OsuGradualDifficulty.Len` | src/osu/difficulty/gradual.rs:230-234 | never underflows; one too many for an empty map |
| `OsuGradual.OsuGradualDifficulty.Nth` | src/osu/difficulty/gradual.rs:200-227 | the item is the batch calculation for as many objects as are passed then |
| `ManiaGradual.PrefixOfDifficultyObjects` | src/mania/difficulty/mod.rs:87-110 | a shorter map has a prefix of the difficulty objects |
| `ManiaGradual.CreateDifficultyObjects` | src/mania/difficulty/mod.rs:87-110 | scaled back by the clock rate, the i-th has start and end of object i + 1 and the time since object i; its column and index |
| `ManiaGradual.StartTimesAddUp` | src/mania/difficulty/object.rs:11-20 | the start of a difficulty object is the start of the first object over the clock rate plus all deltas so far |
| `ManiaGradual.PreviousIsBefore` | src/mania/difficulty/skills/strain.rs:149-152 | the object before the current one is the one with the index before, and there is none only for the first |
| `ManiaGradual.FedInOrder` | src/mania/difficulty/mod.rs:56-85 | the skill is given each passed object but the first, once and in order, with its times over the clock rate and with what was given before |
| `ManiaGradual.RateCancels` | src/mania/difficulty/gradual.rs:195-217 | counting with times scaled by the clock rate and back is counting with the object's own times |
| `ManiaGradual.ItemIsBatch` | src/mania/difficulty/gradual.rs:123-153 | what is held after k items is the batch calculation of k objects |
| `ManiaGradual.Calculate` | src/mania/difficulty/mod.rs:56-85 | the batch calculation |
| `ManiaGradual.ManiaGradualDifficulty.Next` | src/mania/difficulty/gradual.rs:123-153 | item k is the batch calculation of k objects, notes and hold notes included |
| `ManiaGradual.ManiaGradualDifficulty.Nth` | src/mania/difficulty/gradual.rs:161-187 | the same after skipping |
| `CatchGradual.TotalsAreSums` | src/catch/attributes.rs:158-194 | for every stream of records and every limit the totals are the sum of the first deltas, plus the tiny droplets since while the limit is not reached |
| `ManiaGradual.CountsAreNumbers` | src/mania/difficulty/gradual.rs:209-217 | hold notes are counted, and every object adds itself and one per tenth of a second it is held to the combo |
| `CatchGradual.TotalsAreNumbers` | src/catch/attributes.rs:158-194 | with a limit that is not reached the totals are the numbers of fruits and droplets and all tiny droplets |
| `CatchGradual.SumCountsAll` | src/catch/attributes.rs:48-56 | fruits and droplets of summed deltas are as many as the deltas |
| `CatchGradual.ItemIsBatch` | src/catch/difficulty/gradual.rs:112-133 | item k is the batch calculation of k palpable objects |
| `CatchGradual.FedInOrder` | src/catch/difficulty/mod.rs:66-101 | the skill is given each passed palpable object but the first, once and in order, each with the one before it and with what was given before |
| `CatchGradual.Calculate` | src/catch/difficulty/mod.rs:66-101 | the batch calculation |
| `CatchGradual.CatchGradualDifficulty.Next` | src/catch/difficulty/gradual.rs:112-133 | item k is the batch calculation of k palpable objects |
| `CatchGradual.CatchGradualDifficulty.Nth` | src/catch/difficulty/gradual.rs:141-163 | the same after skipping |
| `TaikoGradual.PassedEndsWithHit` | src/taiko/difficulty/mod.rs:203-213 | the objects counted for k hits end with the k-th hit |
| `TaikoGradual.Calculate` | src/taiko/difficulty/mod.rs:125-161 | the batch calculation of k hits processes the difficulty objects up to the k-th hit |
| `TaikoGradual.FedInOrder` | src/taiko/difficulty/mod.rs:125-161 | skills are given the objects up to the k-th hit, but for the first two, once and in order, among the difficulty objects of the whole map, each of which has its object and the two before it |
| `TaikoGradual.TaikoGradualDifficulty.Next` | src/taiko/difficulty/gradual.rs:140-181 | the item and the new state, for every map |
| `TaikoGradual.TaikoGradualDifficulty.Nth` | src/taiko/difficulty/gradual.rs:189-255 | the last of min(n, len - 1) + 1 calls of next; without difficulty objects no item, and at most the first two objects passed over |
| `TaikoGradual.NextsAreBatch` | src/taiko/difficulty/gradual.rs:140-255 | if the first two of at least three objects are hits, from k hits the last of j + 1 calls is the batch calculation of k + j + 1 |
| `TaikoGradual.NoneBeyond` | src/taiko/difficulty/gradual.rs:140-181 | if the first two of at least three objects are hits, nothing comes after the last hit |
| `TaikoGradual.AgreesExactlyIf` | src/taiko/difficulty/gradual.rs:140-255 | there is an item for every hit and none afterwards, and it is the batch calculation, if and only if there are fewer than three objects and no hit, or at least three of which the first two are hits |
| `TaikoGradual.Disagrees` | src/taiko/difficulty/gradual.rs:161-171 | on all other maps: the first item is missing with fewer than three objects; it has combo 0, and comes even without any hit, if the first object is none; the second item has combo 1, and comes even without a second hit, if only the second object is none |
| `TaikoGradual.ItemIs` | src/taiko/difficulty/gradual.rs:140-181 | every item of every map: none with fewer than three objects; the first two count the hits among the first one and two objects; from the third on the item is the batch calculation of as many hits, less one for each of the first two objects that is none, as long as there are so many |
| `TaikoGradual.LenIsSafeExactlyIf` | src/taiko/difficulty/gradual.rs:258-262 | len never underflows, however next and nth are called, if and only if there are fewer than three objects or the first two are hits |
| `Strains.PushedPlain` | src/util/strains_vec.rs:44-59 | pushing onto the run-length list is appending to the list it stands for |
| `Strains.PushedCompact` | src/util/strains_vec.rs:44-59 | runs of zeros stay maximal and not empty |
| `Strains.RetainedPlain` | src/util/strains_vec.rs:70-77 | dropping runs of zeros drops exactly the zeros |
| `Strains.StrainsVec.Push` | src/util/strains_vec.rs:44-59 | keeps the list and its length in step with what was pushed |
| `Strains.StrainsVec.RetainNonZero` | src/util/strains_vec.rs:70-77 | leaves the pushed values without zeros; the length is not adjusted, and agrees with the list afterwards exactly if no zero was pushed |
| `Strains.StrainsVec.SortDesc` | src/util/strains_vec.rs:62-67 | values in descending order |
| `Strains.StrainsVec.Sum` | src/util/strains_vec.rs:113-119 | the sum of everything pushed |
| `Strains.StrainsVec.IntoVec` | src/util/strains_vec.rs:122-132 | iterating gives back exactly what was pushed |
| `Strains.StrainsIter.Next` | src/util/strains_vec.rs:157-176 | yields the next element of the plain list and counts down |
| `Descending.SortedIsUnique` | src/util/strains_vec.rs:62-67 | every descending list of the same elements is this one |
| `StrainSkills.ValueWithoutZeros` | src/any/difficulty/skills.rs:65-77 | zeros do not matter to the weighted sum |
| `StrainSkills.DescendingIsBest` | src/any/difficulty/skills.rs:65-77 | no order of the same peaks has a greater weighted sum |
| `StrainSkills.ValueIsBounded` | src/any/difficulty/skills.rs:65-77 | however many peaks, the value is at most the greatest one divided by 1 - w |
| `StrainSkills.StrainSkill.DifficultyValue` | src/any/difficulty/skills.rs:65-77 | the value of the compact list is the value of the plain list with zeros kept |
| `StrainSkills.StrainSkill.Process` | src/osu/difficulty/skills/aim.rs:99-114 | the sections after an object |
| `StrainSkills.SectionsOfRun` | src/osu/difficulty/skills/aim.rs:99-114 | after objects in time order the section end is that of the last object and there is a peak for every section before it |
| `StrainSkills.PeaksOfRun` | src/osu/difficulty/skills/aim.rs:99-114 | every peak is the greatest of its section's strains and the strain left at its start |
| `StrainSkills.EquallyManyPeaks` | src/taiko/difficulty/mod.rs:68-81 | skills that see objects at the same times have equally many peaks, so zipping them drops none |
| `StrainSkills.OsuStrainSkill.DifficultyValue` | src/osu/difficulty/skills/strain.rs:41-74 | reducing the top sections on the compact list gives the value of reducing them on the plain list |
| `StrainSkills.ReducedValueWithoutZeros` | src/osu/difficulty/skills/strain.rs:55-68 | the same stated about the lists |
| `StrainSkills.SmallerPeaksSmallerValue` | src/osu/difficulty/skills/strain.rs:62-67 | peaks that are nowhere greater have no greater value after sorting |
| `StrainSkills.ReducingLowers` | src/osu/difficulty/skills/strain.rs:55-68 | reducing by factors between 0 and 1 never raises the value |
| `TaikoObjects.TaikoDifficultyObjects.Add` | src/taiko/difficulty/object.rs:24-73 | every object knows its index in the list of notes and of its colour |
| `TaikoObjects.TaikoDifficultyObjects.PreviousNote` | src/taiko/difficulty/object.rs:135-143 | the earlier note with that many notes between; nothing for what is no note |
| `TaikoObjects.TaikoDifficultyObjects.PreviousMono` | src/taiko/difficulty/object.rs:117-133 | the earlier note of the same colour with that many of that colour between |
| `TaikoObjects.TaikoDifficultyObjects.NextNote` | src/taiko/difficulty/object.rs:145-151 | the later note with that many between, and none only if there are too few notes; for what is no note it counts from the first note of the map |
| `TaikoObjects.NoneKeptBetween` | src/taiko/difficulty/object.rs:135-143 | no note lies between a note and its previous one |
| `TaikoColor.EncodeMonoStreaks` | src/taiko/difficulty/color/preprocessor.rs:67-101 | streaks flatten to the objects in order; a streak starts at and only at objects that continue none |
| `TaikoColor.StreakHasOneColor` | src/taiko/difficulty/color/preprocessor.rs:83-88 | the notes of a streak behind its first object have one colour, and so has the first if it is a note |
| `TaikoColor.EncodeAlternatingMonoPattern` | src/taiko/difficulty/color/preprocessor.rs:103-138 | patterns flatten to the streaks; streaks of a pattern have one length, neighbours another |
| `TaikoColor.TakeGroup` | src/taiko/difficulty/color/preprocessor.rs:146-180 | one round takes the longest group in which each pattern is repeated by the next but one; what a repetition is for the notes is in TaikoColorReading.RepetitionReadsAlike |
| `TaikoColor.EncodeRepeatingHitPatterns` | src/taiko/difficulty/color/preprocessor.rs:140-180 | groups flatten to the patterns and each is maximal |
| `TaikoColor.FindRepetitionInterval` | src/taiko/difficulty/color/repeating_hit_patterns.rs:28-51 | the least distance below 16 at which the group repeats another one, 17 if there is none |
| `TaikoColor.Encode` | src/taiko/difficulty/color/preprocessor.rs:60-65 | the three passes after each other |
| `TaikoColor.ProcessAndAssign` | src/taiko/difficulty/color/preprocessor.rs:16-58 | every object is assigned a place that it is in, in groups with their repetition intervals |
| `TaikoColor.OnePlace` | src/taiko/difficulty/color/preprocessor.rs:16-58 | every object is in one place only |
| `TaikoColorReading.ReadingIs` | src/taiko/difficulty/color/preprocessor.rs:67-138 | the hit types of a pattern of notes are runs of one length, of its first colour and the other one in turn |
| `TaikoColorReading.RepetitionReadsAlike` | src/taiko/difficulty/color/alternating_mono_pattern.rs:24-33 | of two patterns of notes one is a repetition of the other if and only if the hit types of their notes are the same sequence |
| `TaikoColorReading.GroupsReadAlike` | src/taiko/difficulty/color/preprocessor.rs:140-180 | in a group each pattern of notes reads like the next but one, note for note, and behind it the last that could go on no longer does |
| `TaikoColorReading.IntervalIs` | src/taiko/difficulty/color/repeating_hit_patterns.rs:28-64 | the interval is the least distance below 16 of a group with as many patterns and, in the first two patterns each, streaks of the same length |
| `TaikoConvert.NeverEmpty` | src/taiko/convert.rs:62-70 | a converted slider has a first hit, so the branch with idx -= 1 is unreachable |
| `TaikoConvert.TicksAre` | src/taiko/convert.rs:38-60 | hits are evenly spaced and take the node sounds in turn |
| `TaikoConvert.TickCount` | src/taiko/convert.rs:38-60 | the number of hits |
| `TaikoConvert.HitsOfSlider` | src/taiko/convert.rs:31-60 | a slider stays, or becomes floor(duration / spacing + 1/8) + 1 circles from its start on, one spacing apart, the k-th with the sound of node k modulo the number of nodes; a spacing below epsilon gives one |
| `TaikoConvert.Params` | src/taiko/convert.rs:94-140 | whatever the settings, zero and negative ones included, a slider is converted only with a positive distance of hits; the values are in TaikoConvert.ParamsAre |
| `TaikoConvert.ParamsAre` | src/taiko/convert.rs:99-140 | for settings that are not zero: the duration is the floor of distance * spans * adjusted beat length / (100 * multiplier), capped; the spacing is the smaller of beat length / tick rate and duration / spans; tick rate and the factor 1.4 cancel |
| `TaikoConvert.ConvertsExactlyIf` | src/taiko/convert.rs:139-140 | for positive settings a slider becomes hits if and only if its duration is at least 1 and distance * spans * adjusted beat length is below 200 * multiplier * beat length (before version 8 the adjusted one) |
| `TaikoConvert.ConvertsByDistance` | src/taiko/convert.rs:134-140 | from version 8 on the beat length cancels: distance * spans below 200 * multiplier * velocity |
| `TaikoConvert.ShorterConverts` | src/taiko/convert.rs:139-140 | a shorter slider than one that becomes hits becomes hits too, unless its duration is 0 |
| `TaikoConvert.MultiplierIsInverse` | src/util/mod.rs:10-20 | the multiplier of the beat length is the inverse of the velocity as long as that is not clamped |
| `TaikoConvert.MakeHits` | src/taiko/convert.rs:31-60 | the loop terminates and gives the expansion of the slider, objects and sounds in parallel |
| `TaikoConvert.Spliced` | src/taiko/convert.rs:62-65 | splicing both lists at one place keeps them parallel |
| `TaikoConvert.Beatmap.ConvertAt` | src/taiko/convert.rs:24-77 | one round of the loop |
| `TaikoConvert.Beatmap.Convert` | src/taiko/convert.rs:17-92 | the converted map is the concatenation of the expansions of all objects, rearranged with its sounds by the stable order of start times |
| `TaikoConvert.ConvertedMap` | src/taiko/convert.rs:84-88 | it is in time order and holds the expansions, with their sounds, exactly |
| `StrainSkills.WeightedSumOf` | src/any/difficulty/skills.rs:69-74 | the loop that adds and decays weights computes the weighted sum |
| `StrainSkills.CombinedDifficultyValue` | src/taiko/difficulty/mod.rs:60-109 | leaving out sections whose combined peak is zero gives the value of all of them |
| `DecodedObjects.SortHitObjects` | src/model/beatmap/decode.rs:296-305 | objects are sorted, their sounds follow the same stable order, and the legacy sort for osu!mania keeps the start time at every position |
| `ControlPoints.SearchWithin` | src/model/control_point/effect.rs:29-34 | binary search finds the time or its place |
| `ControlPoints.PointAt` | src/model/control_point/difficulty.rs:47-52 | the lookup is the last point that is not after the time |
| `ControlPoints.TimingPointAt` | src/model/control_point/timing.rs:29-35 | the same, but before the first point it is the first point |
| `ControlPoints.InsertedOrdered` | src/model/beatmap/decode.rs:793-802 | inserting keeps the list strictly in time order, replaces at most the point at the same time and keeps all others |
| `ControlPoints.ValueAfterInsert` | src/model/beatmap/decode.rs:831-839 | a point that is not before the others decides the lookup from its time on and nothing before |
| `ControlPoints.SkippingLosesNothing` | src/model/beatmap/decode.rs:87-91 | if every time that a later one falls short of comes again, what is looked up after skipping redundant points is redundant to what is looked up after keeping all |
| `ControlPoints.LosesNothingExactlyIf` | src/model/beatmap/decode.rs:87-91 | the times decide: skipping loses nothing for any values at them if and only if every time that a later one falls short of comes again |
| `ControlPoints.SomeLost` | src/model/beatmap/decode.rs:822-840 | for all other times, points whose lookup changes by skipping |
| `ControlPoints.KiaiIsKeptExactlyIf` | src/model/beatmap/decode.rs:822-840 | the same for kiai: skipping leaves it at every time as keeping all does |
| `ControlPoints.VelocityIsKeptExactlyIf` | src/model/beatmap/decode.rs:804-820 | the same for velocities: with points skipped and with all kept they are off by less than epsilon, which is 2^-52, at every time, with equal tick flags, and errors do not add up |
| `ControlPoints.AddedUnlessAlike` | src/model/beatmap/decode.rs:804-820 | a point is in the list afterwards if it differs from what is looked up at its time, by epsilon in velocity or in the flag, and otherwise the list is unchanged |
| `ControlPoints.AddedUnlessSameKiai` | src/model/beatmap/decode.rs:822-840 | the same for kiai |
| `ControlPoints.InheritedIs` | src/model/control_point/difficulty.rs:17-28 | velocity and multiplier of an inherited line are inverse to each other for beat lengths from -1000 to -10, and what they are beyond |
| `ControlPoints.MultiplierIsKeptExactlyIf` | src/model/control_point/difficulty.rs:30-33 | for a set of values with the default: the BPM multiplier looked up is kept for all lists of them in which overtaken times come again, if and only if values of the set that are redundant to each other have one multiplier |
| `ControlPoints.ClampedMultiplierIsLost` | src/model/control_point/difficulty.rs:17-33 | inherited lines with beat lengths -1000 and -2000: equal clamped velocities, multipliers 10 and 20, and the second point is skipped |
| `TimingSection.GroupsAre` | src/model/beatmap/decode.rs:59-71 | the lines fall into runs at one time, in their order, each as long as it can be |
| `TimingSection.DecidingIs` | src/model/beatmap/decode.rs:754-768 | velocity and kiai of a group are those of its last line without a timing change, or of its first line |
| `TimingSection.FirstChangeIs` | src/model/beatmap/decode.rs:754-768 | the timing point of a group is that of its first timing change |
| `TimingSection.HoldsNext` | src/model/beatmap/decode.rs:59-71 | after each line the points passed on are those of all groups but the last, and the pending one is that of the last group |
| `TimingSection.MergedInOrder` | src/model/beatmap/decode.rs:59-71 | lines in time order give points in time order |
| `TimingSection.BeatmapState.FlushPendingPoints` | src/model/beatmap/decode.rs:73-85 | all pending points are passed on and the lists stay what the passed points amount to; difficulty and effect points are in their lists afterwards unless they are alike what is looked up at their time, and the list is unchanged then |
| `TimingSection.BeatmapState.MoveTo` | src/model/beatmap/decode.rs:59-71 | pending points are passed on if the time differs by epsilon or more, and kept otherwise |
| `TimingSection.BeatmapState.ParseTimingPoint` | src/model/beatmap/decode.rs:572-588 | after each line lists and pending points are those of the lines read so far, this one included |
| `TimingSection.BeatmapState.Finish` | src/model/beatmap/decode.rs:284-285 | the lists are strictly in time order and hold the points of the groups of lines; if overtaken times recur, as for lines in time order, kiai is kept at every time, and velocities within 2^-52 with equal tick flags |
| `LimitedQueue.LimitedQueue.Push` | src/util/limited_queue.rs:45-49 | after any pushes the queue holds the last of them, up to its capacity |
| `LimitedQueue.LimitedQueue.Index` | src/util/limited_queue.rs:151-155 | index i is the i-th oldest; a full queue wraps around beyond its length |
| `LimitedQueue.LimitedQueue.AsSlices` | src/util/limited_queue.rs:73-79 | the two slices together are the contents |
| `LimitedQueue.LimitedQueue.LastElement` | src/util/limited_queue.rs:65-71 | the last element pushed |
| `LimitedQueue.LimitedQueueIter.Next` | src/util/limited_queue.rs:99-107 | takes the first of what is left, also when head and tail change places |
| `LimitedQueue.LimitedQueueIter.NextBack` | src/util/limited_queue.rs:131-139 | takes the last of what is left |
| `LimitedQueue.LimitedQueueIter.Nth` | src/util/limited_queue.rs:119-127 | drops n and takes the next of what is left |
| `LimitedQueue.EndsTakeTurns` | src/util/limited_queue.rs:98-140 | however next and next_back take turns, nothing is lost, doubled or moved |
| `LimitedQueue.SkipIsManyNexts` | src/util/limited_queue.rs:119-127 | nth(n) is n + 1 calls of next |
| `ManiaPattern.PosOfColumn` | src/mania/convert/pattern.rs:172-176 | the column comes back from the position |
| `ManiaPattern.ColumnIs` | src/mania/object.rs:72-76 | columns are equally wide parts of 512 osu!pixels, the outermost take what lies outside |
| `ManiaPattern.BitShifts` | src/mania/convert/pattern.rs:181-184 | the bits of the columns are 1 and each the one before shifted by one |
| `ManiaPattern.NoteIs` | src/mania/convert/pattern.rs:119-149 | a note is in its column and ends at its end time; it is held exactly if that is not its start |
| `ManiaPattern.ColumnsInserted` | src/mania/convert/pattern.rs:181-184 | setting a bit adds its column to the set |
| `ManiaPattern.OnesAreColumns` | src/mania/convert/pattern.rs:190-192 | the number of ones is the number of columns |
| `ManiaPattern.Pattern.AddNote` | src/mania/convert/pattern.rs:119-149 | the bits stay the columns of the positions |
| `ManiaPattern.Pattern.AddObject` | src/mania/convert/pattern.rs:151-154 | the same for an object whose column is known |
| `ManiaPattern.Pattern.Append` | src/mania/convert/pattern.rs:166-169 | both patterns keep it, the other one becomes empty |
| `ManiaGenerators.PatternGenerator.FindAvailableColumn` | src/mania/convert/pattern_generator/hit_object.rs:445-484 | a found column is free and in range; the assertion fails exactly if no column of the range is free; for a gathered pattern the search draws nothing and finds a column within as many rounds as there are columns |
| `ManiaGenerators.DrawsAreShared` | src/util/random.rs:43-45 | a number of the range is drawn exactly for an equal share of the draws from 0 to 1 |
| `ManiaGenerators.EnoughColumns` | src/mania/convert/pattern_generator/path_object.rs:536-538 | fewer taken columns than there are leave one free |
| `ManiaGenerators.PatternGenerator.ColumnBesideSpecial` | src/mania/convert/pattern_generator/mod.rs:37-47 | of eight columns the first is left out and the other seven are equally wide parts of 512 osu!pixels |
| `ManiaGenerators.HitObjectPatternGenerator.GenerateRandomNotes` | src/mania/convert/pattern_generator/hit_object.rs:238-275 | without stacking the assertion never fails, and the notes are in different columns, none of the previous pattern's; a gathered pattern is always finished |
| `ManiaGenerators.PathObjectPatternGenerator.GenerateRandomHoldNotes` | src/mania/convert/pattern_generator/path_object.rs:182-211 | the assertion never fails in the first loop, whose notes avoid the previous pattern; in the second only for want of columns |
| `ManiaGenerators.PathObjectPatternGenerator.GenerateRandomNotes` | src/mania/convert/pattern_generator/path_object.rs:213-245 | never two notes in a row in one column, and where stacking is to be avoided the first one is in none of the previous pattern |
| `ManiaGenerators.PathObjectPatternGenerator.GenerateStair` | src/mania/convert/pattern_generator/path_object.rs:247-282 | notes stay in bounds and move by one column each |
| `ManiaGenerators.SecondColumn` | src/mania/convert/pattern_generator/path_object.rs:306-313 | the second note goes to another column of the stage |
| `ManiaGenerators.PathObjectPatternGenerator.GenerateRandomMultipleNotes` | src/mania/convert/pattern_generator/path_object.rs:284-325 | the two notes of a time never share a column |
| `ManiaGenerators.PathObjectPatternGenerator.GenerateTiledHoldNotes` | src/mania/convert/pattern_generator/path_object.rs:381-413 | the assertion never fails in the column loop, all notes are in different columns, and where stacking is to be avoided the first one is in none of the previous pattern |
| `ManiaGenerators.PathObjectPatternGenerator.StartColumn` | src/mania/convert/pattern_generator/path_object.rs:396-402 | the column is none of the previous pattern; the search fails if and only if stacking is forbidden and of eight columns the previous pattern has left the special one only |
| `ManiaGenerators.LeavesSpecial` | src/mania/convert/pattern_generator/path_object.rs:509-538 | a previous pattern with fewer columns than there are leaves one for the search, unless it has left the special one only |
| `ManiaGenerators.SearchCanFail` | src/mania/convert/pattern_generator/path_object.rs:536-538 | such a previous pattern: seven notes in eight columns |

## Left out

- IEEE rounding, NaN in inputs, negative zero and `u32` overflow: exact reals and unbounded naturals are used, but for the cast of a slider's duration, which saturates.
- Strain evaluators, pp formulas and everything else made of transcendental functions: the skills process an object by any function.
- The osu! attributes that only the batch calculation fills in: tap BPM, speed rework, local star rating and chunk hardness.
- Stacking on maps with sliders: the heights are those of one pass after the other; that objects are counted from the first top on them is shown without sliders only, because the turn at a slider also moves objects between the chain's.
- Stacking of map versions below 6.
- TimingSection.BeatmapState.ParseTimingPoint: takes the fields of a line that parses; a line with an error changes nothing.
- Stacking.Stack: leaves out the branch that resets heights before the start of the range, which is 0 and never lowered.
- The identity of objects: heights are kept beside the stacked objects, and streaks, patterns and groups are nested lists of indices in place of counted references to cells.
- Tandem.TandemSorter.NewStable: the standard library's stable sort is modelled by the order it must give, which is unique.
- Strains.StrainsVec.SortDesc: the standard library's sort is modelled by the descending list, which is unique.
- TaikoConvert.Beatmap.SortInTandem: rearranges both lists by the stable order as `Tandem.TandemSorter.Sort` does on arrays.
- The bits of `StrainsEntry`: zero counts are a case of a datatype, not the bits of a negative `f64`.
- ManiaGenerators.PatternGenerator.FindAvailableColumn: the random search gives up after a number of draws, because whether it ends depends on the generator.
- The generators for mirrored patterns, hold-and-normal notes and end-time notes, and the choice between generators.
- LegacySort.Sort: on unsorted input, which neither caller has, nothing is claimed.
- CatchGradual.CatchGradualDifficulty.constructor: that conversion records exactly one fruit or droplet per palpable object is required of its caller.
- The osu! 2019 accuracy generation, whose subtractions are not total near full accuracy.
- File parsing, slider paths and events, mods, builders, mode dispatch, reference counting and lifetime extension.
