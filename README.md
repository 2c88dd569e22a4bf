# Best-response dynamics for strategic voting, in Dafny

This project models the two simulators in `main.py`:
`best_response_dynamics_plurality` and `best_response_dynamics_borda`.

Each simulator takes `n` voters, `m` candidates and every voter's true ranking. It works in these steps:

1. It renumbers the candidates from 0.
2. It fills an `n × m` table `game` with truthful ballots:
   - plurality: a single 1 in the column of the voter's favourite;
   - Borda: `m-1-j` points for the candidate in position `j`.
3. It runs rounds. A round works as follows:
   - It computes the winner, the first maximum of the column sums.
   - It scans the voters in index order. A voter that does not vote for the winner weighs the candidates it ranks no lower than the winner (the *alternative choices*). It gives each a heuristic tally (see below).
   - The first voter whose best alternative differs from its current vote gets its row rewritten, and the scan stops.
   - Under Borda, the rewritten row is the voter's *true* ranking with the new favourite moved to the front.
4. The loop stops after a round without a change, or once the round counter passes 1000.
5. It returns the 1-based start and end winners, their column sums and the number of rounds.

Layout, one module per file:

- `seqs.dfy` (`Seqs`): the reductions the code gets from numpy, as sequence functions with their properties.
  - `Sum` stands for `np.sum`.
  - `ArgMax` stands for `np.argmax`. It is the first maximum.
  - `IndexOf` stands for `np.where(s == x)[0][0]`.
  - `FirstTrue` gives where a `for` loop with a `break` stops.
- `rankings.dfy` (`Rankings`): rankings as permutations of `0..m-1`. It also defines:
  - the truthful start and the alternative choices;
  - the Borda rewrite's `np.delete` + `np.insert` (`Without`, `MoveToFront`).
- `tally.dfy` (`Tally`): the table, its column sums and winner, and the `while changed and t <= tmax` loop as a function (`Iterate`) with its general properties. It also holds the array2 view `Table` and the cell write `SetCell`.
- `plurality.dfy` (`Plurality`) and `borda.dfy` (`Borda`): one simulator each. Each file holds two things:
  - A specification on values. Under plurality the state is every voter's vote, and its ballots are `Ballots(votes, m)`. Under Borda the state is every voter's declared ranking, and its ballots are `Game(orders, m)`.
  - The imperative simulator. It works on an `array2<int>` table in place, with the source's loops. Each method is proved to leave the table equal to the ballots of the specified state.

  `BestResponseDynamics` is proved equal to `Run`, the specified outcome. The lemmas establish the source's promises about `Run` and a single `Round`.

## Model

| member | source | states |
|---|---|---|
| Seqs.ArgMaxIsFirstMax | main.py:30 | `np.argmax` picks an entry no other entry exceeds, and every earlier entry is strictly smaller (first maximum) |
| Seqs.IndexOfFirst | main.py:22 | `np.where(s == x)[0][0]` is the first occurrence of x: no earlier entry equals x |
| Seqs.FirstTrueAt | main.py:21-35 | a position that qualifies, with none qualifying before it, is where the scan stops |
| Seqs.FirstTrueIsFirst | main.py:21-35 | the scan with `break` finds nothing exactly when no position qualifies, and otherwise the first position that does |
| Rankings.ZeroBased | main.py:10 | the renumbered profile has the input's shape; the entries are the input's minus 1, and `ZeroBasedRanking` gives their meaning |
| Rankings.ZeroBasedRanking | main.py:10 | a renumbered ranking is a permutation of 0..m-1 exactly when the input ranking is a permutation of 1..m |
| Rankings.AltChoices | main.py:24 | the alternative choices are a non-empty prefix of the true ranking that ends with the winner |
| Rankings.AltChoicesRankedAbove | main.py:60 | a candidate is an alternative choice exactly when the voter ranks it no lower than the winner |
| Rankings.Without | main.py:71 | `np.delete` of v keeps exactly the entries other than v and never lengthens the ranking |
| Rankings.WithoutOnce | main.py:71 | deleting a candidate that occurs once cuts it out of its position |
| Rankings.DeleteInsert | main.py:70-72 | `np.insert(np.delete(p, ...), 0, v)` is the ranking p with v moved to the front |
| Rankings.MoveToFrontIsPerm | main.py:70-72 | the rewritten ranking is again a permutation of the m candidates |
| Rankings.MoveToFrontRanks | main.py:70-74 | after the move, v has rank 0, candidates ranked above v drop one rank, and those below v keep theirs |
| Rankings.MoveToFrontOfTop | main.py:47-48 | moving the top candidate to the front gives back the true ranking, so the truthful start is of the rewritten form |
| Tally.Winner | main.py:19 | the winner is a candidate number below m |
| Tally.WinnerIsFirstMax | main.py:19 | no candidate outscores the winner, and every lower-numbered candidate scores strictly less |
| Tally.TotalIsSumOfRows | main.py:19 | the column sums add up to the sum of all row sums |
| Tally.Iterate | main.py:17-36 | the loop as a function returning the final state, `t` and `changed`; it has no contract of its own, and the Iterate lemmas below give its meaning |
| Tally.IterateBounds | main.py:17-36 | the loop counter only grows and ends at most at 1001 |
| Tally.IterateRuns | main.py:17-18 | with `changed` initially true and `t = 1`, the loop body runs at least once |
| Tally.IterateKeeps | main.py:18-36 | an invariant every round preserves holds of the final state |
| Tally.IterateStops | main.py:18-36 | the loop ends either with `changed` false, and then one more round would report no change, or with `changed` true, and then `t` has passed the cap |
| Tally.SetCell | main.py:32-33 | an index assignment changes that one cell of the table and nothing else |
| Plurality.OneHotBallot | main.py:12 | a plurality row has a single 1, in the column of its vote, zeros elsewhere, and sums to 1 |
| Plurality.Switch | main.py:32-33 | zeroing the old column and setting the new one gives the ballot of the new vote |
| Plurality.Hypothetical | main.py:26-29 | the heuristic tally of one alternative; it has no contract of its own, and `AltTally` and `NewVoteIsBestReply` give its meaning |
| Plurality.NewVote | main.py:24-30 | the new vote is a candidate; `NewVoteIsBestReply` characterises which one |
| Plurality.NewVoteIsBestReply | main.py:24-30 | the new vote is ranked no lower than the winner; no alternative has a higher hypothetical tally; every alternative the voter prefers has a strictly lower one |
| Plurality.ScoresCountVotes | main.py:13-14 | the score of a candidate is the number of voters that vote for it; at the start, its number of first places |
| Plurality.TotalVotes | main.py:11-12 | the column sums of any plurality table total n |
| Plurality.Round | main.py:19-35 | a round keeps one valid vote per voter |
| Plurality.RoundChangesFirstDeviator | main.py:21-35 | a round reports a change exactly when some voter deviates; a vote that changes belongs to the lowest-numbered deviating voter, becomes its best reply, and is the only one that changes; a round reporting no change changes nothing (`FirstDeviatorSwitches` gives the converse) |
| Plurality.FirstDeviatorSwitches | main.py:21-35 | when voter i deviates and no voter before it does, the round changes exactly voter i's vote, to its best reply, and reports a change |
| Plurality.StepUnchanged | main.py:20-35 | a round reporting no change leaves the votes as they are |
| Plurality.RunBounds | main.py:17-40 | the reported round count lies in 1..1000, and both reported winners lie in 1..m |
| Plurality.Run | main.py:37-40 | the returned tuple; it has no contract of its own, and `RunBounds` and `RunConverged` give its meaning |
| Plurality.RunConverged | main.py:17-40 | if the loop ends with `changed` false, including after the 1000th round, no voter deviates against the final winner (a fixed point); if it ends with `changed` true, 1000 rounds are reported; so fewer than 1000 rounds means a fixed point |
| Plurality.NewTruthfulTable | main.py:11-12 | the new table holds the truthful ballots |
| Plurality.AltTally | main.py:25-29 | the j-loop adds one vote to every alternative other than the current vote and the winner |
| Plurality.BestReply | main.py:22-31 | reads the current vote off the table, and says whether the voter deviates and if so with which vote |
| Plurality.FirstDeviator | main.py:21-35 | the scan returns the first deviating voter with its best reply, or none |
| Plurality.SwitchVote | main.py:32-33 | the two writes change only voter i's row |
| Plurality.PlayRound | main.py:19-35 | one pass leaves the table holding the ballots of the specified next state with the specified flag |
| Plurality.PlayRounds | main.py:17-36 | the loop ends with the final `t` and the table of the specified final state |
| Plurality.BestResponseDynamics | main.py:8-40 | the function returns the specified outcome `Run` |
| Borda.PointsAt | main.py:47-48 | the candidate in position j of a ranking gets m-1-j points |
| Borda.PointsIsPerm | main.py:47-48 | a Borda row is a permutation of the point values 0..m-1 |
| Borda.PointsSum | main.py:73-74 | a Borda row sums to m(m-1)/2 |
| Borda.PointsTop | main.py:58 | m-1 occurs in a Borda row, and its first column is the top of the ranking, so the current vote is the declared favourite |
| Borda.WritePoints | main.py:73-74 | the row after the first k writes of the j-loop keeps its width; `WritePointsFull`, `PointsAt` and `PointsSum` give its meaning |
| Borda.WritePointsFull | main.py:73-74 | writing a whole ranking overwrites the row, whatever it held before |
| Borda.BallotPoints | main.py:70-74 | after a switch to v, v gets m-1; candidates ranked above v get one point less than truthfully; those below keep their truthful points |
| Borda.TotalPoints | main.py:55 | the column sums of any Borda table total n·m(m-1)/2 |
| Borda.Hypothetical | main.py:62-66 | the heuristic tally of one alternative; it has no contract of its own, and `AltTally` and `NewVoteIsBestReply` give its meaning |
| Borda.NewVote | main.py:60-67 | the new vote is a candidate; `NewVoteIsBestReply` characterises which one |
| Borda.NewVoteIsBestReply | main.py:60-67 | the new vote is ranked no lower than the winner; no alternative has a higher hypothetical tally; every alternative the voter prefers has a strictly lower one |
| Borda.Round | main.py:55-76 | a round keeps one ranking of the m candidates per voter |
| Borda.RoundChangesFirstDeviator | main.py:57-76 | a round reports a change exactly when some voter deviates; a ranking that changes belongs to the lowest-numbered deviating voter, becomes its true ranking with the best reply in front, and is the only one that changes; a round reporting no change changes nothing (`FirstDeviatorSwitches` gives the converse) |
| Borda.FirstDeviatorSwitches | main.py:57-76 | when voter i deviates and no voter before it does, the round rewrites exactly voter i's ranking, to its true ranking with its best reply in front, and reports a change |
| Borda.StepUnchanged | main.py:56-76 | a round reporting no change leaves the rankings as they are |
| Borda.StepFromTruth | main.py:70-72 | the truthful rankings are "true ranking with the vote moved to the front", and every round keeps that form |
| Borda.RunBounds | main.py:53-81 | the reported round count lies in 1..1000, and both reported winners lie in 1..m |
| Borda.Run | main.py:78-81 | the returned tuple; it has no contract of its own, and `RunBounds`, `RunConverged` and `RunDeclaresFromTruth` give its meaning |
| Borda.RunConverged | main.py:53-81 | if the loop ends with `changed` false, including after the 1000th round, no voter deviates against the final winner (a fixed point); if it ends with `changed` true, 1000 rounds are reported; so fewer than 1000 rounds means a fixed point |
| Borda.RunDeclaresFromTruth | main.py:70-74 | every final row is its voter's true ranking with its vote moved to the front, as Borda points |
| Borda.PlaceColumn | main.py:48 | one pass of the initialisation loop gives every voter's j-th candidate m-1-j points |
| Borda.NewTruthfulTable | main.py:46-48 | the new table holds the truthful Borda ballots |
| Borda.AltTally | main.py:62-66 | the tallies are the column sums minus the voter's own points, plus m-1 for every alternative other than the winner |
| Borda.BestReply | main.py:58-67 | reads the current vote off the table as the column holding m-1, and says whether the voter deviates and if so with which vote |
| Borda.FirstDeviator | main.py:57-76 | the scan returns the first deviating voter with its best reply, or none |
| Borda.RewriteRow | main.py:73-74 | the j-loop replaces row i by the Borda points of the new ranking and leaves the other rows alone |
| Borda.PlayRound | main.py:55-76 | one pass leaves the table holding the ballots of the specified next rankings with the specified flag |
| Borda.PlayRounds | main.py:53-77 | the loop ends with the final `t` and the table of the specified final rankings |
| Borda.BestResponseDynamics | main.py:43-81 | the function returns the specified outcome `Run` |

The hypothetical tallies follow the source's heuristic as written:
- Under plurality, every alternative other than the current vote and the winner gets one vote more. The current vote's column is counted as it stands.
- Under Borda, the tally removes the voter's points from every alternative and then adds m-1 to all of them except the winner, which is left without this voter's points.

The best reply is "best" only with respect to these tallies. `NewVoteIsBestReply` states exactly that.

## Left out

- The `__main__` block (main.py:84-153). It lists directories, loads JSON files, computes float means and ratios and plots with seaborn/matplotlib. All of that is I/O, floating point and UI.
- The dispatch on the rule name (main.py:100-111). This is the same I/O driver. It does nothing for other rule names.
- `generate_games.py` is not part of this model: it is random shuffling and file output that produces the input records.
- Input validation. The code does none. The model requires `ValidProfile`: at least one voter and one candidate, and every ranking a permutation of 1..m (`Rankings.ZeroBasedRanking` ties the renumbered condition to the input). Inputs that break this are outside the model: the code's `[0][0]` lookups (main.py:22, 24, 58, 60) assume it.
- numpy as a library. Vectorised operations are replaced by what they compute: `np.sum(axis=0)`, `np.argmax`, `np.where`, `np.delete`, `np.insert` and fancy indexing. The loops the source writes out are kept as loops.
- Integer width. The table's `dtype=int` is 64-bit in numpy, while the model uses unbounded integers. Every entry, column sum and heuristic tally is at most (n+1)·max(1, m-1), so wrap-around would need astronomically large inputs.
- The table is a local `array2<int>` of each simulator, as `game` is a local of each function in the source. There is no object around it.
- The specified state is ghost in the methods: plurality votes, Borda declared rankings. The methods read everything they compute off the table itself, and the proofs tie the table to that state.
