/**
 Best-response dynamics under the plurality rule (`best_response_dynamics_plurality`,
 main.py:8-40). Row i of the table is voter i's ballot: 1 in the column of
 the candidate it votes for, 0 elsewhere. The table is therefore determined
 by the vote of every voter, and the rounds are specified on those votes:
 in every round the first voter whose heuristic best reply differs from its
 current vote switches, and the scan stops (`FirstTrue`); the run ends after
 a round without a switch or after TMax rounds (`Iterate`). The methods keep the table itself in
 a two-dimensional array and are proved to hold the ballots of those votes.
 */
module Plurality {
  import opened Seqs
  import opened Rankings
  import opened Tally

  // ---------------------------------------------------------------- ballots

  /** The ballot that votes for candidate c. */
  function OneHot(c: int, m: nat): (row: seq<int>)
    ensures |row| == m
  {
    seq(m, j requires 0 <= j < m => if j == c then 1 else 0)
  }

  /** The table of main.py:11-12 and 32-33 for the given votes, one ballot per voter. */
  function Ballots(votes: seq<int>, m: nat): (g: seq<seq<int>>)
    ensures |g| == |votes| && Rectangular(g, m)
  {
    seq(|votes|, i requires 0 <= i < |votes| => OneHot(votes[i], m))
  }

  /**
   A ballot holds a single 1, in the column of the candidate voted for, so
   `np.where(game[i, :] == 1)[0][0]` (main.py:22) recovers the vote, and it
   hands out exactly one vote.
   */
  lemma OneHotBallot(c: int, m: nat)
    requires 0 <= c < m
    ensures 1 in OneHot(c, m) && IndexOf(OneHot(c, m), 1) == c
    ensures forall j :: 0 <= j < m && j != c ==> OneHot(c, m)[j] == 0
    ensures Sum(OneHot(c, m)) == 1
  {
    var zeros := seq(m, j requires 0 <= j < m => 0);
    assert OneHot(c, m) == zeros[c := 1];
    SumConstant(zeros, 0);
    SumUpdate(zeros, c, 1);
    assert OneHot(c, m)[c] == 1;
  }

  /** `game[i, current_vote] = 0; game[i, new_vote] = 1` (main.py:32-33) moves voter i's vote to v. */
  lemma Switch(votes: seq<int>, m: nat, i: nat, v: int)
    requires i < |votes| && 0 <= votes[i] < m && 0 <= v < m
    ensures Ballots(votes[i := v], m) == Ballots(votes, m)[i := Ballots(votes, m)[i][votes[i] := 0][v := 1]]
  {
    assert OneHot(votes[i], m)[votes[i] := 0][v := 1] == OneHot(v, m);
  }

  // ---------------------------------------------------------------- one round

  /**
   The tally candidate c would reach if the voter, now voting for cur, moved
   its vote to c (main.py:26-29): one vote more unless c is cur or the winner w.
   */
  function Hypothetical(scores: seq<int>, cur: int, w: int, c: nat): int
    requires c < |scores|
  {
    scores[c] + (if c != cur && c != w then 1 else 0)
  }

  /** `alt_votes` after the j-loop (main.py:25-29), one tally per alternative choice. */
  function AltVotes(scores: seq<int>, alt: seq<int>, cur: int, w: int): (v: seq<int>)
    requires forall j :: 0 <= j < |alt| ==> 0 <= alt[j] < |scores|
    ensures |v| == |alt|
  {
    seq(|alt|, j requires 0 <= j < |alt| => Hypothetical(scores, cur, w, alt[j]))
  }

  /**
   Voter i's heuristic best reply to winner w (main.py:24-30): the earliest
   alternative choice with the highest hypothetical tally.
   */
  function NewVote(prefs: seq<seq<int>>, votes: seq<int>, m: nat, w: int, i: nat): (v: int)
    requires ValidVotes(prefs, votes, m) && 0 <= w < m && i < |votes|
    ensures 0 <= v < m
  {
    var alt := AltChoices(prefs[i], w);
    alt[ArgMax(AltVotes(Scores(Ballots(votes, m), m), alt, votes[i], w))]
  }

  /**
   The best reply is a candidate the voter ranks no lower than w; no such
   candidate would reach a higher tally, and every candidate the voter
   prefers to it would reach a lower one.
   */
  lemma NewVoteIsBestReply(prefs: seq<seq<int>>, votes: seq<int>, m: nat, w: int, i: nat)
    requires ValidVotes(prefs, votes, m) && 0 <= w < m && i < |votes|
    ensures IndexOf(prefs[i], NewVote(prefs, votes, m, w, i)) <= IndexOf(prefs[i], w)
    ensures forall c :: 0 <= c < m && IndexOf(prefs[i], c) <= IndexOf(prefs[i], w) ==>
      Hypothetical(Scores(Ballots(votes, m), m), votes[i], w, c) <=
      Hypothetical(Scores(Ballots(votes, m), m), votes[i], w, NewVote(prefs, votes, m, w, i))
    ensures forall c :: 0 <= c < m && IndexOf(prefs[i], c) < IndexOf(prefs[i], NewVote(prefs, votes, m, w, i)) ==>
      Hypothetical(Scores(Ballots(votes, m), m), votes[i], w, c) <
      Hypothetical(Scores(Ballots(votes, m), m), votes[i], w, NewVote(prefs, votes, m, w, i))
  {
    var p := prefs[i];
    var scores := Scores(Ballots(votes, m), m);
    var alt := AltChoices(p, w);
    var tallies := AltVotes(scores, alt, votes[i], w);
    var k := ArgMax(tallies);
    ArgMaxIsFirstMax(tallies);
    IndexOfDistinct(p, k);
    IndexOfDistinct(p, |alt| - 1);
    forall c | 0 <= c < m && IndexOf(p, c) <= IndexOf(p, w)
      ensures tallies[IndexOf(p, c)] == Hypothetical(scores, votes[i], w, c)
    {
      assert alt[IndexOf(p, c)] == c;
    }
  }

  /** Voter i does not vote for w and its best reply is another candidate. */
  predicate Deviates(prefs: seq<seq<int>>, votes: seq<int>, m: nat, w: int, i: nat)
    requires ValidVotes(prefs, votes, m) && 0 <= w < m && i < |votes|
  {
    votes[i] != w && NewVote(prefs, votes, m, w, i) != votes[i]
  }

  /** Which voters deviate against w, in the order the inner `for i` loop (main.py:21-35) visits them. */
  function Deviations(prefs: seq<seq<int>>, votes: seq<int>, m: nat, w: int): (d: seq<bool>)
    requires ValidVotes(prefs, votes, m) && 0 <= w < m
    ensures |d| == |votes|
  {
    seq(|votes|, i requires 0 <= i < |votes| => Deviates(prefs, votes, m, w, i))
  }

  /** `np.argmax(np.sum(game, axis=0))` (main.py:19) for the ballots of the votes. */
  function CurrentWinner(votes: seq<int>, m: nat): (w: nat)
    requires m >= 1
    ensures w < m
  {
    Winner(Ballots(votes, m), m)
  }

  /**
   One round (main.py:19-35): against the current winner, the first deviating
   voter switches to its best reply. The flag says whether a vote changed.
   */
  function Round(prefs: seq<seq<int>>, votes: seq<int>, m: nat): (r: (seq<int>, bool))
    requires ValidVotes(prefs, votes, m)
    ensures ValidVotes(prefs, r.0, m)
  {
    var w := CurrentWinner(votes, m);
    match FirstTrue(Deviations(prefs, votes, m, w), 0)
    case None => (votes, false)
    case Some(i) => (votes[i := NewVote(prefs, votes, m, w, i)], true)
  }

  /** A round as a step of the `while` loop, leaving states that are not valid alone. */
  function Step(prefs: seq<seq<int>>, m: nat): seq<int> -> (seq<int>, bool)
  {
    votes => if ValidVotes(prefs, votes, m) then Round(prefs, votes, m) else (votes, false)
  }

  /** No voter deviates from its vote against the winner of the votes. */
  predicate IsEquilibrium(prefs: seq<seq<int>>, votes: seq<int>, m: nat)
    requires ValidVotes(prefs, votes, m)
  {
    forall i :: 0 <= i < |votes| ==> !Deviates(prefs, votes, m, CurrentWinner(votes, m), i)
  }

  /** The votes and the value of `t` the simulator ends with. */
  function FinalRun(prefs: seq<seq<int>>, m: nat): (r: (seq<int>, nat, bool))
    requires ValidProfile(prefs, |prefs|, m)
    ensures ValidVotes(prefs, r.0, m)
  {
    IterateKeeps(Step(prefs, m), votes => ValidVotes(prefs, votes, m), TruthfulVotes(prefs, m), 1, true);
    Iterate(Step(prefs, m), TruthfulVotes(prefs, m), 1, true)
  }

  /** The tuple `best_response_dynamics_plurality(n, m, preferences)` returns (main.py:37-40). */
  function Run(n: nat, m: nat, preferences: seq<seq<int>>): Outcome
    requires ValidProfile(ZeroBased(preferences), n, m)
  {
    var prefs := ZeroBased(preferences);
    var g0 := Ballots(TruthfulVotes(prefs, m), m);
    var w0 := Winner(g0, m);
    var final := FinalRun(prefs, m);
    var g1 := Ballots(final.0, m);
    var w1 := Winner(g1, m);
    Outcome(w0 + 1, Sum(Column(g0, w0)), w1 + 1, Sum(Column(g1, w1)), final.1 - 1)
  }

  // ---------------------------------------------------------------- properties

  /** Every ballot hands out one vote, so the scores always add up to n. */
  lemma TotalVotes(votes: seq<int>, m: nat)
    requires forall i :: 0 <= i < |votes| ==> 0 <= votes[i] < m
    ensures Sum(Scores(Ballots(votes, m), m)) == |votes|
  {
    var g := Ballots(votes, m);
    TotalIsSumOfRows(g, m);
    forall i | 0 <= i < |g| ensures RowSums(g)[i] == 1 {
      OneHotBallot(votes[i], m);
    }
    SumConstant(RowSums(g), 1);
  }

  /** The score of a candidate is the number of voters that vote for it. */
  lemma {:induction false} ScoresCountVotes(votes: seq<int>, m: nat, c: nat)
    requires c < m
    ensures Scores(Ballots(votes, m), m)[c] == multiset(votes)[c]
  {
    if votes != [] {
      var k := |votes| - 1;
      var h := votes[..k];
      ScoresCountVotes(h, m, c);
      assert Column(Ballots(votes, m), c)[..k] == Column(Ballots(h, m), c);
      assert votes == h + [votes[k]];
    }
  }

  /**
   A round changes a vote exactly when some voter deviates; then only the
   vote of the lowest-numbered deviating voter changes, to its best reply.
   */
  lemma RoundChangesFirstDeviator(prefs: seq<seq<int>>, votes: seq<int>, m: nat)
    requires ValidVotes(prefs, votes, m)
    ensures Round(prefs, votes, m).1 <==>
      exists i :: 0 <= i < |votes| && Deviates(prefs, votes, m, CurrentWinner(votes, m), i)
    ensures !Round(prefs, votes, m).1 ==> Round(prefs, votes, m).0 == votes
    ensures forall i :: 0 <= i < |votes| && Round(prefs, votes, m).0[i] != votes[i] ==>
      && Deviates(prefs, votes, m, CurrentWinner(votes, m), i)
      && (forall k :: 0 <= k < i ==> !Deviates(prefs, votes, m, CurrentWinner(votes, m), k))
      && Round(prefs, votes, m).0[i] == NewVote(prefs, votes, m, CurrentWinner(votes, m), i)
      && (forall k :: 0 <= k < |votes| && k != i ==> Round(prefs, votes, m).0[k] == votes[k])
  {
    var w := CurrentWinner(votes, m);
    var d := Deviations(prefs, votes, m, w);
    FirstTrueIsFirst(d, 0);
    forall k | 0 <= k < |votes| ensures d[k] == Deviates(prefs, votes, m, w, k) {
    }
    if FirstTrue(d, 0).Some? {
      var i := FirstTrue(d, 0).value;
      assert Round(prefs, votes, m).0 == votes[i := NewVote(prefs, votes, m, w, i)];
    }
  }

  /** When voter i is the first to deviate, the round switches exactly its vote, to its best reply. */
  lemma FirstDeviatorSwitches(prefs: seq<seq<int>>, votes: seq<int>, m: nat, i: nat)
    requires ValidVotes(prefs, votes, m) && i < |votes|
    requires Deviates(prefs, votes, m, CurrentWinner(votes, m), i)
    requires forall k :: 0 <= k < i ==> !Deviates(prefs, votes, m, CurrentWinner(votes, m), k)
    ensures Round(prefs, votes, m) == (votes[i := NewVote(prefs, votes, m, CurrentWinner(votes, m), i)], true)
  {
    var d := Deviations(prefs, votes, m, CurrentWinner(votes, m));
    forall k | 0 <= k < i ensures !d[k] {
    }
    FirstTrueAt(d, 0, i);
  }

  /** A round that reports no change leaves the votes as they are. */
  lemma StepUnchanged(prefs: seq<seq<int>>, m: nat)
    ensures forall votes :: !Step(prefs, m)(votes).1 ==> Step(prefs, m)(votes).0 == votes
  {
    forall votes | ValidVotes(prefs, votes, m) && !Step(prefs, m)(votes).1
      ensures Step(prefs, m)(votes).0 == votes
    {
      RoundChangesFirstDeviator(prefs, votes, m);
    }
  }

  /** The simulator reports between 1 and TMax rounds and 1-based winners that exist. */
  lemma RunBounds(n: nat, m: nat, preferences: seq<seq<int>>)
    requires ValidProfile(ZeroBased(preferences), n, m)
    ensures 1 <= Run(n, m, preferences).rounds <= TMax
    ensures 1 <= Run(n, m, preferences).startWinner <= m && 1 <= Run(n, m, preferences).endWinner <= m
  {
    var prefs := ZeroBased(preferences);
    IterateBounds(Step(prefs, m), TruthfulVotes(prefs, m), 1, true);
    IterateRuns(Step(prefs, m), TruthfulVotes(prefs, m), 1);
  }

  /**
   The loop ends either after a round that changed nothing, and then no voter
   deviates any more, or after a round that changed something, and then it
   reports TMax rounds; so reporting fewer rounds means a fixed point.
   */
  lemma RunConverged(n: nat, m: nat, preferences: seq<seq<int>>)
    requires ValidProfile(ZeroBased(preferences), n, m)
    ensures !FinalRun(ZeroBased(preferences), m).2 ==>
      IsEquilibrium(ZeroBased(preferences), FinalRun(ZeroBased(preferences), m).0, m)
    ensures FinalRun(ZeroBased(preferences), m).2 ==> Run(n, m, preferences).rounds == TMax
    ensures Run(n, m, preferences).rounds < TMax ==>
      IsEquilibrium(ZeroBased(preferences), FinalRun(ZeroBased(preferences), m).0, m)
  {
    var prefs := ZeroBased(preferences);
    StepUnchanged(prefs, m);
    IterateStops(Step(prefs, m), TruthfulVotes(prefs, m), 1, true);
    RoundChangesFirstDeviator(prefs, FinalRun(prefs, m).0, m);
  }

  // ---------------------------------------------------------------- the simulator

  /** `np.zeros((n, m))` followed by main.py:12, one row per voter. */
  method NewTruthfulTable(prefs: seq<seq<int>>, m: nat) returns (game: array2<int>)
    requires ValidProfile(prefs, |prefs|, m)
    ensures fresh(game)
    ensures game.Length0 == |prefs| && game.Length1 == m
    ensures Table(game) == Ballots(TruthfulVotes(prefs, m), m)
  {
    game := new int[|prefs|, m]((_, _) => 0);
    for i := 0 to |prefs|
      invariant forall k, c :: 0 <= k < |prefs| && 0 <= c < m ==>
                  game[k, c] == if k < i && c == prefs[k][0] then 1 else 0
    {
      game[i, prefs[i][0]] := 1;
    }
    ghost var g := Ballots(TruthfulVotes(prefs, m), m);
    forall k | 0 <= k < |prefs| ensures Table(game)[k] == g[k] {
      assert forall c :: 0 <= c < m ==> Table(game)[k][c] == g[k][c];
    }
  }

  /** The j-loop of main.py:27-29, from the scores of the alternative choices (main.py:25). */
  method AltTally(scores: seq<int>, alt: seq<int>, cur: int, w: int) returns (altVotes: seq<int>)
    requires forall j :: 0 <= j < |alt| ==> 0 <= alt[j] < |scores|
    ensures altVotes == AltVotes(scores, alt, cur, w)
  {
    altVotes := seq(|alt|, j requires 0 <= j < |alt| => scores[alt[j]]);
    for j := 0 to |alt|
      invariant |altVotes| == |alt|
      invariant forall k :: 0 <= k < |alt| ==>
                  altVotes[k] == if k < j then Hypothetical(scores, cur, w, alt[k]) else scores[alt[k]]
    {
      if alt[j] != cur && alt[j] != w {
        altVotes := altVotes[j := altVotes[j] + 1];
      }
    }
  }

  /**
   Voter i's step of the scan (main.py:22-31) on a table holding the ballots
   of votes: its current vote, whether it deviates from it against winner,
   and if so its best reply.
   */
  method BestReply(game: array2<int>, prefs: seq<seq<int>>, m: nat, winner: int, i: nat, ghost votes: seq<int>)
      returns (deviates: bool, currentVote: int, newVote: int)
    requires ValidVotes(prefs, votes, m) && Table(game) == Ballots(votes, m)
    requires 0 <= winner < m && i < |prefs|
    ensures deviates == Deviates(prefs, votes, m, winner, i)
    ensures currentVote == votes[i]
    ensures deviates ==> newVote == NewVote(prefs, votes, m, winner, i)
  {
    OneHotBallot(votes[i], m);
    currentVote := IndexOf(Table(game)[i], 1);
    deviates, newVote := false, currentVote;
    if currentVote != winner {
      var altChoices := prefs[i][..IndexOf(prefs[i], winner) + 1];
      var altVotes := AltTally(Scores(Table(game), m), altChoices, currentVote, winner);
      newVote := altChoices[ArgMax(altVotes)];
      deviates := newVote != currentVote;
    }
  }

  /**
   The `for i` loop of main.py:21-35 up to its `break`: the first voter that
   deviates from its current vote against winner, if any, with its best reply.
   */
  method FirstDeviator(game: array2<int>, prefs: seq<seq<int>>, m: nat, winner: int, ghost votes: seq<int>)
      returns (found: bool, i: nat, currentVote: int, newVote: int)
    requires ValidVotes(prefs, votes, m) && Table(game) == Ballots(votes, m) && 0 <= winner < m
    ensures (if found then Some(i) else None) == FirstTrue(Deviations(prefs, votes, m, winner), 0)
    ensures found ==> i < |votes| && currentVote == votes[i] && newVote == NewVote(prefs, votes, m, winner, i)
  {
    found, i, currentVote, newVote := false, 0, 0, 0;
    while i < game.Length0
      invariant 0 <= i <= game.Length0 == |votes|
      invariant FirstTrue(Deviations(prefs, votes, m, winner), i) == FirstTrue(Deviations(prefs, votes, m, winner), 0)
    {
      var deviates;
      deviates, currentVote, newVote := BestReply(game, prefs, m, winner, i, votes);
      if deviates {
        found := true;
        break;
      }
      i := i + 1;
    }
  }

  /** `game[i, current_vote] = 0; game[i, new_vote] = 1` (main.py:32-33). */
  method SwitchVote(game: array2<int>, i: nat, currentVote: int, newVote: int)
    requires i < game.Length0 && 0 <= currentVote < game.Length1 && 0 <= newVote < game.Length1
    modifies game
    ensures Table(game) == old(Table(game))[i := old(Table(game))[i][currentVote := 0][newVote := 1]]
  {
    SetCell(game, i, currentVote, 0);
    SetCell(game, i, newVote, 1);
  }

  /** One pass of the `while` body (main.py:19-35), in place on a table holding the ballots of votes. */
  method PlayRound(game: array2<int>, prefs: seq<seq<int>>, m: nat, ghost votes: seq<int>)
      returns (changed: bool, ghost next: seq<int>)
    requires ValidVotes(prefs, votes, m) && Table(game) == Ballots(votes, m)
    modifies game
    ensures (next, changed) == Step(prefs, m)(votes)
    ensures ValidVotes(prefs, next, m) && Table(game) == Ballots(next, m)
  {
    next := Round(prefs, votes, m).0;
    var winner := Winner(Table(game), m);
    var i, currentVote, newVote;
    changed, i, currentVote, newVote := FirstDeviator(game, prefs, m, winner, votes);
    if changed {
      Switch(votes, m, i, newVote);
      SwitchVote(game, i, currentVote, newVote);
    }
  }

  /**
   The `while changed and t <= tmax` loop (main.py:17-36), in place on a
   table holding the ballots of votes; returns the final `t`.
   */
  method PlayRounds(game: array2<int>, prefs: seq<seq<int>>, m: nat, t0: nat, changed0: bool, ghost votes: seq<int>)
      returns (t: nat)
    requires ValidVotes(prefs, votes, m) && Table(game) == Ballots(votes, m) && 1 <= t0 <= TMax + 1
    modifies game
    ensures t == Iterate(Step(prefs, m), votes, t0, changed0).1 && t0 <= t
    ensures Table(game) == Ballots(Iterate(Step(prefs, m), votes, t0, changed0).0, m)
  {
    ghost var current := votes;
    var changed := changed0;
    t := t0;
    while changed && t <= TMax
      invariant t0 <= t <= TMax + 1
      invariant ValidVotes(prefs, current, m) && Table(game) == Ballots(current, m)
      invariant Iterate(Step(prefs, m), current, t, changed) == Iterate(Step(prefs, m), votes, t0, changed0)
      decreases TMax + 1 - t
    {
      IterateStep(Step(prefs, m), current, t);
      changed, current := PlayRound(game, prefs, m, current);
      t := t + 1;
    }
  }

  /** `best_response_dynamics_plurality(n, m, preferences)` (main.py:8-40). */
  method BestResponseDynamics(n: nat, m: nat, preferences: seq<seq<int>>) returns (r: Outcome)
    requires ValidProfile(ZeroBased(preferences), n, m)
    ensures r == Run(n, m, preferences)
  {
    var prefs := ZeroBased(preferences);
    var game := NewTruthfulTable(prefs, m);
    var startWinner := Winner(Table(game), m);
    var startVotes := Sum(Column(Table(game), startWinner));
    var t := PlayRounds(game, prefs, m, 1, true, TruthfulVotes(prefs, m));
    var endWinner := Winner(Table(game), m);
    var endVotes := Sum(Column(Table(game), endWinner));
    r := Outcome(startWinner + 1, startVotes, endWinner + 1, endVotes, t - 1);
  }
}
