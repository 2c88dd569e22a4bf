/**
 Best-response dynamics under the Borda rule (`best_response_dynamics_borda`,
 main.py:43-81). Row i of the table is voter i's ballot: the candidate it
 puts in position j of its declared ranking gets m-1-j points. A voter that
 changes its vote declares its true ranking with the new favourite moved to
 the front. As under plurality, every round lets only the first deviating
 voter change its ballot.
 */
module Borda {
  import opened Seqs
  import opened Rankings
  import opened Tally

  // ---------------------------------------------------------------- ballots

  /** A row of m zeros, `np.zeros(m)`. */
  function Zeros(m: nat): (z: seq<int>)
    ensures |z| == m
  {
    seq(m, c requires 0 <= c < m => 0)
  }

  /** Every entry of order is a column of a row of width m. */
  predicate Columns(order: seq<int>, m: nat)
  {
    forall j :: 0 <= j < |order| ==> 0 <= order[j] < m
  }

  /**
   The row base after `for j in range(k): row[order[j]] = m-1-j`, where m is
   the width of the row (main.py:47-48 and 73-74).
   */
  function WritePoints(base: seq<int>, order: seq<int>, k: nat): (row: seq<int>)
    requires k <= |order| && Columns(order, |base|)
    ensures |row| == |base|
  {
    if k == 0 then base else WritePoints(base, order, k - 1)[order[k - 1] := |base| - k]
  }

  /** The Borda ballot of a ranking: m-1-j points for the candidate in position j. */
  function Points(order: seq<int>, m: nat): (row: seq<int>)
    requires IsPerm(order, m)
  {
    WritePoints(Zeros(m), order, |order|)
  }

  /** A column none of the first k writes touches keeps its entry. */
  lemma {:induction false} WritePointsUnwritten(base: seq<int>, order: seq<int>, k: nat, c: int)
    requires k <= |order| && Columns(order, |base|) && 0 <= c < |base| && c !in order[..k]
    ensures WritePoints(base, order, k)[c] == base[c]
  {
    if k > 0 {
      assert order[..k] == order[..k - 1] + [order[k - 1]];
      WritePointsUnwritten(base, order, k - 1, c);
    }
  }

  /** After the first k writes, the candidate in position j < k holds m-1-j points. */
  lemma {:induction false} WritePointsWritten(base: seq<int>, order: seq<int>, k: nat, j: nat)
    requires k <= |order| && Columns(order, |base|) && Distinct(order) && j < k
    ensures WritePoints(base, order, k)[order[j]] == |base| - 1 - j
  {
    if j < k - 1 {
      WritePointsWritten(base, order, k - 1, j);
    }
  }

  /** Writing a whole ranking overwrites every column, whatever the row held. */
  lemma WritePointsFull(base: seq<int>, order: seq<int>, m: nat)
    requires IsPerm(order, m) && |base| == m
    ensures WritePoints(base, order, m) == Points(order, m)
  {
    forall c | 0 <= c < m ensures WritePoints(base, order, m)[c] == Points(order, m)[c] {
      WritePointsWritten(base, order, m, IndexOf(order, c));
      WritePointsWritten(Zeros(m), order, m, IndexOf(order, c));
    }
  }

  /** Within a ballot, the candidate in position j of the ranking gets m-1-j points. */
  lemma PointsAt(order: seq<int>, m: nat, j: nat)
    requires IsPerm(order, m) && j < m
    ensures |Points(order, m)| == m && Points(order, m)[order[j]] == m - 1 - j
  {
    WritePointsWritten(Zeros(m), order, m, j);
  }

  /** A Borda ballot hands out each of the point values 0..m-1 exactly once. */
  lemma PointsIsPerm(order: seq<int>, m: nat)
    requires IsPerm(order, m)
    ensures IsPerm(Points(order, m), m)
  {
    var row := Points(order, m);
    forall j | 0 <= j < m ensures row[order[j]] == m - 1 - j {
      PointsAt(order, m, j);
    }
    forall c | 0 <= c < m ensures row[c] == m - 1 - IndexOf(order, c) {
      PointsAt(order, m, IndexOf(order, c));
    }
    forall a, b | 0 <= a < b < m ensures row[a] != row[b] {
      assert order[IndexOf(order, a)] == a && order[IndexOf(order, b)] == b;
    }
    forall v | 0 <= v < m ensures v in row {
      assert row[order[m - 1 - v]] == v;
    }
  }

  /** (m-1) + (m-2) + ... + (m-k): the points the first k positions of a ballot hand out. */
  function TopPoints(m: nat, k: nat): int
  {
    if k == 0 then 0 else TopPoints(m, k - 1) + (m - k)
  }

  /** That is k(2m-1-k)/2, so all m positions together hand out m(m-1)/2 points. */
  lemma {:induction false} TopPointsClosed(m: nat, k: nat)
    ensures 2 * TopPoints(m, k) == k * (2 * m - 1 - k)
  {
    if k > 0 {
      TopPointsClosed(m, k - 1);
      assert k * (2 * m - 1 - k) == (k - 1) * (2 * m - 1 - (k - 1)) + 2 * (m - k);
    }
  }

  /** The first k writes of a ranking into a row of zeros hand out TopPoints(m, k). */
  lemma {:induction false} WritePointsSum(order: seq<int>, m: nat, k: nat)
    requires IsPerm(order, m) && k <= m
    ensures Sum(WritePoints(Zeros(m), order, k)) == TopPoints(m, k)
  {
    if k == 0 {
      SumConstant(Zeros(m), 0);
    } else {
      var before := WritePoints(Zeros(m), order, k - 1);
      var c := order[k - 1];
      WritePointsSum(order, m, k - 1);
      DistinctPrefix(order, k - 1);
      WritePointsUnwritten(Zeros(m), order, k - 1, c);
      assert before[c] == 0;
      SumUpdate(before, c, m - k);
      assert WritePoints(Zeros(m), order, k) == before[c := m - k];
    }
  }

  /** A Borda ballot hands out m(m-1)/2 points. */
  lemma PointsSum(order: seq<int>, m: nat)
    requires IsPerm(order, m)
    ensures 2 * Sum(Points(order, m)) == m * (m - 1)
  {
    WritePointsSum(order, m, m);
    TopPointsClosed(m, m);
  }

  /** The only column holding m-1 points is that of the top of the ranking. */
  lemma PointsTop(order: seq<int>, m: nat)
    requires IsPerm(order, m) && m >= 1
    ensures m - 1 in Points(order, m) && IndexOf(Points(order, m), m - 1) == order[0]
  {
    PointsAt(order, m, 0);
    PointsIsPerm(order, m);
    IndexOfDistinct(Points(order, m), order[0]);
  }

  /**
   The ballot of a voter with true ranking pref that votes for v
   (main.py:70-74): its true ranking with v moved to the front, written
   out as Borda points.
   */
  function Ballot(pref: seq<int>, v: int, m: nat): (row: seq<int>)
    requires IsPerm(pref, m) && 0 <= v < m
    ensures |row| == m
  {
    MoveToFrontIsPerm(pref, m, v);
    Points(MoveToFront(pref, v), m)
  }

  /**
   In the ballot for v, v gets m-1 points, the candidates the voter truly
   ranks above v drop one place and those below v keep their true points.
   */
  lemma BallotPoints(pref: seq<int>, m: nat, v: int, c: int)
    requires IsPerm(pref, m) && 0 <= v < m && 0 <= c < m
    ensures Ballot(pref, v, m)[c] ==
      if c == v then m - 1
      else if IndexOf(pref, c) < IndexOf(pref, v) then m - 2 - IndexOf(pref, c)
      else m - 1 - IndexOf(pref, c)
  {
    var q := MoveToFront(pref, v);
    MoveToFrontRanks(pref, m, v, c);
    PointsAt(q, m, IndexOf(q, c));
  }

  // ---------------------------------------------------------------- the table

  /**
   What the simulator keeps between rounds: a true ranking per voter
   (0-based) and the ranking each voter currently declares.
   */
  predicate Declared(prefs: seq<seq<int>>, orders: seq<seq<int>>, m: nat)
  {
    ValidProfile(prefs, |prefs|, m) && |orders| == |prefs| && forall i :: 0 <= i < |orders| ==> IsPerm(orders[i], m)
  }

  /** The table `game`: row k holds the Borda points of voter k's declared ranking. */
  function Game(orders: seq<seq<int>>, m: nat): (g: seq<seq<int>>)
    requires forall k :: 0 <= k < |orders| ==> IsPerm(orders[k], m)
    ensures |g| == |orders| && Rectangular(g, m)
  {
    seq(|orders|, k requires 0 <= k < |orders| => Points(orders[k], m))
  }

  /** Every ballot hands out m(m-1)/2 points, so the scores always add up to n·m(m-1)/2. */
  lemma TotalPoints(orders: seq<seq<int>>, m: nat)
    requires forall k :: 0 <= k < |orders| ==> IsPerm(orders[k], m)
    ensures 2 * Sum(Scores(Game(orders, m), m)) == |orders| * (m * (m - 1))
  {
    var g := Game(orders, m);
    TotalIsSumOfRows(g, m);
    var twice := seq(|g|, i requires 0 <= i < |g| => 2 * RowSums(g)[i]);
    forall i | 0 <= i < |g| ensures twice[i] == m * (m - 1) {
      PointsSum(orders[i], m);
    }
    SumConstant(twice, m * (m - 1));
    SumPointwise(RowSums(g), RowSums(g), twice);
  }

  // ---------------------------------------------------------------- one round

  /**
   The tally candidate c would reach if the voter, whose ballot is row, put
   c first (main.py:62-66): its score without this voter's points, plus m-1
   unless c is the winner w.
   */
  function Hypothetical(scores: seq<int>, row: seq<int>, w: int, m: nat, c: nat): int
    requires c < |scores| && c < |row|
  {
    scores[c] - row[c] + (if c != w then m - 1 else 0)
  }

  /** `alt_votes` after the j-loop (main.py:62-66), one tally per alternative choice. */
  function AltVotes(scores: seq<int>, row: seq<int>, alt: seq<int>, w: int, m: nat): (v: seq<int>)
    requires forall j :: 0 <= j < |alt| ==> 0 <= alt[j] < |scores| && alt[j] < |row|
    ensures |v| == |alt|
  {
    seq(|alt|, j requires 0 <= j < |alt| => Hypothetical(scores, row, w, m, alt[j]))
  }

  /**
   Voter i's heuristic best reply to winner w (main.py:60-67): the earliest
   alternative choice with the highest hypothetical tally.
   */
  function NewVote(prefs: seq<seq<int>>, orders: seq<seq<int>>, m: nat, w: int, i: nat): (v: int)
    requires Declared(prefs, orders, m) && 0 <= w < m && i < |orders|
    ensures 0 <= v < m
  {
    var g := Game(orders, m);
    var alt := AltChoices(prefs[i], w);
    alt[ArgMax(AltVotes(Scores(g, m), g[i], alt, w, m))]
  }

  /**
   The best reply is a candidate the voter ranks no lower than w; no such
   candidate would reach a higher tally, and every candidate the voter
   prefers to it would reach a lower one.
   */
  lemma NewVoteIsBestReply(prefs: seq<seq<int>>, orders: seq<seq<int>>, m: nat, w: int, i: nat)
    requires Declared(prefs, orders, m) && 0 <= w < m && i < |orders|
    ensures IndexOf(prefs[i], NewVote(prefs, orders, m, w, i)) <= IndexOf(prefs[i], w)
    ensures forall c :: 0 <= c < m && IndexOf(prefs[i], c) <= IndexOf(prefs[i], w) ==>
      Hypothetical(Scores(Game(orders, m), m), Game(orders, m)[i], w, m, c) <=
      Hypothetical(Scores(Game(orders, m), m), Game(orders, m)[i], w, m, NewVote(prefs, orders, m, w, i))
    ensures forall c :: 0 <= c < m && IndexOf(prefs[i], c) < IndexOf(prefs[i], NewVote(prefs, orders, m, w, i)) ==>
      Hypothetical(Scores(Game(orders, m), m), Game(orders, m)[i], w, m, c) <
      Hypothetical(Scores(Game(orders, m), m), Game(orders, m)[i], w, m, NewVote(prefs, orders, m, w, i))
  {
    var p := prefs[i];
    var g := Game(orders, m);
    var alt := AltChoices(p, w);
    var tallies := AltVotes(Scores(g, m), g[i], alt, w, m);
    var k := ArgMax(tallies);
    ArgMaxIsFirstMax(tallies);
    IndexOfDistinct(p, k);
    IndexOfDistinct(p, |alt| - 1);
    forall c | 0 <= c < m && IndexOf(p, c) <= IndexOf(p, w)
      ensures tallies[IndexOf(p, c)] == Hypothetical(Scores(g, m), g[i], w, m, c)
    {
      assert alt[IndexOf(p, c)] == c;
    }
  }

  /**
   Voter i, whose vote is the top of its declared ranking, does not vote for
   w and its best reply is another candidate.
   */
  predicate Deviates(prefs: seq<seq<int>>, orders: seq<seq<int>>, m: nat, w: int, i: nat)
    requires Declared(prefs, orders, m) && 0 <= w < m && i < |orders|
  {
    orders[i][0] != w && NewVote(prefs, orders, m, w, i) != orders[i][0]
  }

  /** Which voters deviate against w, in the order the inner `for i` loop (main.py:57-76) visits them. */
  function Deviations(prefs: seq<seq<int>>, orders: seq<seq<int>>, m: nat, w: int): (d: seq<bool>)
    requires Declared(prefs, orders, m) && 0 <= w < m
    ensures |d| == |orders|
  {
    seq(|orders|, i requires 0 <= i < |orders| => Deviates(prefs, orders, m, w, i))
  }

  /** `np.argmax(np.sum(game, axis=0))` (main.py:55). */
  function CurrentWinner(prefs: seq<seq<int>>, orders: seq<seq<int>>, m: nat): (w: nat)
    requires Declared(prefs, orders, m)
    ensures w < m
  {
    Winner(Game(orders, m), m)
  }

  /**
   One round (main.py:55-76): against the current winner, the first deviating
   voter switches to its best reply, declaring its true ranking with that
   candidate moved to the front. The flag says whether a ranking changed.
   */
  function Round(prefs: seq<seq<int>>, orders: seq<seq<int>>, m: nat): (r: (seq<seq<int>>, bool))
    requires Declared(prefs, orders, m)
    ensures Declared(prefs, r.0, m)
  {
    var w := CurrentWinner(prefs, orders, m);
    match FirstTrue(Deviations(prefs, orders, m, w), 0)
    case None => (orders, false)
    case Some(i) =>
      var v := NewVote(prefs, orders, m, w, i);
      MoveToFrontIsPerm(prefs[i], m, v);
      (orders[i := MoveToFront(prefs[i], v)], true)
  }

  /** A round as a step of the `while` loop, leaving states that are not valid alone. */
  function Step(prefs: seq<seq<int>>, m: nat): seq<seq<int>> -> (seq<seq<int>>, bool)
  {
    orders => if Declared(prefs, orders, m) then Round(prefs, orders, m) else (orders, false)
  }

  /** No voter deviates against the winner. */
  predicate IsEquilibrium(prefs: seq<seq<int>>, orders: seq<seq<int>>, m: nat)
    requires Declared(prefs, orders, m)
  {
    forall i :: 0 <= i < |orders| ==> !Deviates(prefs, orders, m, CurrentWinner(prefs, orders, m), i)
  }

  /**
   The declared rankings and the value of `t` the simulator ends with,
   starting from the true rankings (main.py:47-48).
   */
  function FinalRun(prefs: seq<seq<int>>, m: nat): (r: (seq<seq<int>>, nat, bool))
    requires ValidProfile(prefs, |prefs|, m)
    ensures Declared(prefs, r.0, m)
  {
    IterateKeeps(Step(prefs, m), orders => Declared(prefs, orders, m), prefs, 1, true);
    Iterate(Step(prefs, m), prefs, 1, true)
  }

  /** The tuple `best_response_dynamics_borda(n, m, preferences)` returns (main.py:78-81). */
  function Run(n: nat, m: nat, preferences: seq<seq<int>>): Outcome
    requires ValidProfile(ZeroBased(preferences), n, m)
  {
    var prefs := ZeroBased(preferences);
    var g0 := Game(prefs, m);
    var w0 := Winner(g0, m);
    var final := FinalRun(prefs, m);
    var g1 := Game(final.0, m);
    var w1 := Winner(g1, m);
    Outcome(w0 + 1, Sum(Column(g0, w0)), w1 + 1, Sum(Column(g1, w1)), final.1 - 1)
  }

  // ---------------------------------------------------------------- properties

  /**
   A round changes the table exactly when some voter deviates; then only the
   lowest-numbered deviating voter changes its ranking, to its true ranking
   with its best reply moved to the front, so that it now votes for that reply.
   */
  lemma RoundChangesFirstDeviator(prefs: seq<seq<int>>, orders: seq<seq<int>>, m: nat)
    requires Declared(prefs, orders, m)
    ensures Round(prefs, orders, m).1 <==>
      exists i :: 0 <= i < |orders| && Deviates(prefs, orders, m, CurrentWinner(prefs, orders, m), i)
    ensures !Round(prefs, orders, m).1 ==> Round(prefs, orders, m).0 == orders
    ensures forall i :: 0 <= i < |orders| && Round(prefs, orders, m).0[i] != orders[i] ==>
      && Deviates(prefs, orders, m, CurrentWinner(prefs, orders, m), i)
      && (forall k :: 0 <= k < i ==> !Deviates(prefs, orders, m, CurrentWinner(prefs, orders, m), k))
      && Round(prefs, orders, m).0[i] == MoveToFront(prefs[i], NewVote(prefs, orders, m, CurrentWinner(prefs, orders, m), i))
      && Round(prefs, orders, m).0[i][0] == NewVote(prefs, orders, m, CurrentWinner(prefs, orders, m), i)
      && (forall k :: 0 <= k < |orders| && k != i ==> Round(prefs, orders, m).0[k] == orders[k])
  {
    var w := CurrentWinner(prefs, orders, m);
    var d := Deviations(prefs, orders, m, w);
    FirstTrueIsFirst(d, 0);
    forall k | 0 <= k < |orders| ensures d[k] == Deviates(prefs, orders, m, w, k) {
    }
    if FirstTrue(d, 0).Some? {
      var i := FirstTrue(d, 0).value;
      var v := NewVote(prefs, orders, m, w, i);
      assert Round(prefs, orders, m).0 == orders[i := MoveToFront(prefs[i], v)];
      assert MoveToFront(prefs[i], v)[0] == v;
    }
  }

  /**
   When voter i is the first to deviate, the round rewrites exactly its
   ranking, to its true ranking with its best reply moved to the front.
   */
  lemma FirstDeviatorSwitches(prefs: seq<seq<int>>, orders: seq<seq<int>>, m: nat, i: nat)
    requires Declared(prefs, orders, m) && i < |orders|
    requires Deviates(prefs, orders, m, CurrentWinner(prefs, orders, m), i)
    requires forall k :: 0 <= k < i ==> !Deviates(prefs, orders, m, CurrentWinner(prefs, orders, m), k)
    ensures Round(prefs, orders, m) ==
      (orders[i := MoveToFront(prefs[i], NewVote(prefs, orders, m, CurrentWinner(prefs, orders, m), i))], true)
  {
    var d := Deviations(prefs, orders, m, CurrentWinner(prefs, orders, m));
    forall k | 0 <= k < i ensures !d[k] {
    }
    FirstTrueAt(d, 0, i);
  }

  /** A round that reports no change leaves the rankings as they are. */
  lemma StepUnchanged(prefs: seq<seq<int>>, m: nat)
    ensures forall orders :: !Step(prefs, m)(orders).1 ==> Step(prefs, m)(orders).0 == orders
  {
    forall orders | Declared(prefs, orders, m) && !Step(prefs, m)(orders).1
      ensures Step(prefs, m)(orders).0 == orders
    {
      RoundChangesFirstDeviator(prefs, orders, m);
    }
  }

  /**
   Declared rankings in which every voter's ranking is its true ranking with
   its current vote moved to the front.
   */
  predicate FromTruth(prefs: seq<seq<int>>, orders: seq<seq<int>>, m: nat)
  {
    Declared(prefs, orders, m) && forall i :: 0 <= i < |orders| ==> orders[i] == MoveToFront(prefs[i], orders[i][0])
  }

  /** The true rankings are of that form, and every round keeps it (main.py:70-72). */
  lemma StepFromTruth(prefs: seq<seq<int>>, m: nat)
    requires ValidProfile(prefs, |prefs|, m)
    ensures FromTruth(prefs, prefs, m)
    ensures forall orders {:trigger Step(prefs, m)(orders)} :: FromTruth(prefs, orders, m) ==> FromTruth(prefs, Step(prefs, m)(orders).0, m)
  {
    forall i | 0 <= i < |prefs| ensures prefs[i] == MoveToFront(prefs[i], prefs[i][0]) {
      MoveToFrontOfTop(prefs[i], m);
    }
    forall orders | FromTruth(prefs, orders, m)
      ensures FromTruth(prefs, Step(prefs, m)(orders).0, m)
    {
      RoundChangesFirstDeviator(prefs, orders, m);
    }
  }

  /** The simulator reports between 1 and TMax rounds and 1-based winners that exist. */
  lemma RunBounds(n: nat, m: nat, preferences: seq<seq<int>>)
    requires ValidProfile(ZeroBased(preferences), n, m)
    ensures 1 <= Run(n, m, preferences).rounds <= TMax
    ensures 1 <= Run(n, m, preferences).startWinner <= m && 1 <= Run(n, m, preferences).endWinner <= m
  {
    var prefs := ZeroBased(preferences);
    IterateBounds(Step(prefs, m), prefs, 1, true);
    IterateRuns(Step(prefs, m), prefs, 1);
  }

  /**
   The loop ends either after a round that changed nothing, and then no voter
   deviates any more, or after a round that changed something, and then it
   reports TMax rounds; so reporting fewer rounds means a fixed point.
   */
  lemma RunConverged(n: nat, m: nat, preferences: seq<seq<int>>)
    requires ValidProfile(ZeroBased(preferences), n, m)
    ensures !FinalRun(ZeroBased(preferences), m).2 ==>
      IsEquilibrium(ZeroBased(preferences), FinalRun(ZeroBased(preferences), m).0, m)
    ensures FinalRun(ZeroBased(preferences), m).2 ==> Run(n, m, preferences).rounds == TMax
    ensures Run(n, m, preferences).rounds < TMax ==>
      IsEquilibrium(ZeroBased(preferences), FinalRun(ZeroBased(preferences), m).0, m)
  {
    var prefs := ZeroBased(preferences);
    StepUnchanged(prefs, m);
    IterateStops(Step(prefs, m), prefs, 1, true);
    RoundChangesFirstDeviator(prefs, FinalRun(prefs, m).0, m);
  }

  /**
   Every row of the final table is its voter's true ranking with its vote
   moved to the front, written out as Borda points.
   */
  lemma RunDeclaresFromTruth(prefs: seq<seq<int>>, m: nat)
    requires ValidProfile(prefs, |prefs|, m)
    ensures forall i :: 0 <= i < |prefs| ==>
      Game(FinalRun(prefs, m).0, m)[i] == Ballot(prefs[i], FinalRun(prefs, m).0[i][0], m)
  {
    StepFromTruth(prefs, m);
    IterateKeeps(Step(prefs, m), orders => FromTruth(prefs, orders, m), prefs, 1, true);
    var final := FinalRun(prefs, m).0;
    forall i | 0 <= i < |prefs| ensures Game(final, m)[i] == Ballot(prefs[i], final[i][0], m) {
      assert final[i] == MoveToFront(prefs[i], final[i][0]);
    }
  }

  // ---------------------------------------------------------------- the simulator

  /** One pass of the initialisation loop (main.py:48): every voter's j-th candidate gets m-1-j points. */
  method PlaceColumn(game: array2<int>, prefs: seq<seq<int>>, m: nat, j: nat)
    requires game.Length0 == |prefs| && game.Length1 == m
    requires ValidProfile(prefs, |prefs|, m) && j < m
    modifies game
    ensures Table(game) == seq(|prefs|, k requires 0 <= k < |prefs| => old(Table(game))[k][prefs[k][j] := m - 1 - j])
  {
    ghost var g := Table(game);
    for i := 0 to |prefs|
      invariant Table(game) == seq(|prefs|, k requires 0 <= k < |prefs| =>
                  if k < i then g[k][prefs[k][j] := m - 1 - j] else g[k])
    {
      SetCell(game, i, prefs[i][j], m - 1 - j);
    }
  }

  /** `np.zeros((n, m))` followed by the loop of main.py:47-48: every voter declares its true ranking. */
  method NewTruthfulTable(prefs: seq<seq<int>>, m: nat) returns (game: array2<int>)
    requires ValidProfile(prefs, |prefs|, m)
    ensures fresh(game)
    ensures game.Length0 == |prefs| && game.Length1 == m
    ensures Table(game) == Game(prefs, m)
  {
    game := new int[|prefs|, m]((_, _) => 0);
    assert Table(game) == seq(|prefs|, k requires 0 <= k < |prefs| => WritePoints(Zeros(m), prefs[k], 0)) by {
      forall k | 0 <= k < |prefs| ensures Table(game)[k] == Zeros(m) {
        assert forall c :: 0 <= c < m ==> Table(game)[k][c] == 0;
      }
    }
    for j := 0 to m
      invariant Table(game) == seq(|prefs|, k requires 0 <= k < |prefs| => WritePoints(Zeros(m), prefs[k], j))
    {
      PlaceColumn(game, prefs, m, j);
    }
  }

  /**
   `alt_votes` of main.py:62-66: the scores of the alternative choices minus
   this voter's points for them, then m-1 more for each that is not the winner.
   */
  method AltTally(scores: seq<int>, row: seq<int>, alt: seq<int>, w: int, m: nat) returns (altVotes: seq<int>)
    requires forall j :: 0 <= j < |alt| ==> 0 <= alt[j] < |scores| && alt[j] < |row|
    ensures altVotes == AltVotes(scores, row, alt, w, m)
  {
    altVotes := seq(|alt|, j requires 0 <= j < |alt| => scores[alt[j]] - row[alt[j]]);
    for j := 0 to |alt|
      invariant |altVotes| == |alt|
      invariant forall k :: 0 <= k < |alt| ==>
                  altVotes[k] == if k < j then Hypothetical(scores, row, w, m, alt[k]) else scores[alt[k]] - row[alt[k]]
    {
      if alt[j] != w {
        altVotes := altVotes[j := altVotes[j] + (m - 1)];
      }
    }
  }

  /**
   Voter i's step of the scan (main.py:58-67) on the table of the declared
   rankings: its current vote, read off as the column holding m-1 points,
   whether it deviates against winner, and if so its best reply.
   */
  method BestReply(game: array2<int>, prefs: seq<seq<int>>, m: nat, winner: int, i: nat, ghost orders: seq<seq<int>>)
      returns (deviates: bool, currentVote: int, newVote: int)
    requires Declared(prefs, orders, m) && Table(game) == Game(orders, m)
    requires 0 <= winner < m && i < |prefs|
    ensures deviates == Deviates(prefs, orders, m, winner, i)
    ensures currentVote == orders[i][0]
    ensures deviates ==> newVote == NewVote(prefs, orders, m, winner, i)
  {
    PointsTop(orders[i], m);
    currentVote := IndexOf(Table(game)[i], m - 1);
    deviates, newVote := false, currentVote;
    if currentVote != winner {
      var altChoices := prefs[i][..IndexOf(prefs[i], winner) + 1];
      var altVotes := AltTally(Scores(Table(game), m), Table(game)[i], altChoices, winner, m);
      newVote := altChoices[ArgMax(altVotes)];
      deviates := newVote != currentVote;
    }
  }

  /**
   The `for i` loop of main.py:57-76 up to its `break`: the first voter that
   deviates against winner, if any, with its best reply.
   */
  method FirstDeviator(game: array2<int>, prefs: seq<seq<int>>, m: nat, winner: int, ghost orders: seq<seq<int>>)
      returns (found: bool, i: nat, newVote: int)
    requires Declared(prefs, orders, m) && Table(game) == Game(orders, m) && 0 <= winner < m
    ensures (if found then Some(i) else None) == FirstTrue(Deviations(prefs, orders, m, winner), 0)
    ensures found ==> i < |orders| && newVote == NewVote(prefs, orders, m, winner, i)
  {
    found, i, newVote := false, 0, 0;
    while i < game.Length0
      invariant 0 <= i <= game.Length0 == |orders|
      invariant FirstTrue(Deviations(prefs, orders, m, winner), i) == FirstTrue(Deviations(prefs, orders, m, winner), 0)
    {
      var deviates, currentVote;
      deviates, currentVote, newVote := BestReply(game, prefs, m, winner, i, orders);
      if deviates {
        found := true;
        break;
      }
      i := i + 1;
    }
  }

  /** `for j in range(m): game[i, order[j]] = m - 1 - j` (main.py:73-74). */
  method RewriteRow(game: array2<int>, i: nat, order: seq<int>, m: nat)
    requires i < game.Length0 && game.Length1 == m && IsPerm(order, m)
    modifies game
    ensures Table(game) == old(Table(game))[i := Points(order, m)]
  {
    ghost var g := Table(game);
    assert g[i := WritePoints(g[i], order, 0)] == g;
    for j := 0 to m
      invariant Table(game) == g[i := WritePoints(g[i], order, j)]
    {
      SetCell(game, i, order[j], m - 1 - j);
    }
    WritePointsFull(g[i], order, m);
  }

  /** One pass of the `while` body (main.py:55-76), in place on the table of the declared rankings. */
  method PlayRound(game: array2<int>, prefs: seq<seq<int>>, m: nat, ghost orders: seq<seq<int>>)
      returns (changed: bool, ghost next: seq<seq<int>>)
    requires Declared(prefs, orders, m) && Table(game) == Game(orders, m)
    modifies game
    ensures (next, changed) == Step(prefs, m)(orders)
    ensures Declared(prefs, next, m) && Table(game) == Game(next, m)
  {
    next := Round(prefs, orders, m).0;
    var winner := Winner(Table(game), m);
    var i, newVote;
    changed, i, newVote := FirstDeviator(game, prefs, m, winner, orders);
    if changed {
      var tempPreferences := [newVote] + Without(prefs[i], newVote);
      DeleteInsert(prefs[i], m, newVote);
      MoveToFrontIsPerm(prefs[i], m, newVote);
      RewriteRow(game, i, tempPreferences, m);
      assert Game(orders[i := tempPreferences], m) == Game(orders, m)[i := Points(tempPreferences, m)];
    }
  }

  /**
   The `while changed and t <= tmax` loop (main.py:53-77), in place on the
   table of the declared rankings; returns the final `t`.
   */
  method PlayRounds(game: array2<int>, prefs: seq<seq<int>>, m: nat, t0: nat, changed0: bool, ghost orders: seq<seq<int>>)
      returns (t: nat)
    requires Declared(prefs, orders, m) && Table(game) == Game(orders, m) && 1 <= t0 <= TMax + 1
    modifies game
    ensures t == Iterate(Step(prefs, m), orders, t0, changed0).1 && t0 <= t
    ensures Declared(prefs, Iterate(Step(prefs, m), orders, t0, changed0).0, m)
    ensures Table(game) == Game(Iterate(Step(prefs, m), orders, t0, changed0).0, m)
  {
    ghost var current := orders;
    var changed := changed0;
    t := t0;
    while changed && t <= TMax
      invariant t0 <= t <= TMax + 1
      invariant Declared(prefs, current, m) && Table(game) == Game(current, m)
      invariant Iterate(Step(prefs, m), current, t, changed) == Iterate(Step(prefs, m), orders, t0, changed0)
      decreases TMax + 1 - t
    {
      IterateStep(Step(prefs, m), current, t);
      changed, current := PlayRound(game, prefs, m, current);
      t := t + 1;
    }
  }

  /** `best_response_dynamics_borda(n, m, preferences)` (main.py:43-81). */
  method BestResponseDynamics(n: nat, m: nat, preferences: seq<seq<int>>) returns (r: Outcome)
    requires ValidProfile(ZeroBased(preferences), n, m)
    ensures r == Run(n, m, preferences)
  {
    var prefs := ZeroBased(preferences);
    var game := NewTruthfulTable(prefs, m);
    var startWinner := Winner(Table(game), m);
    var startVotes := Sum(Column(Table(game), startWinner));
    var t := PlayRounds(game, prefs, m, 1, true, prefs);
    var endWinner := Winner(Table(game), m);
    var endVotes := Sum(Column(Table(game), endWinner));
    r := Outcome(startWinner + 1, startVotes, endWinner + 1, endVotes, t - 1);
  }
}
