/**
 The n-by-m table `game` both simulators keep (one row per voter, one column
 per candidate), its column sums `np.sum(game, axis=0)`, the winner
 `np.argmax` of those sums, and the result record.
 */
module Tally {
  import opened Seqs

  /** The round cap `tmax` (main.py:17, 53). */
  const TMax: nat := 1000

  /**
   The tuple both simulators return: 1-based start and end winners, their
   column sums and the number of rounds executed.
   */
  datatype Outcome = Outcome(startWinner: int, startScore: int, endWinner: int, endScore: int, rounds: int)

  /** Every row has m entries. */
  predicate Rectangular(g: seq<seq<int>>, m: nat)
  {
    forall i :: 0 <= i < |g| ==> |g[i]| == m
  }

  /** `game[:, c]`. */
  function Column(g: seq<seq<int>>, c: nat): seq<int>
    requires forall i :: 0 <= i < |g| ==> c < |g[i]|
  {
    seq(|g|, i requires 0 <= i < |g| => g[i][c])
  }

  /** `np.sum(game, axis=0)`: the score of every candidate. */
  function Scores(g: seq<seq<int>>, m: nat): (s: seq<int>)
    requires Rectangular(g, m)
    ensures |s| == m
  {
    seq(m, c requires 0 <= c < m => Sum(Column(g, c)))
  }

  /** The row sums, one per voter. */
  function RowSums(g: seq<seq<int>>): seq<int>
  {
    seq(|g|, i requires 0 <= i < |g| => Sum(g[i]))
  }

  /**
   `np.argmax(np.sum(game, axis=0))`: a candidate with the highest score,
   the lowest-numbered one when several tie.
   */
  function Winner(g: seq<seq<int>>, m: nat): (w: nat)
    requires m >= 1 && Rectangular(g, m)
    ensures w < m
  {
    ArgMax(Scores(g, m))
  }

  /** No candidate outscores the winner, and every candidate numbered below it scores less. */
  lemma WinnerIsFirstMax(g: seq<seq<int>>, m: nat)
    requires m >= 1 && Rectangular(g, m)
    ensures forall c :: 0 <= c < m ==> Scores(g, m)[c] <= Scores(g, m)[Winner(g, m)]
    ensures forall c :: 0 <= c < Winner(g, m) ==> Scores(g, m)[c] < Scores(g, m)[Winner(g, m)]
  {
    ArgMaxIsFirstMax(Scores(g, m));
  }

  /** The scores of all candidates add up to the points all voters hand out. */
  lemma {:induction false} TotalIsSumOfRows(g: seq<seq<int>>, m: nat)
    requires Rectangular(g, m)
    ensures Sum(Scores(g, m)) == Sum(RowSums(g))
  {
    if g == [] {
      SumConstant(Scores(g, m), 0);
    } else {
      var k := |g| - 1;
      var h := g[..k];
      TotalIsSumOfRows(h, m);
      forall c | 0 <= c < m ensures Scores(g, m)[c] == Scores(h, m)[c] + g[k][c] {
        assert Column(g, c)[..k] == Column(h, c);
      }
      SumPointwise(Scores(h, m), g[k], Scores(g, m));
      assert RowSums(g)[..k] == RowSums(h);
    }
  }

  /**
   `while changed and t <= tmax: changed = <one round>; t += 1` from state s
   (main.py:18-37 and 53-77), where step gives the state after one round and
   whether the round changed it: the state, `t` and `changed` it ends with.
   */
  function Iterate<S>(step: S -> (S, bool), s: S, t: nat, changed: bool): (S, nat, bool)
    decreases TMax + 1 - t, 1
  {
    if changed && t <= TMax then Advance(step, s, t) else (s, t, changed)
  }

  /** One pass of the loop body: a round, then the loop from the next `t`. */
  function Advance<S>(step: S -> (S, bool), s: S, t: nat): (S, nat, bool)
    requires t <= TMax
    decreases TMax + 1 - t, 0
  {
    var next := step(s);
    Iterate(step, next.0, t + 1, next.1)
  }

  /** The loop entered with `changed` set below the cap is one pass followed by the rest of the loop. */
  lemma IterateStep<S>(step: S -> (S, bool), s: S, t: nat)
    requires t <= TMax
    ensures Iterate(step, s, t, true) == Iterate(step, step(s).0, t + 1, step(s).1)
  {
  }

  /** `t` only grows, and the loop never runs past the cap. */
  lemma {:induction false} IterateBounds<S>(step: S -> (S, bool), s: S, t: nat, changed: bool)
    requires t <= TMax + 1
    ensures t <= Iterate(step, s, t, changed).1 <= TMax + 1
    decreases TMax + 1 - t
  {
    if changed && t <= TMax {
      var next := step(s);
      IterateBounds(step, next.0, t + 1, next.1);
    }
  }

  /** Entered with `changed` set below the cap, the loop body runs at least once. */
  lemma IterateRuns<S>(step: S -> (S, bool), s: S, t: nat)
    requires t <= TMax
    ensures t < Iterate(step, s, t, true).1
  {
    IterateBounds(step, step(s).0, t + 1, step(s).1);
  }

  /** A property every round preserves holds of the state the loop ends with. */
  lemma {:induction false} IterateKeeps<S>(step: S -> (S, bool), inv: S -> bool, s: S, t: nat, changed: bool)
    requires inv(s)
    requires forall x {:trigger step(x)} :: inv(x) ==> inv(step(x).0)
    ensures inv(Iterate(step, s, t, changed).0)
    decreases TMax + 1 - t
  {
    if changed && t <= TMax {
      var next := step(s);
      IterateKeeps(step, inv, next.0, t + 1, next.1);
    }
  }

  /**
   The loop ends either because the last round changed nothing, and then,
   when such a round leaves the state as it is, the next round would change
   nothing either; or because a round changed something and `t` passed the
   cap.
   */
  lemma {:induction false} IterateStops<S>(step: S -> (S, bool), s: S, t: nat, changed: bool)
    requires t <= TMax + 1
    requires forall x :: !step(x).1 ==> step(x).0 == x
    requires !changed ==> !step(s).1
    ensures !Iterate(step, s, t, changed).2 ==> !step(Iterate(step, s, t, changed).0).1
    ensures Iterate(step, s, t, changed).2 ==> Iterate(step, s, t, changed).1 == TMax + 1
    decreases TMax + 1 - t
  {
    if changed && t <= TMax {
      var next := step(s);
      IterateStops(step, next.0, t + 1, next.1);
    }
  }

  /** The table held in a two-dimensional array, row by row. */
  function Table(a: array2<int>): (g: seq<seq<int>>)
    reads a
    ensures |g| == a.Length0 && Rectangular(g, a.Length1)
  {
    seq(a.Length0, i requires 0 <= i < a.Length0 reads a =>
      seq(a.Length1, j requires 0 <= j < a.Length1 reads a => a[i, j]))
  }

  /** `game[i, j] = v`. */
  method SetCell(a: array2<int>, i: nat, j: nat, v: int)
    requires i < a.Length0 && j < a.Length1
    modifies a
    ensures Table(a) == old(Table(a))[i := old(Table(a))[i][j := v]]
  {
    a[i, j] := v;
    ghost var g := Table(a);
    ghost var h := old(Table(a))[i := old(Table(a))[i][j := v]];
    forall k | 0 <= k < a.Length0 ensures g[k] == h[k] {
      assert forall l :: 0 <= l < a.Length1 ==> g[k][l] == h[k][l];
    }
  }
}
