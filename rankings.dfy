/**
 Rankings of candidates: the voters' true preference orders (0-based after
 main.py:10), the alternative choices a voter weighs against the winner, and
 the Borda rewrite's "move this candidate to the front" (np.delete followed
 by np.insert at index 0).
 */
module Rankings {
  import opened Seqs

  /** A ranking of the candidates 0..m-1: each of them exactly once. */
  predicate IsPerm(p: seq<int>, m: nat)
  {
    && |p| == m
    && Distinct(p)
    && (forall j :: 0 <= j < |p| ==> 0 <= p[j] < m)
    && (forall c :: 0 <= c < m ==> c in p)
  }

  /** `np.array(preferences) - 1`: candidates renumbered from 0. */
  function ZeroBased(preferences: seq<seq<int>>): (prefs: seq<seq<int>>)
    ensures |prefs| == |preferences| && forall i :: 0 <= i < |prefs| ==> |prefs[i]| == |preferences[i]|
  {
    seq(|preferences|, i requires 0 <= i < |preferences| =>
      seq(|preferences[i]|, j requires 0 <= j < |preferences[i]| => preferences[i][j] - 1))
  }

  /** A renumbered ranking is one of 0..m-1 exactly when the input ranking is a permutation of 1..m. */
  lemma ZeroBasedRanking(preferences: seq<seq<int>>, i: nat, m: nat)
    requires i < |preferences|
    ensures IsPerm(ZeroBased(preferences)[i], m) <==>
      && |preferences[i]| == m
      && Distinct(preferences[i])
      && (forall j :: 0 <= j < m ==> 1 <= preferences[i][j] <= m)
      && (forall c :: 1 <= c <= m ==> c in preferences[i])
  {
    var q := ZeroBased(preferences)[i];
    var r := preferences[i];
    assert forall j :: 0 <= j < |q| ==> q[j] == r[j] - 1;
    forall c | 1 <= c <= m && c - 1 in q ensures c in r {
      var j :| 0 <= j < |q| && q[j] == c - 1;
      assert r[j] == c;
    }
    forall c | 0 <= c < m && c + 1 in r ensures c in q {
      var j :| 0 <= j < |r| && r[j] == c + 1;
      assert q[j] == c;
    }
  }

  /**
   What both simulators rely on without checking it: at least one voter and
   one candidate, and every (0-based) ranking a permutation of 0..m-1.
   */
  predicate ValidProfile(prefs: seq<seq<int>>, n: nat, m: nat)
  {
    n >= 1 && m >= 1 && |prefs| == n && forall i :: 0 <= i < n ==> IsPerm(prefs[i], m)
  }

  /** A valid profile and one vote per voter, each for one of the m candidates. */
  predicate ValidVotes(prefs: seq<seq<int>>, votes: seq<int>, m: nat)
  {
    ValidProfile(prefs, |prefs|, m) && |votes| == |prefs| && forall i :: 0 <= i < |votes| ==> 0 <= votes[i] < m
  }

  /** The votes both simulators start from (main.py:12, 47-48): every voter votes for its top candidate. */
  function TruthfulVotes(prefs: seq<seq<int>>, m: nat): (votes: seq<int>)
    requires ValidProfile(prefs, |prefs|, m)
    ensures ValidVotes(prefs, votes, m)
    ensures forall i :: 0 <= i < |votes| ==> votes[i] == prefs[i][0]
  {
    seq(|prefs|, i requires 0 <= i < |prefs| => prefs[i][0])
  }

  /**
   `preferences[i, :np.where(preferences[i, :] == winner)[0][0] + 1]`: the
   prefix of a true ranking that ends with the first occurrence of w.
   */
  function AltChoices(pref: seq<int>, w: int): (alt: seq<int>)
    requires w in pref
    ensures 0 < |alt| <= |pref| && alt == pref[..|alt|] && alt[|alt| - 1] == w
  {
    pref[..IndexOf(pref, w) + 1]
  }

  /** The alternative choices are exactly the candidates ranked no lower than w. */
  lemma AltChoicesRankedAbove(pref: seq<int>, m: nat, w: int, c: int)
    requires IsPerm(pref, m) && 0 <= w < m && 0 <= c < m
    ensures c in AltChoices(pref, w) <==> IndexOf(pref, c) <= IndexOf(pref, w)
  {
    var alt := AltChoices(pref, w);
    if c in alt {
      var j :| 0 <= j < |alt| && alt[j] == c;
      IndexOfDistinct(pref, j);
    }
    if IndexOf(pref, c) <= IndexOf(pref, w) {
      assert alt[IndexOf(pref, c)] == c;
    }
  }

  /** `np.delete(p, np.where(p == v)[0])`: p with every occurrence of v removed. */
  function Without(p: seq<int>, v: int): (q: seq<int>)
    ensures forall x :: x in q <==> x in p && x != v
    ensures |q| <= |p|
  {
    if p == [] then [] else (if p[0] == v then [] else [p[0]]) + Without(p[1..], v)
  }

  /** Where the entry at position a of p with the entry at position k moved to the front came from. */
  function Source(k: nat, a: nat): nat
  {
    if a == 0 then k else if a <= k then a - 1 else a
  }

  /** v first, the rest of p in its order. */
  function MoveToFront(p: seq<int>, v: int): (q: seq<int>)
    requires v in p
    ensures |q| == |p|
  {
    seq(|p|, a requires 0 <= a < |p| => p[Source(IndexOf(p, v), a)])
  }

  lemma {:induction false} WithoutAbsent(p: seq<int>, v: int)
    requires v !in p
    ensures Without(p, v) == p
  {
    if p != [] {
      WithoutAbsent(p[1..], v);
    }
  }

  /** Removing a value that occurs once cuts it out of its position. */
  lemma {:induction false} WithoutOnce(p: seq<int>, v: int)
    requires Distinct(p) && v in p
    ensures Without(p, v) == p[..IndexOf(p, v)] + p[IndexOf(p, v) + 1..]
  {
    if p[0] == v {
      assert p[1..] == p[IndexOf(p, v) + 1..];
      assert v !in p[1..] by {
        forall j | 0 <= j < |p[1..]| ensures p[1..][j] != v {
          assert p[1..][j] == p[j + 1];
        }
      }
      WithoutAbsent(p[1..], v);
    } else {
      var k := IndexOf(p, v);
      assert p[1..][k - 1] == v;
      WithoutOnce(p[1..], v);
      assert IndexOf(p[1..], v) == k - 1;
      assert p[..k] == [p[0]] + p[1..][..k - 1];
      assert p[k + 1..] == p[1..][k..];
    }
  }

  /** `np.insert(np.delete(p, np.where(p == v)[0]), 0, v)` moves v to the front of a ranking. */
  lemma DeleteInsert(p: seq<int>, m: nat, v: int)
    requires IsPerm(p, m) && 0 <= v < m
    ensures [v] + Without(p, v) == MoveToFront(p, v)
  {
    WithoutOnce(p, v);
    FrontSplit(p, IndexOf(p, v));
  }

  /** Taking out the entry at k and putting it in front moves each entry as Source says. */
  lemma FrontSplit(p: seq<int>, k: nat)
    requires k < |p|
    ensures [p[k]] + (p[..k] + p[k + 1..]) == seq(|p|, a requires 0 <= a < |p| => p[Source(k, a)])
  {
    var q := [p[k]] + (p[..k] + p[k + 1..]);
    forall a | 0 <= a < |p| ensures q[a] == p[Source(k, a)] {
      if 0 < a <= k {
        assert q[a] == p[..k][a - 1];
      } else if a > k {
        assert q[a] == p[k + 1..][a - 1 - k];
      }
    }
  }

  /** Moving a candidate to the front of a ranking yields a ranking. */
  lemma MoveToFrontIsPerm(p: seq<int>, m: nat, v: int)
    requires IsPerm(p, m) && 0 <= v < m
    ensures IsPerm(MoveToFront(p, v), m)
  {
    var k := IndexOf(p, v);
    var q := MoveToFront(p, v);
    forall a, b | 0 <= a < b < m ensures q[a] != q[b] {
      assert Source(k, a) != Source(k, b);
    }
    forall c | 0 <= c < m ensures c in q {
      var j := IndexOf(p, c);
      if j == k {
        assert q[0] == c;
      } else if j < k {
        assert q[j + 1] == c;
      } else {
        assert q[j] == c;
      }
    }
  }

  /**
   After moving v to the front, v has rank 0, the candidates the voter
   ranked above v drop one rank and those below v keep theirs.
   */
  lemma MoveToFrontRanks(p: seq<int>, m: nat, v: int, c: int)
    requires IsPerm(p, m) && 0 <= v < m && 0 <= c < m
    ensures IsPerm(MoveToFront(p, v), m)
    ensures IndexOf(MoveToFront(p, v), c) ==
      if c == v then 0
      else if IndexOf(p, c) < IndexOf(p, v) then IndexOf(p, c) + 1
      else IndexOf(p, c)
  {
    var k := IndexOf(p, v);
    var j := IndexOf(p, c);
    var q := MoveToFront(p, v);
    MoveToFrontIsPerm(p, m, v);
    var a := if c == v then 0 else if j < k then j + 1 else j;
    if c != v {
      IndexOfDistinct(p, k);
      assert j != k;
    }
    assert q[a] == c;
    IndexOfDistinct(q, a);
  }

  /** The top candidate of a ranking is already at its front. */
  lemma MoveToFrontOfTop(p: seq<int>, m: nat)
    requires IsPerm(p, m) && m >= 1
    ensures MoveToFront(p, p[0]) == p
  {
    IndexOfDistinct(p, 0);
  }
}
