/**
 Sequence helpers standing for the numpy reductions the simulator uses:
 `np.sum` over a vector, `np.argmax` (first maximum) and `np.where(v == x)[0][0]`
 (first occurrence), and the first position from which a `for` loop with a
 `break` stops.
 */
module Seqs {

  datatype Option<T> = None | Some(value: T)

  /** Sum of a sequence, peeling off its last element. */
  function Sum(s: seq<int>): int
  {
    if s == [] then 0 else Sum(s[..|s| - 1]) + s[|s| - 1]
  }

  /** Overwriting one entry changes the sum by the difference. */
  lemma {:induction false} SumUpdate(s: seq<int>, k: nat, v: int)
    requires k < |s|
    ensures Sum(s[k := v]) == Sum(s) - s[k] + v
  {
    var n := |s|;
    if k == n - 1 {
      assert s[k := v][..n - 1] == s[..n - 1];
    } else {
      assert s[k := v][..n - 1] == s[..n - 1][k := v];
      SumUpdate(s[..n - 1], k, v);
    }
  }

  /** A sequence whose entries all equal c sums to c times its length. */
  lemma {:induction false} SumConstant(s: seq<int>, c: int)
    requires forall j :: 0 <= j < |s| ==> s[j] == c
    ensures Sum(s) == |s| * c
  {
    if s != [] {
      SumConstant(s[..|s| - 1], c);
      assert |s| * c == (|s| - 1) * c + c;
    }
  }

  /** The sum of a pointwise sum is the sum of the sums. */
  lemma {:induction false} SumPointwise(a: seq<int>, b: seq<int>, r: seq<int>)
    requires |a| == |b| == |r|
    requires forall j :: 0 <= j < |r| ==> r[j] == a[j] + b[j]
    ensures Sum(r) == Sum(a) + Sum(b)
  {
    if r != [] {
      var k := |r| - 1;
      SumPointwise(a[..k], b[..k], r[..k]);
    }
  }

  /** No value occurs twice. */
  predicate Distinct(s: seq<int>)
  {
    forall j, k :: 0 <= j < k < |s| ==> s[j] != s[k]
  }

  /** In a sequence without repetitions no entry occurs before its own position. */
  lemma DistinctPrefix(s: seq<int>, k: nat)
    requires Distinct(s) && k < |s|
    ensures s[k] !in s[..k]
  {
    assert forall j :: 0 <= j < k ==> s[..k][j] == s[j] != s[k];
  }

  /** Index of the first occurrence of x: `np.where(s == x)[0][0]`. */
  function IndexOf(s: seq<int>, x: int): (k: nat)
    requires x in s
    ensures k < |s| && s[k] == x
  {
    if s[0] == x then 0 else 1 + IndexOf(s[1..], x)
  }

  /** No entry before IndexOf(s, x) equals x: it is the first occurrence. */
  lemma {:induction false} IndexOfFirst(s: seq<int>, x: int)
    requires x in s
    ensures forall j :: 0 <= j < IndexOf(s, x) ==> s[j] != x
  {
    if s[0] != x {
      assert s[1..][IndexOf(s, x) - 1] == x;
      IndexOfFirst(s[1..], x);
      forall j | 1 <= j < IndexOf(s, x) ensures s[j] != x {
        assert s[j] == s[1..][j - 1];
      }
    }
  }

  /** In a sequence without repetitions every entry is its own first occurrence. */
  lemma IndexOfDistinct(s: seq<int>, j: nat)
    requires Distinct(s) && j < |s|
    ensures IndexOf(s, s[j]) == j
  {
    IndexOfFirst(s, s[j]);
  }

  /**
   Index of the first maximum, as numpy's `argmax` returns it (the
   properties are those of ArgMaxIsFirstMax below).
   */
  function ArgMax(s: seq<int>): (k: nat)
    requires |s| > 0
    ensures k < |s|
  {
    if |s| == 1 then 0
    else
      var b := ArgMax(s[..|s| - 1]);
      if s[b] < s[|s| - 1] then |s| - 1 else b
  }

  /** No entry is larger than the one at ArgMax(s), and every entry before it is smaller. */
  lemma {:induction false} ArgMaxIsFirstMax(s: seq<int>)
    requires |s| > 0
    ensures forall j :: 0 <= j < |s| ==> s[j] <= s[ArgMax(s)]
    ensures forall j :: 0 <= j < ArgMax(s) ==> s[j] < s[ArgMax(s)]
  {
    if |s| > 1 {
      var t := s[..|s| - 1];
      ArgMaxIsFirstMax(t);
      assert forall j :: 0 <= j < |t| ==> t[j] == s[j];
    }
  }

  /** The first position from i on where b holds: where `for k in range(i, len(b)): if b[k]: break` stops. */
  function FirstTrue(b: seq<bool>, i: nat): (r: Option<nat>)
    requires i <= |b|
    ensures r.Some? ==> i <= r.value < |b|
    decreases |b| - i
  {
    if i == |b| then None else if b[i] then Some(i) else FirstTrue(b, i + 1)
  }

  /** FirstTrue finds nothing exactly when b never holds from i on, and otherwise the first place it does. */
  lemma {:induction false} FirstTrueIsFirst(b: seq<bool>, i: nat)
    requires i <= |b|
    ensures FirstTrue(b, i).None? <==> forall k :: i <= k < |b| ==> !b[k]
    ensures FirstTrue(b, i).Some? ==>
      b[FirstTrue(b, i).value] && forall k :: i <= k < FirstTrue(b, i).value ==> !b[k]
    decreases |b| - i
  {
    if i < |b| && !b[i] {
      FirstTrueIsFirst(b, i + 1);
    }
  }

  /** A position where b holds with no earlier one from i on is what FirstTrue finds. */
  lemma {:induction false} FirstTrueAt(b: seq<bool>, i: nat, k: nat)
    requires i <= k < |b| && b[k]
    requires forall j :: i <= j < k ==> !b[j]
    ensures FirstTrue(b, i) == Some(k)
    decreases k - i
  {
    if i < k {
      FirstTrueAt(b, i + 1, k);
    }
  }
}
