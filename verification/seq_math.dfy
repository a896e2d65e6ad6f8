/** Sums and counts over integer sequences, used for the degree table of the generator. */
module SeqMath {

  /** The sum of all entries, as Python's `sum(...)` on a list of integers. */
  function Sum(s: seq<int>): int
  {
    SumBelow(s, |s|)
  }

  /** The sum of the first m entries. */
  function SumBelow(s: seq<int>, m: nat): int
    requires m <= |s|
  {
    if m == 0 then 0 else SumBelow(s, m - 1) + s[m - 1]
  }

  /** The number of strictly positive entries. */
  function CountPositive(s: seq<int>): nat
  {
    if s == [] then 0 else CountPositive(s[..|s| - 1]) + (if s[|s| - 1] > 0 then 1 else 0)
  }

  /** The list `range(i)`: 0, 1, ..., i - 1. */
  function Range(i: nat): (r: seq<nat>)
    ensures |r| == i
    ensures forall v :: 0 <= v < i ==> r[v] == v
    ensures forall v :: v in r <==> 0 <= v < i
  {
    if i == 0 then [] else Range(i - 1) + [i - 1]
  }

  lemma MulSucc(a: int, b: int)
    ensures a * (b + 1) == a * b + a
  {
  }

  lemma MulPred(m: nat, k: int)
    requires m > 0
    ensures m * k == (m - 1) * k + k
  {
  }

  lemma MulMonotone(a: nat, b: nat, c: nat)
    requires a <= b
    ensures a * c <= b * c
  {
  }

  /** The first m entries of s and t agree, so do their sums. */
  lemma {:induction false} SumBelowAgree(s: seq<int>, t: seq<int>, m: nat)
    requires m <= |s| && m <= |t| && forall v :: 0 <= v < m ==> s[v] == t[v]
    ensures SumBelow(s, m) == SumBelow(t, m)
  {
    if m > 0 {
      SumBelowAgree(s, t, m - 1);
    }
  }

  lemma SumAppend(s: seq<int>, x: int)
    ensures Sum(s + [x]) == Sum(s) + x
  {
    SumBelowAgree(s + [x], s, |s|);
  }

  /** A list of positive integers sums to at least its length. */
  lemma SumPositive(s: seq<int>)
    requires forall v :: 0 <= v < |s| ==> s[v] > 0
    ensures Sum(s) >= |s|
  {
    SumBelowPositive(s, |s|);
  }

  lemma {:induction false} SumBelowPositive(s: seq<int>, m: nat)
    requires m <= |s| && forall v :: 0 <= v < |s| ==> s[v] > 0
    ensures SumBelow(s, m) >= m
  {
    if m > 0 {
      SumBelowPositive(s, m - 1);
    }
  }

  /** Adding `delta` to one entry adds `delta` to the sum: the effect of `degree[to] += 1`. */
  lemma SumUpdate(s: seq<int>, p: nat, delta: int)
    requires p < |s|
    ensures Sum(s[p := s[p] + delta]) == Sum(s) + delta
  {
    SumBelowUpdate(s, p, delta, |s|);
  }

  lemma {:induction false} SumBelowUpdate(s: seq<int>, p: nat, delta: int, m: nat)
    requires p < |s| && m <= |s|
    ensures SumBelow(s[p := s[p] + delta], m) == SumBelow(s, m) + (if p < m then delta else 0)
  {
    if m > 0 {
      SumBelowUpdate(s, p, delta, m - 1);
    }
  }

  /** `[c] * k` sums to `c * k`. */
  lemma SumConstant(k: nat, c: int)
    ensures Sum(seq(k, _ => c)) == c * k
  {
    SumBelowConstant(seq(k, _ => c), c, k);
  }

  lemma {:induction false} SumBelowConstant(s: seq<int>, c: int, m: nat)
    requires m <= |s| && forall v :: 0 <= v < |s| ==> s[v] == c
    ensures SumBelow(s, m) == c * m
  {
    if m > 0 {
      SumBelowConstant(s, c, m - 1);
      MulSucc(c, m - 1);
    }
  }

  /** When every entry is positive, every entry counts. */
  lemma {:induction false} AllPositiveCount(s: seq<int>)
    requires forall v :: 0 <= v < |s| ==> s[v] > 0
    ensures CountPositive(s) == |s|
  {
    if s != [] {
      AllPositiveCount(s[..|s| - 1]);
    }
  }

  /** s with 1 added at every position listed in `positions`, once per listing. */
  function Bump(s: seq<int>, positions: seq<nat>): (r: seq<int>)
    requires forall j :: 0 <= j < |positions| ==> positions[j] < |s|
    ensures |r| == |s|
  {
    if positions == [] then s
    else
      var r := Bump(s, positions[..|positions| - 1]);
      var p := positions[|positions| - 1];
      r[p := r[p] + 1]
  }

  /** Every listed position adds exactly 1 to the sum. */
  lemma {:induction false} BumpSum(s: seq<int>, positions: seq<nat>)
    requires forall j :: 0 <= j < |positions| ==> positions[j] < |s|
    ensures Sum(Bump(s, positions)) == Sum(s) + |positions|
  {
    if positions != [] {
      var rest := positions[..|positions| - 1];
      BumpSum(s, rest);
      SumUpdate(Bump(s, rest), positions[|positions| - 1], 1);
    }
  }

  /** With distinct positions, an entry gains 1 exactly when its position is listed. */
  lemma {:induction false} BumpAt(s: seq<int>, positions: seq<nat>, v: nat)
    requires forall j :: 0 <= j < |positions| ==> positions[j] < |s|
    requires forall a, b :: 0 <= a < b < |positions| ==> positions[a] != positions[b]
    requires v < |s|
    ensures Bump(s, positions)[v] == s[v] + (if v in positions then 1 else 0)
  {
    if positions != [] {
      var rest := positions[..|positions| - 1];
      var p := positions[|positions| - 1];
      BumpAt(s, rest, v);
      assert positions == rest + [p];
      assert p !in rest;
    }
  }
}
