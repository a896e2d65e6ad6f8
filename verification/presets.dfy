/** The preset batch `SCALEFREE_GRAPH_TO_GEN`: every (vertex count, degree) pair of
    [100, 500, 2500, 10000] x [1, 3, 5, 10], as `itertools.product` lists them. */
module Presets {

  const VertexCounts: seq<nat> := [100, 500, 2500, 10000]
  const VertexDegrees: seq<nat> := [1, 3, 5, 10]

  /** Where the pair (xs[a], ys[b]) sits in the product when each x is paired with `width` ys. */
  function PairIndex(width: nat, a: nat, b: nat): nat
  {
    a * width + b
  }

  lemma PairIndexSucc(width: nat, a: nat, b: nat)
    ensures PairIndex(width, a + 1, b) == width + PairIndex(width, a, b)
  {
  }

  /** `list(itertools.product(xs, ys))`: all pairs, first coordinate major. */
  function Product<A, B>(xs: seq<A>, ys: seq<B>): (r: seq<(A, B)>)
    ensures |r| == |xs| * |ys|
    ensures forall a, b :: 0 <= a < |xs| && 0 <= b < |ys| ==>
      PairIndex(|ys|, a, b) < |r| && r[PairIndex(|ys|, a, b)] == (xs[a], ys[b])
    ensures forall p :: p in r ==> p.0 in xs && p.1 in ys
  {
    if xs == [] then []
    else
      var rest := Product(xs[1..], ys);
      var first := seq(|ys|, b requires 0 <= b < |ys| => (xs[0], ys[b]));
      ProductStep(xs, ys, rest, first);
      first + rest
  }

  lemma ProductStep<A, B>(xs: seq<A>, ys: seq<B>, rest: seq<(A, B)>, first: seq<(A, B)>)
    requires |xs| > 0 && |first| == |ys| && |rest| == (|xs| - 1) * |ys|
    requires forall b :: 0 <= b < |ys| ==> first[b] == (xs[0], ys[b])
    requires forall a, b :: 0 <= a < |xs| - 1 && 0 <= b < |ys| ==>
      PairIndex(|ys|, a, b) < |rest| && rest[PairIndex(|ys|, a, b)] == (xs[1..][a], ys[b])
    ensures |first + rest| == |xs| * |ys|
    ensures forall a, b :: 0 <= a < |xs| && 0 <= b < |ys| ==>
      PairIndex(|ys|, a, b) < |first + rest| && (first + rest)[PairIndex(|ys|, a, b)] == (xs[a], ys[b])
  {
    forall a, b | 0 <= a < |xs| && 0 <= b < |ys|
      ensures PairIndex(|ys|, a, b) < |first + rest| && (first + rest)[PairIndex(|ys|, a, b)] == (xs[a], ys[b])
    {
      if a > 0 {
        PairIndexSucc(|ys|, a - 1, b);
        assert xs[1..][a - 1] == xs[a];
      }
    }
  }

  /** The 16 preset pairs, each a valid (n, k) for the generator: 1 <= k <= n. */
  function ScaleFreeGraphToGen(): (r: seq<(nat, nat)>)
    ensures |r| == 16
    ensures forall a, b :: 0 <= a < 4 && 0 <= b < 4 ==>
      PairIndex(4, a, b) < |r| && r[PairIndex(4, a, b)] == (VertexCounts[a], VertexDegrees[b])
    ensures forall p :: p in r ==> 1 <= p.1 <= p.0
  {
    Product(VertexCounts, VertexDegrees)
  }
}
