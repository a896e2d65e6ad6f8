/** The Barabási–Albert (preferential-attachment) edge generator behind
    `gen_scale_free_graph`: a seed phase over the first k vertices, a growth phase that
    attaches every later vertex to k distinct earlier ones chosen by degree, and the
    flattening of the adjacency dictionary into an ordered list of labelled edges.

    The random choices of a run are an input (`Draws`): which label is drawn for every
    edge, and which k targets the weighted sampler returns for every growth vertex. */
module ScaleFree {
  import opened SeqMath
  import opened PyDict
  import GraphFileName

  type Label = string

  /** The label alphabet used when the caller gives none. */
  const DefaultLabels: seq<Label> := ["A", "B", "C", "D"]

  /** One adjacency entry as stored in `g[v]`: the pair (target, label). */
  datatype Entry = Entry(target: nat, symbol: Label)

  /** One output edge: the triple (source, label, target). */
  datatype Edge = Edge(source: nat, symbol: Label, target: nat)

  /** The adjacency dictionary `g`: vertex -> its entries, in insertion order. */
  type Graph = Dict<nat, seq<Entry>>

  /** The outcome of every random draw of one run.
      `labelDraws[v][j]` is the index in `labels` of the label drawn for the j-th edge of vertex v;
      `targetDraws[i - k]` is what the weighted sampler returned for growth vertex i. */
  datatype Draws = Draws(labelDraws: seq<seq<nat>>, targetDraws: seq<seq<nat>>)

  /** What sampling `size` candidates from `range(i)` without replacement can return:
      `size` distinct indices, each below i. */
  predicate IsSample(targets: seq<nat>, i: nat, size: nat)
  {
    && |targets| == size
    && (forall j :: 0 <= j < size ==> targets[j] < i)
    && (forall a, b :: 0 <= a < b < size ==> targets[a] != targets[b])
  }

  /** What the weighted sampler demands of its weight vector before it can draw `size`
      candidates without replacement: no negative weight, and at least `size` positive ones. */
  predicate SamplerAccepts(weights: seq<int>, size: nat)
  {
    && (forall v :: 0 <= v < |weights| ==> weights[v] >= 0)
    && CountPositive(weights) >= size
  }

  /** One sample per growth vertex k, ..., n - 1. */
  predicate ValidTargetDraws(n: nat, k: nat, d: Draws)
  {
    && k <= n
    && |d.targetDraws| == n - k
    && (forall m :: 0 <= m < n - k ==> IsSample(d.targetDraws[m], k + m, k))
  }

  /** One label draw per edge: k for each of the n vertices, each an index into `labels`. */
  predicate ValidLabelDraws(n: nat, k: nat, labels: seq<Label>, d: Draws)
  {
    && |d.labelDraws| == n
    && (forall v :: 0 <= v < n ==> |d.labelDraws[v]| == k)
    && (forall v, j :: 0 <= v < n && 0 <= j < k ==> d.labelDraws[v][j] < |labels|)
  }

  predicate ValidDraws(n: nat, k: nat, labels: seq<Label>, d: Draws)
  {
    ValidTargetDraws(n, k, d) && ValidLabelDraws(n, k, labels, d)
  }

  // ---------------------------------------------------------------------------
  // Reference definitions: what the generated graph and degree table are.
  // ---------------------------------------------------------------------------

  /** The target of the j-th edge of vertex v: j for a seed vertex, the j-th sampled
      candidate for a growth vertex. */
  function TargetOf(n: nat, k: nat, d: Draws, v: nat, j: nat): nat
    requires ValidTargetDraws(n, k, d) && v < n && j < k
  {
    if v < k then j else d.targetDraws[v - k][j]
  }

  /** The adjacency list the generator gives vertex v. */
  function ExpectedRow(n: nat, k: nat, labels: seq<Label>, d: Draws, v: nat): seq<Entry>
    requires ValidDraws(n, k, labels, d) && v < n
  {
    seq(k, j requires 0 <= j < k => Entry(TargetOf(n, k, d, v, j), labels[d.labelDraws[v][j]]))
  }

  /** `g` holds exactly the vertices 0, ..., i - 1, inserted in that order, each with its expected row. */
  ghost predicate GraphUpTo(g: Graph, n: nat, k: nat, labels: seq<Label>, d: Draws, i: nat)
    requires ValidDraws(n, k, labels, d) && i <= n
  {
    && g.Valid()
    && g.keys == Range(i)
    && forall v :: 0 <= v < i ==> v in g.values && g.values[v] == ExpectedRow(n, k, labels, d, v)
  }

  /** How many of the growth vertices k, ..., i - 1 sampled v as a target. */
  function Hits(n: nat, k: nat, d: Draws, v: nat, i: nat): nat
    requires ValidTargetDraws(n, k, d) && k <= i <= n
    decreases i
  {
    if i == k then 0
    else Hits(n, k, d, v, i - 1) + (if v in d.targetDraws[i - 1 - k] then 1 else 0)
  }

  /** The degree table once the growth vertices below i are attached: a seed vertex starts at 3,
      a growth vertex at k (its own out-edges), and each gains 1 per later vertex that picked it. */
  function DegreeTable(n: nat, k: nat, d: Draws, i: nat): (degree: seq<int>)
    requires 1 <= k && ValidTargetDraws(n, k, d) && k <= i <= n
    ensures |degree| == i
    ensures forall v :: 0 <= v < i ==> degree[v] >= 1
  {
    seq(i, v requires 0 <= v < i => (if v < k then 3 else k) + Hits(n, k, d, v, i))
  }

  /** A vertex is never picked by a vertex that precedes or equals it. */
  lemma {:induction false} HitsOfLater(n: nat, k: nat, d: Draws, v: nat, i: nat)
    requires ValidTargetDraws(n, k, d) && k <= i <= n && i <= v
    ensures Hits(n, k, d, v, i) == 0
  {
    if i > k {
      HitsOfLater(n, k, d, v, i - 1);
      assert IsSample(d.targetDraws[i - 1 - k], i - 1, k);
    }
  }

  /** One growth step on the degree table: the new vertex i ends at k, each sampled target
      gains exactly 1, and every other entry is unchanged. */
  lemma DegreeTableStep(n: nat, k: nat, d: Draws, i: nat)
    requires 1 <= k && ValidTargetDraws(n, k, d) && k <= i < n
    ensures |DegreeTable(n, k, d, i + 1)| == i + 1
    ensures DegreeTable(n, k, d, i + 1)[i] == k
    ensures forall v :: 0 <= v < i ==>
      DegreeTable(n, k, d, i + 1)[v] == DegreeTable(n, k, d, i)[v] + (if v in d.targetDraws[i - k] then 1 else 0)
  {
    HitsOfLater(n, k, d, i, i);
    assert IsSample(d.targetDraws[i - k], i, k);
    assert i !in d.targetDraws[i - k];
  }

  // ---------------------------------------------------------------------------
  // The generator.
  // ---------------------------------------------------------------------------

  /** The seed phase: vertices 0, ..., k - 1, inserted in order, each with k entries whose
      targets are 0, ..., k - 1 in that order (a self-loop where the target equals the vertex). */
  function SeedGraph(n: nat, k: nat, labels: seq<Label>, d: Draws): (g: Graph)
    requires ValidDraws(n, k, labels, d)
    ensures GraphUpTo(g, n, k, labels, d, k)
    ensures forall v :: 0 <= v < k ==>
      && v in g.values && |g.values[v]| == k
      && (forall j :: 0 <= j < k ==> g.values[v][j].target == j && g.values[v][j].symbol in labels)
  {
    Dict(Range(k), map v: nat | v < k :: seq(k, j requires 0 <= j < k => Entry(j, labels[d.labelDraws[v][j]])))
  }

  /** The entries of a growth vertex: one per sampled target, labelled by the matching label draw. */
  function NewRow(labels: seq<Label>, targets: seq<nat>, picks: seq<nat>): (row: seq<Entry>)
    requires |picks| == |targets| && forall j :: 0 <= j < |picks| ==> picks[j] < |labels|
    ensures |row| == |targets|
    ensures forall j :: 0 <= j < |row| ==> row[j].target == targets[j] && row[j].symbol in labels
  {
    seq(|targets|, j requires 0 <= j < |targets| => Entry(targets[j], labels[picks[j]]))
  }

  /** The bookkeeping of one edge of vertex i to `targets[j]`: `degree[to] += 1` and `degree[i] += 1`. */
  lemma BumpStep(degree: seq<int>, current: seq<int>, targets: seq<nat>, j: nat, i: nat)
    requires |degree| == i && |current| == i + 1 && j < |targets|
    requires targets[j] < i && targets[j] !in targets[..j]
    requires forall v :: 0 <= v < i ==> current[v] == degree[v] + (if v in targets[..j] then 1 else 0)
    ensures var next := current[targets[j] := current[targets[j]] + 1][i := current[i] + 1];
      && |next| == i + 1 && next[i] == current[i] + 1
      && (forall v :: 0 <= v < i ==> next[v] == degree[v] + (if v in targets[..j + 1] then 1 else 0))
      && Sum(next) == Sum(current) + 2
  {
    assert targets[..j + 1] == targets[..j] + [targets[j]];
    var to := targets[j];
    SumUpdate(current, to, 1);
    SumUpdate(current[to := current[to] + 1], i, 1);
  }

  /** Appending the j-th entry of the new row to `g[i]`. */
  lemma AppendStep(g: Graph, current: Graph, i: nat, row: seq<Entry>, j: nat)
    requires current.Valid() && j < |row| && current.values == g.values[i := row[..j]]
    ensures i in current.values
    ensures current.Update(i, current.values[i] + [row[j]]).values == g.values[i := row[..j + 1]]
  {
    assert row[..j + 1] == row[..j] + [row[j]];
  }

  /** One iteration of the growth loop for vertex i, given what the sampler returned (`targets`)
      and the labels drawn (`picks`). */
  method GrowVertex(i: nat, k: nat, labels: seq<Label>, targets: seq<nat>, picks: seq<nat>, g: Graph, degree: seq<int>)
    returns (g': Graph, degree': seq<int>)
    requires g.Valid()
    requires |degree| == i && SamplerAccepts(degree, k)
    requires IsSample(targets, i, k) && forall j :: 0 <= j < k ==> degree[targets[j]] > 0
    requires |picks| == k && forall j :: 0 <= j < k ==> picks[j] < |labels|
    ensures g'.Valid()
    ensures g'.keys == if i in g.values then g.keys else g.keys + [i]
    ensures g'.values == g.values[i := NewRow(labels, targets, picks)]
    ensures |degree'| == i + 1 && degree'[i] == k
    ensures forall v :: 0 <= v < i ==> degree'[v] == degree[v] + (if v in targets then 1 else 0)
    ensures Sum(degree') == Sum(degree) + 2 * k
  {
    var row := NewRow(labels, targets, picks);
    g' := g.Put(i, []);
    ghost var keys := g'.keys;
    assert keys == if i in g.values then g.keys else g.keys + [i];
    degree' := degree + [0];
    SumAppend(degree, 0);
    for j := 0 to k
      invariant g'.Valid() && g'.keys == keys
      invariant g'.values == g.values[i := row[..j]]
      invariant |degree'| == i + 1 && degree'[i] == j
      invariant forall v :: 0 <= v < i ==> degree'[v] == degree[v] + (if v in targets[..j] then 1 else 0)
      invariant Sum(degree') == Sum(degree) + 2 * j
    {
      var to := targets[j];
      var symbol := labels[picks[j]];
      AppendStep(g, g', i, row, j);
      g' := g'.Update(i, g'.values[i] + [Entry(to, symbol)]);
      BumpStep(degree, degree', targets, j, i);
      degree' := degree'[to := degree'[to] + 1];
      degree' := degree'[i := degree'[i] + 1];
    }
    assert row[..k] == row;
    assert targets[..k] == targets;
  }

  /** The seed phase followed by the growth loop over i = k, ..., n - 1. */
  method Grow(n: nat, k: nat, labels: seq<Label>, d: Draws) returns (g: Graph, degree: seq<int>)
    requires 1 <= k <= n
    requires ValidDraws(n, k, labels, d)
    ensures GraphUpTo(g, n, k, labels, d, n)
    ensures degree == DegreeTable(n, k, d, n)
    ensures Sum(degree) == 3 * k + 2 * k * (n - k)
  {
    g := SeedGraph(n, k, labels, d);
    degree := seq(k, _ => 3);
    SeedDegrees(n, k, d);
    for i := k to n
      invariant GraphUpTo(g, n, k, labels, d, i)
      invariant degree == DegreeTable(n, k, d, i)
    {
      g, degree := GrowStep(n, k, labels, d, i, g, degree);
    }
    DegreeTableSum(n, k, d, n);
  }

  /** Iteration i of the growth loop, on the state the seed phase and iterations k, ..., i - 1
      left behind. */
  method GrowStep(n: nat, k: nat, labels: seq<Label>, d: Draws, i: nat, g: Graph, degree: seq<int>)
    returns (g': Graph, degree': seq<int>)
    requires 1 <= k <= i < n
    requires ValidDraws(n, k, labels, d)
    requires GraphUpTo(g, n, k, labels, d, i) && degree == DegreeTable(n, k, d, i)
    ensures GraphUpTo(g', n, k, labels, d, i + 1) && degree' == DegreeTable(n, k, d, i + 1)
  {
    // The sampler is called with weights degree / sum(degree) over range(i).
    var targets := d.targetDraws[i - k];
    SamplerReady(n, k, d, i, targets);
    g', degree' := GrowVertex(i, k, labels, targets, d.labelDraws[i], g, degree);
    GrowthGraphStep(n, k, labels, d, g, g', i);
    GrowthDegreeStep(n, k, d, degree', i);
  }

  /** A growth step on the reference table is the old table, extended by the new vertex at k,
      with 1 added at every sampled target. */
  lemma DegreeTableBump(n: nat, k: nat, d: Draws, i: nat)
    requires 1 <= k && ValidTargetDraws(n, k, d) && k <= i < n
    ensures IsSample(d.targetDraws[i - k], i, k)
    ensures DegreeTable(n, k, d, i + 1) == Bump(DegreeTable(n, k, d, i) + [k], d.targetDraws[i - k])
  {
    var targets := d.targetDraws[i - k];
    assert IsSample(targets, i, k);
    DegreeTableStep(n, k, d, i);
    var extended := DegreeTable(n, k, d, i) + [k];
    forall v | 0 <= v < i + 1
      ensures DegreeTable(n, k, d, i + 1)[v] == Bump(extended, targets)[v]
    {
      BumpAt(extended, targets, v);
    }
  }

  /** The degree total is 3 * k after seeding and grows by 2 * k per growth vertex. */
  lemma {:induction false} DegreeTableSum(n: nat, k: nat, d: Draws, i: nat)
    requires 1 <= k && ValidTargetDraws(n, k, d) && k <= i <= n
    ensures Sum(DegreeTable(n, k, d, i)) == 3 * k + 2 * k * (i - k)
  {
    if i == k {
      SeedDegrees(n, k, d);
    } else {
      DegreeTableSum(n, k, d, i - 1);
      DegreeSumGrows(n, k, d, i - 1);
      DegreeSumStep(k, i, Sum(DegreeTable(n, k, d, i - 1)), Sum(DegreeTable(n, k, d, i)));
    }
  }

  /** One growth iteration raises the degree total by 2 * k. */
  lemma DegreeSumGrows(n: nat, k: nat, d: Draws, i: nat)
    requires 1 <= k && ValidTargetDraws(n, k, d) && k <= i < n
    ensures Sum(DegreeTable(n, k, d, i + 1)) == Sum(DegreeTable(n, k, d, i)) + 2 * k
  {
    DegreeTableBump(n, k, d, i);
    GrowthSum(DegreeTable(n, k, d, i), DegreeTable(n, k, d, i + 1), k, d.targetDraws[i - k]);
  }

  /** Appending the new vertex at k and bumping its k targets adds 2 * k to the total. */
  lemma GrowthSum(degree: seq<int>, next: seq<int>, k: nat, targets: seq<nat>)
    requires |targets| == k && forall j :: 0 <= j < k ==> targets[j] < |degree|
    requires next == Bump(degree + [k], targets)
    ensures Sum(next) == Sum(degree) + 2 * k
  {
    BumpSum(degree + [k], targets);
    SumAppend(degree, k);
  }

  lemma DegreeSumStep(k: nat, i: nat, before: int, after: int)
    requires k < i && before == 3 * k + 2 * k * (i - 1 - k) && after == before + 2 * k
    ensures after == 3 * k + 2 * k * (i - k)
  {
  }

  /** The degree table starts as `[3] * k`, summing to 3 * k. */
  lemma SeedDegrees(n: nat, k: nat, d: Draws)
    requires 1 <= k && ValidTargetDraws(n, k, d)
    ensures DegreeTable(n, k, d, k) == seq(k, _ => 3)
    ensures Sum(seq(k, _ => 3)) == 3 * k
  {
    SumConstant(k, 3);
  }

  /** At growth vertex i the sampler's demands hold: i weights, all positive, so at least k
      candidates can be drawn, and every drawn candidate has positive weight; the total the
      weights are divided by is positive. */
  lemma SamplerReady(n: nat, k: nat, d: Draws, i: nat, targets: seq<nat>)
    requires 1 <= k && ValidTargetDraws(n, k, d) && k <= i < n && targets == d.targetDraws[i - k]
    ensures |DegreeTable(n, k, d, i)| == i && SamplerAccepts(DegreeTable(n, k, d, i), k)
    ensures IsSample(targets, i, k)
    ensures forall j :: 0 <= j < k ==> DegreeTable(n, k, d, i)[targets[j]] > 0
    ensures Sum(DegreeTable(n, k, d, i)) >= i > 0
  {
    AllPositiveCount(DegreeTable(n, k, d, i));
    SumPositive(DegreeTable(n, k, d, i));
    assert IsSample(d.targetDraws[i - k], i, k);
  }

  /** Attaching vertex i with its expected row extends the graph from i to i + 1 vertices. */
  lemma GrowthGraphStep(n: nat, k: nat, labels: seq<Label>, d: Draws, g: Graph, g': Graph, i: nat)
    requires ValidDraws(n, k, labels, d) && k <= i < n
    requires GraphUpTo(g, n, k, labels, d, i)
    requires g'.Valid()
    requires g'.keys == if i in g.values then g.keys else g.keys + [i]
    requires g'.values == g.values[i := NewRow(labels, d.targetDraws[i - k], d.labelDraws[i])]
    ensures GraphUpTo(g', n, k, labels, d, i + 1)
  {
    assert i !in g.values;
    assert g'.keys == Range(i + 1);
  }

  /** The degree table one growth iteration leaves behind is the reference table for i + 1. */
  lemma GrowthDegreeStep(n: nat, k: nat, d: Draws, degree: seq<int>, i: nat)
    requires 1 <= k && ValidTargetDraws(n, k, d) && k <= i < n
    requires |degree| == i + 1 && degree[i] == k
    requires forall v :: 0 <= v < i ==>
      degree[v] == DegreeTable(n, k, d, i)[v] + (if v in d.targetDraws[i - k] then 1 else 0)
    ensures degree == DegreeTable(n, k, d, i + 1)
  {
    DegreeTableStep(n, k, d, i);
  }

  /** The edges listed by the first m keys of g in iteration order, each entry (target, label)
      of key v becoming (v, label, target). */
  function EdgesOf(g: Graph, m: nat): seq<Edge>
    requires g.Valid() && m <= |g.keys|
  {
    if m == 0 then []
    else EdgesOf(g, m - 1) + RowEdges(g.keys[m - 1], g.values[g.keys[m - 1]])
  }

  function RowEdges(v: nat, row: seq<Entry>): seq<Edge>
  {
    seq(|row|, b requires 0 <= b < |row| => Edge(v, row[b].symbol, row[b].target))
  }

  /** The flattening loop: for every vertex in dictionary order, for every entry in list order,
      append (vertex, label, target). */
  method Flatten(g: Graph) returns (edges: seq<Edge>)
    requires g.Valid()
    ensures edges == EdgesOf(g, |g.keys|)
  {
    edges := [];
    for a := 0 to |g.keys|
      invariant edges == EdgesOf(g, a)
    {
      var v := g.keys[a];
      var row := g.values[v];
      for b := 0 to |row|
        invariant edges == EdgesOf(g, a) + RowEdges(v, row[..b])
      {
        assert RowEdges(v, row[..b + 1]) == RowEdges(v, row[..b]) + [Edge(v, row[b].symbol, row[b].target)];
        edges := edges + [Edge(v, row[b].symbol, row[b].target)];
      }
      assert row[..|row|] == row;
    }
  }

  /** The flattened list the generator produces for the first m vertices, read off the
      expected rows. */
  function ExpectedEdges(n: nat, k: nat, labels: seq<Label>, d: Draws, m: nat): seq<Edge>
    requires ValidDraws(n, k, labels, d) && m <= n
  {
    if m == 0 then [] else ExpectedEdges(n, k, labels, d, m - 1) + RowEdges(m - 1, ExpectedRow(n, k, labels, d, m - 1))
  }

  /** Flattening a grown graph lists exactly the expected edges. */
  lemma {:induction false} EdgesOfGrown(n: nat, k: nat, labels: seq<Label>, d: Draws, g: Graph, m: nat)
    requires ValidDraws(n, k, labels, d) && GraphUpTo(g, n, k, labels, d, n) && m <= n
    ensures EdgesOf(g, m) == ExpectedEdges(n, k, labels, d, m)
  {
    if m > 0 {
      EdgesOfGrown(n, k, labels, d, g, m - 1);
      assert g.keys[m - 1] == m - 1;
    }
  }

  /** Where the j-th edge of vertex v lands in the flattened list when every vertex has k edges. */
  function EdgeIndex(k: nat, v: nat, j: nat): nat
  {
    v * k + j
  }

  /** The first m vertices contribute k edges each. */
  lemma {:induction false} EdgesLength(n: nat, k: nat, labels: seq<Label>, d: Draws, m: nat)
    requires ValidDraws(n, k, labels, d) && m <= n
    ensures |ExpectedEdges(n, k, labels, d, m)| == m * k
  {
    if m > 0 {
      EdgesLength(n, k, labels, d, m - 1);
      MulPred(m, k);
    }
  }

  /** In the flattened list of the first m vertices, the j-th edge of vertex v sits at
      position v * k + j. */
  lemma EdgesLayout(n: nat, k: nat, labels: seq<Label>, d: Draws, m: nat)
    requires ValidDraws(n, k, labels, d) && m <= n
    ensures forall v, j :: 0 <= v < m && 0 <= j < k ==>
      && EdgeIndex(k, v, j) < |ExpectedEdges(n, k, labels, d, m)|
      && ExpectedEdges(n, k, labels, d, m)[EdgeIndex(k, v, j)] == Edge(v, labels[d.labelDraws[v][j]], TargetOf(n, k, d, v, j))
  {
    forall v, j | 0 <= v < m && 0 <= j < k
      ensures EdgeIndex(k, v, j) < |ExpectedEdges(n, k, labels, d, m)|
      ensures ExpectedEdges(n, k, labels, d, m)[EdgeIndex(k, v, j)] == Edge(v, labels[d.labelDraws[v][j]], TargetOf(n, k, d, v, j))
    {
      EdgeAt(n, k, labels, d, m, v, j);
    }
  }

  /** The j-th edge of vertex v, one position at a time. */
  lemma {:induction false} EdgeAt(n: nat, k: nat, labels: seq<Label>, d: Draws, m: nat, v: nat, j: nat)
    requires ValidDraws(n, k, labels, d) && v < m <= n && j < k
    ensures EdgeIndex(k, v, j) < |ExpectedEdges(n, k, labels, d, m)|
    ensures ExpectedEdges(n, k, labels, d, m)[EdgeIndex(k, v, j)] == Edge(v, labels[d.labelDraws[v][j]], TargetOf(n, k, d, v, j))
  {
    var prefix := ExpectedEdges(n, k, labels, d, m - 1);
    var row := RowEdges(m - 1, ExpectedRow(n, k, labels, d, m - 1));
    assert ExpectedEdges(n, k, labels, d, m) == prefix + row;
    EdgesLength(n, k, labels, d, m - 1);
    if v < m - 1 {
      EdgeAt(n, k, labels, d, m - 1, v, j);
    } else {
      assert EdgeIndex(k, v, j) == |prefix| + j;
    }
  }

  /** The edges of vertex v: source v, target below n (below k for a seed vertex, below v for a
      growth vertex), label from `labels`. */
  lemma RowFacts(n: nat, k: nat, labels: seq<Label>, d: Draws, v: nat)
    requires ValidDraws(n, k, labels, d) && v < n
    ensures forall e :: e in RowEdges(v, ExpectedRow(n, k, labels, d, v)) ==>
      && e.source == v && e.target < n && e.symbol in labels
      && (e.source < k ==> e.target < k)
      && (e.source >= k ==> e.target < e.source)
  {
  }

  /** Every edge of the first m vertices has its source below m, its target below n and a label
      from `labels`; seed edges stay among the seed vertices, growth edges point to earlier
      vertices. */
  lemma {:induction false} EdgesFacts(n: nat, k: nat, labels: seq<Label>, d: Draws, m: nat)
    requires ValidDraws(n, k, labels, d) && m <= n
    ensures forall e :: e in ExpectedEdges(n, k, labels, d, m) ==>
      && e.source < m && e.target < n && e.symbol in labels
      && (e.source < k ==> e.target < k)
      && (e.source >= k ==> e.target < e.source)
  {
    if m > 0 {
      EdgesFacts(n, k, labels, d, m - 1);
      RowFacts(n, k, labels, d, m - 1);
    }
  }

  /** Sources never decrease along the list. */
  predicate SortedBySource(edges: seq<Edge>)
  {
    forall a, b :: 0 <= a < b < |edges| ==> edges[a].source <= edges[b].source
  }

  /** Position p holds an edge whose source is below k exactly when p < split. */
  predicate SeedEdgesBelow(edges: seq<Edge>, k: nat, split: nat)
  {
    forall p :: 0 <= p < |edges| ==> (p < split <==> edges[p].source < k)
  }

  /** The flattened list is sorted by source: the rows follow the vertex order. */
  lemma {:induction false} EdgesSorted(n: nat, k: nat, labels: seq<Label>, d: Draws, m: nat)
    requires ValidDraws(n, k, labels, d) && m <= n
    ensures SortedBySource(ExpectedEdges(n, k, labels, d, m))
  {
    if m > 0 {
      EdgesSorted(n, k, labels, d, m - 1);
      EdgesFacts(n, k, labels, d, m - 1);
      RowFacts(n, k, labels, d, m - 1);
      SortedAppend(ExpectedEdges(n, k, labels, d, m - 1), RowEdges(m - 1, ExpectedRow(n, k, labels, d, m - 1)), m - 1);
    }
  }

  lemma SortedAppend(prefix: seq<Edge>, row: seq<Edge>, v: nat)
    requires SortedBySource(prefix) && forall e :: e in prefix ==> e.source < v + 1
    requires forall e :: e in row ==> e.source == v
    ensures SortedBySource(prefix + row)
  {
  }

  /** The seed edges come first: position p holds a seed edge exactly when p < k * k. */
  lemma {:induction false} SeedEdgesFirst(n: nat, k: nat, labels: seq<Label>, d: Draws, m: nat)
    requires ValidDraws(n, k, labels, d) && k <= m <= n
    ensures SeedEdgesBelow(ExpectedEdges(n, k, labels, d, m), k, k * k)
  {
    if m == k {
      EdgesLength(n, k, labels, d, m);
      EdgesFacts(n, k, labels, d, m);
    } else {
      SeedEdgesFirst(n, k, labels, d, m - 1);
      var prefix := ExpectedEdges(n, k, labels, d, m - 1);
      assert k * k <= |prefix| by {
        EdgesLength(n, k, labels, d, m - 1);
        MulMonotone(k, m - 1, k);
      }
      RowFacts(n, k, labels, d, m - 1);
      SplitStaysAfter(prefix, RowEdges(m - 1, ExpectedRow(n, k, labels, d, m - 1)), k, k * k);
    }
  }

  /** Appending edges whose sources are all at least k keeps the split, provided the list
      already reaches it. */
  lemma SplitStaysAfter(prefix: seq<Edge>, row: seq<Edge>, k: nat, split: nat)
    requires split <= |prefix| && SeedEdgesBelow(prefix, k, split)
    requires forall e :: e in row ==> e.source >= k
    ensures SeedEdgesBelow(prefix + row, k, split)
  {
  }

  /** How many vertices a run creates: the seed phase always creates k, and the growth loop
      `range(k, n)` adds vertices only up to n, so n < k leaves just the seed. */
  function VertexCount(n: nat, k: nat): (count: nat)
    ensures count >= n && count >= k
    ensures count == n || count == k
  {
    if n < k then k else n
  }

  /** `gen_scale_free_graph(destination, n, k, labels)`: the edge list handed to the writer
      and the path of the file it is written to. */
  method GenScaleFreeGraph(destination: GraphFileName.Path, n: nat, k: nat, labels: seq<Label>, d: Draws)
    returns (edges: seq<Edge>, target: GraphFileName.Path)
    requires 1 <= k
    requires ValidDraws(VertexCount(n, k), k, labels, d)
    ensures var count := VertexCount(n, k);
      && edges == ExpectedEdges(count, k, labels, d, count)
      && |edges| == k * k + (count - k) * k
      && (forall v, j :: 0 <= v < count && 0 <= j < k ==>
            && EdgeIndex(k, v, j) < |edges|
            && edges[EdgeIndex(k, v, j)] == Edge(v, labels[d.labelDraws[v][j]], TargetOf(count, k, d, v, j)))
      && (forall e :: e in edges ==> e.source < count && e.target < count && e.symbol in labels)
    ensures forall e :: e in edges && e.source < k ==> e.target < k
    ensures forall e :: e in edges && e.source >= k ==> e.target < e.source
    ensures SortedBySource(edges)
    ensures SeedEdgesBelow(edges, k, k * k)
    ensures target == GraphFileName.Join(destination, GraphFileName.FileName(n, k))
  {
    var count := VertexCount(n, k);
    var g, degree := Grow(count, k, labels, d);
    edges := Flatten(g);
    EdgesOfGrown(count, k, labels, d, g, count);
    EdgesLength(count, k, labels, d, count);
    EdgesLayout(count, k, labels, d, count);
    EdgesFacts(count, k, labels, d, count);
    EdgesSorted(count, k, labels, d, count);
    SeedEdgesFirst(count, k, labels, d, count);
    assert k * k + (count - k) * k == count * k;
    target := GraphFileName.Join(destination, GraphFileName.FileName(n, k));
  }
}
