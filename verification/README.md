# Scale-free graph generator (CFPQ_Data) in Dafny

This project models `gen_scale_free_graph` from CFPQ_Data's `ScaleFree` graph family, together
with the batch of preset parameters `SCALEFREE_GRAPH_TO_GEN`. The generator builds a labelled
directed graph in the Barabási–Albert (preferential-attachment) style. It works in three phases:

1. **Seed.** Vertices `0 .. k-1` each get `k` entries `(j, label)`, one for every `j` in
   `range(k)`. Each label is drawn from `labels`.
2. **Growth.** A degree table starts as `[3] * k`. Each vertex `i = k .. n-1` then does the
   following:
   - it asks a weighted sampler for `k` distinct earlier vertices, with weights
     `degree / sum(degree)`;
   - it appends one `(target, label)` entry per sampled vertex to `g[i]`;
   - it adds 1 to the degree of both endpoints of each new edge.
3. **Flattening.** The adjacency dictionary is flattened in insertion order into a list of
   `(source, label, target)` triples. The result is written to
   `destination / "scale_free_graph_<n>_<k>.xml"`.

Randomness is an input. A `Draws` value records which label was drawn for every edge and which
`k` targets the sampler returned for every growth vertex. Each growth draw is constrained to
what sampling `k` of `range(i)` without replacement can return: `k` distinct values, each
below `i`. Everything else about a run is proved for every such choice of draws.

Modules:
- `PyDict` (`py_dict.dfy`): an insertion-ordered dictionary. It models the Python `dict` that
  holds the adjacency lists. Its iteration order fixes the order of the flattened edges.
- `SeqMath` (`seq_math.dfy`): sums over degree tables, `range`, and adding 1 at a list of
  positions.
- `ScaleFree` (`scale_free.dfy`): the generator itself, plus reference definitions of the graph
  (`ExpectedRow`, `GraphUpTo`), of the degree table (`DegreeTable`) and of the edge list
  (`ExpectedEdges`).
  - The seed phase is a function.
  - The growth loop and its inner edge loop are methods: `Grow`, `GrowStep` and `GrowVertex`.
  - The flattening loop is the method `Flatten`.
  - Each method's contract ties its result to the reference definitions.
- `GraphFileName` (`file_name.dfy`): the output file name and its parser (its inverse).
- `Presets` (`presets.dfy`): `itertools.product` of the preset vertex counts and degrees.

## Model

| member | source | states |
|---|---|---|
| PyDict.Dict.Put | cfpq_data/src/graphs/ScaleFree.py:139 | `g[i] = []`: the key now maps to the new value and every other key keeps its value. A new key goes to the end of the iteration order; an existing key keeps its place. The dictionary stays well formed (each key once, keys and map agree) |
| PyDict.Dict.Update | cfpq_data/src/graphs/ScaleFree.py:143 | appending to `g[i]` in place changes only that key's value and leaves the key order unchanged |
| SeqMath.Range | cfpq_data/src/graphs/ScaleFree.py:126 | `range(i)`: i elements, the v-th being v, so exactly the values `0 <= v < i` |
| SeqMath.SumAppend | cfpq_data/src/graphs/ScaleFree.py:140 | `degree.append(x)` raises `sum(degree)` by x |
| SeqMath.SumPositive | cfpq_data/src/graphs/ScaleFree.py:136 | `sum(degree)` over positive entries is at least their number, so the divisor of the weights is positive once there is a vertex (together with SumAppend, SumUpdate and SumConstant this is the contract of `SeqMath.Sum`) |
| SeqMath.SumUpdate | cfpq_data/src/graphs/ScaleFree.py:144-145 | `degree[p] += delta` raises `sum(degree)` by delta |
| SeqMath.SumConstant | cfpq_data/src/graphs/ScaleFree.py:129 | `sum([c] * k) == c * k` |
| SeqMath.AllPositiveCount | cfpq_data/src/graphs/ScaleFree.py:136 | when every weight is positive, the number of positive weights is the full length, which is the candidate count the sampler checks against `size` |
| SeqMath.BumpSum | cfpq_data/src/graphs/ScaleFree.py:141-145 | adding 1 at each of t listed positions raises the sum by exactly t |
| SeqMath.BumpAt | cfpq_data/src/graphs/ScaleFree.py:141-144 | with distinct positions, an entry gains 1 exactly when its position is listed, else it is unchanged |
| ScaleFree.DegreeTable | cfpq_data/src/graphs/ScaleFree.py:129-145 | the degree table before iteration i has exactly i entries, all at least 1 |
| ScaleFree.HitsOfLater | cfpq_data/src/graphs/ScaleFree.py:132-137 | no vertex is ever sampled by itself or by an earlier vertex, so its hit count before its own iteration is 0 |
| ScaleFree.DegreeTableStep | cfpq_data/src/graphs/ScaleFree.py:140-145 | iteration i leaves i + 1 entries: the new vertex ends at k, each sampled target gains exactly 1, every other entry is unchanged |
| ScaleFree.DegreeTableBump | cfpq_data/src/graphs/ScaleFree.py:140-145 | the table after iteration i is the old table with k appended and 1 added at every sampled target |
| ScaleFree.SeedDegrees | cfpq_data/src/graphs/ScaleFree.py:129 | the table starts as `[3] * k` and sums to 3k |
| ScaleFree.DegreeTableSum | cfpq_data/src/graphs/ScaleFree.py:129-145 | the degree total before iteration i is `3k + 2k(i - k)`: 3k from the seed, 2k per growth vertex |
| ScaleFree.DegreeSumGrows | cfpq_data/src/graphs/ScaleFree.py:131-145 | each growth iteration raises the degree total by exactly 2k |
| ScaleFree.GrowthSum | cfpq_data/src/graphs/ScaleFree.py:140-145 | appending the new vertex and bumping its k targets raises the total by 2k |
| ScaleFree.SamplerReady | cfpq_data/src/graphs/ScaleFree.py:132-137 | at iteration i the sampler gets i weights, all positive, so at least k candidates are available; every returned target has positive weight; the total the weights are divided by is at least i, hence positive |
| ScaleFree.SeedGraph | cfpq_data/src/graphs/ScaleFree.py:124-127 | the seed dictionary has keys `0 .. k-1` in order; each row has k entries whose targets are `0 .. k-1` in order, with labels from `labels` |
| ScaleFree.NewRow | cfpq_data/src/graphs/ScaleFree.py:141-143 | the row appended for a growth vertex has one entry per sampled target, in sampler order; entry j points to the j-th target and carries a label from `labels` |
| ScaleFree.BumpStep | cfpq_data/src/graphs/ScaleFree.py:144-145 | one edge raises the target's count and the new vertex's count by 1 each (total +2), other entries unchanged |
| ScaleFree.AppendStep | cfpq_data/src/graphs/ScaleFree.py:143 | appending the j-th entry extends `g[i]` from the first j entries of the new row to the first j + 1 |
| ScaleFree.GrowVertex | cfpq_data/src/graphs/ScaleFree.py:139-145 | one growth iteration: `g[i]` becomes the sampled targets with their drawn labels, in sampler order; no other key changes; the degree table gains entry k for i and +1 at each target; the sum grows by 2k |
| ScaleFree.GrowthGraphStep | cfpq_data/src/graphs/ScaleFree.py:139-143 | after iteration i the dictionary holds exactly vertices `0 .. i` in order, each with its expected row |
| ScaleFree.GrowthDegreeStep | cfpq_data/src/graphs/ScaleFree.py:140-145 | the table iteration i leaves behind equals the reference table for i + 1 |
| ScaleFree.GrowStep | cfpq_data/src/graphs/ScaleFree.py:131-145 | one pass of the growth loop carries "graph and degree table match the references for i vertices" to i + 1 |
| ScaleFree.Grow | cfpq_data/src/graphs/ScaleFree.py:124-145 | after seeding and growing, the dictionary has vertices `0 .. n-1` in order with their expected rows; the degree table is the reference table; its total is `3k + 2k(n - k)` |
| ScaleFree.Flatten | cfpq_data/src/graphs/ScaleFree.py:149-153 | the list is the rows of the dictionary in key order; each entry (target, label) of key v becomes (v, label, target), in list order |
| ScaleFree.EdgesOfGrown | cfpq_data/src/graphs/ScaleFree.py:149-153 | flattening a fully grown dictionary yields the expected edge list |
| ScaleFree.EdgesLength | cfpq_data/src/graphs/ScaleFree.py:149-153 | the first m vertices contribute exactly m * k edges |
| ScaleFree.EdgesLayout | cfpq_data/src/graphs/ScaleFree.py:149-153 | the j-th edge of vertex v is at position `v * k + j`. It has source v, the j-th drawn label, and target j for a seed vertex or the j-th sampled target for a growth vertex |
| ScaleFree.EdgeAt | cfpq_data/src/graphs/ScaleFree.py:149-153 | for one vertex v below m and one j below k: position `v * k + j` exists in the list of the first m vertices. It holds (v, j-th drawn label, j-th target) |
| ScaleFree.RowFacts | cfpq_data/src/graphs/ScaleFree.py:124-143 | each edge of vertex v has source v and a label from `labels`; a seed vertex's targets are below k, a growth vertex's targets are below v |
| ScaleFree.EdgesFacts | cfpq_data/src/graphs/ScaleFree.py:149-153 | every listed edge has a source and target in bounds and a label from `labels`; seed edges stay among seed vertices and growth edges point to earlier vertices |
| ScaleFree.EdgesSorted | cfpq_data/src/graphs/ScaleFree.py:151-153 | sources never decrease along the list |
| ScaleFree.SortedAppend | cfpq_data/src/graphs/ScaleFree.py:151-153 | appending the row of the next vertex keeps the list sorted by source |
| ScaleFree.SeedEdgesFirst | cfpq_data/src/graphs/ScaleFree.py:124-153 | position p holds an edge of a seed vertex exactly when p < k * k |
| ScaleFree.SplitStaysAfter | cfpq_data/src/graphs/ScaleFree.py:151-153 | appending growth-vertex edges keeps "seed edges exactly before position k * k" |
| ScaleFree.VertexCount | cfpq_data/src/graphs/ScaleFree.py:124-131 | a run creates max(n, k) vertices: the seed always creates k, and growth only reaches n |
| ScaleFree.GenScaleFreeGraph | cfpq_data/src/graphs/ScaleFree.py:103-162 | the edge list has `k*k + (count-k)*k` edges and each edge sits at its computed slot; vertex and label bounds hold; growth edges point backwards; the list is sorted by source with the seed edges first; the returned path is `destination / FileName(n, k)` |
| GraphFileName.FileName | cfpq_data/src/graphs/ScaleFree.py:158 | `f'scale_free_graph_{n}_{k}.xml'`: starts with the prefix and ends with `.xml`, with text in between. FileNameRoundTrip and FileNameInjective state that it determines (n, k) |
| GraphFileName.Join | cfpq_data/src/graphs/ScaleFree.py:158 | `destination / name` appends exactly one component to the path |
| GraphFileName.Decimal | cfpq_data/src/graphs/ScaleFree.py:158 | the f-string text of an integer is a non-empty digit string; it starts with '0' only for 0 itself |
| GraphFileName.ParseDecimalOfDecimal | cfpq_data/src/graphs/ScaleFree.py:158 | reading the decimal text back returns the number |
| GraphFileName.IndexOf | cfpq_data/src/graphs/ScaleFree.py:158 | finds the first separator in the name |
| GraphFileName.SplitAtSeparator | cfpq_data/src/graphs/ScaleFree.py:158 | the first separator after the decimal n is the one between n and k, so the name splits back into the two numbers' texts |
| GraphFileName.FileNameRoundTrip | cfpq_data/src/graphs/ScaleFree.py:158 | `scale_free_graph_<n>_<k>.xml` parses back to exactly (n, k) |
| GraphFileName.FileNameInjective | cfpq_data/src/graphs/ScaleFree.py:158 | different (n, k) pairs never share an output file |
| Presets.Product | cfpq_data/src/graphs/ScaleFree.py:13-16 | `list(product(xs, ys))` has length `|xs| * |ys|`; the pair (xs[a], ys[b]) is at position `a * |ys| + b`; only such pairs occur |
| Presets.ProductStep | cfpq_data/src/graphs/ScaleFree.py:13-16 | the pairs of xs[0] followed by the product of the rest put (xs[a], ys[b]) at `a * |ys| + b` |
| Presets.ScaleFreeGraphToGen | cfpq_data/src/graphs/ScaleFree.py:13-16 | the preset list has 16 pairs in row-major order over [100, 500, 2500, 10000] x [1, 3, 5, 10]; each is a valid (n, k) with 1 <= k <= n |

## Left out

- The probabilities of `np.random.choice` are not modelled. Nothing is proved about which targets are likely; only what the sampler may return (k distinct earlier vertices) and that its weights are usable (all positive, at least k of them).
- The single shared random stream and the order in which labels and samples are drawn from it are not modelled. The draws are given per vertex and per edge.
- Output is not modelled: building the `rdflib` graph, `add_rdf_edge`, `write_to_rdf` and the `tqdm` progress bar. The model stops at the edge list and the target path. `RDF` and `utils` are not part of this model.
- The `ScaleFree` class is not modelled: `build`, `load_from_rdf`, `save_metadata`, the class-level `graphs` cache, and the command-line handling in `init_cmd_parser`/`eval_cmd_parser` (argument parsing, `print`, `exit`). These are file-system and command-line plumbing.
- ScaleFree.GenScaleFreeGraph: requires k >= 1. With k = 0 and n > 0 the sampler receives an empty weight array that does not sum to 1, which numpy rejects with an error. That error path is not modelled.
- ScaleFree.GenScaleFreeGraph: an empty `labels` makes numpy's label draw fail. The model has no separate error path for it: when some edge exists, no valid draw exists either, so no run satisfies the precondition.
- The default `labels = ('A', 'B', 'C', 'D')` appears only as the constant `ScaleFree.DefaultLabels`; callers pass labels explicitly.
- numpy integer types for sampled targets, and the floating-point division `degree / sum(degree)`, are modelled as exact naturals and integer weights.
