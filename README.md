# Iterative clustering engine (K-means) — a Dafny model

This project models the clustering core of an image palette-reduction library:
a generic Lloyd's-algorithm (K-means) loop over an opaque point type `T`, and the
random selector that picks its initial centers.

- `random_center_selector.dfy` (module `RandomCenterSelector`): `chooseInitialCenters`.
  It rejects a negative cluster count and a request for more clusters than
  points. It then draws indices into a set until the set holds `clusters`
  distinct indices, and returns the points at those indices. The
  pseudo-random generator is the sequence `draws` of values its `nextInt(n)`
  calls return. The method reports how many draws it took, because the generator
  is stateful and shared between calls. The iteration order of the index set is
  left unspecified: it is a nondeterministic pick, recorded in the ghost sequence
  `picked`.
- `iterative_clusterer.dfy` (module `IterativeClusterer`): `findClosestCenter`
  (an argmin scan where ties go to the lowest index), `getMemberships` (overwrites
  the memberships array in place and returns the same array), `converged`,
  `clusteringStep` and `cluster`. `cluster` makes at most `MaxIterations` (1000)
  assign/update steps and stops after the first step whose centers moved no more
  than `Tolerance` (0.0001). Each method is proved against a specification
  function: `ClosestCenter`, `Assign`, `Converged`, `Step` and `Run`.
  `RunStopsAtFirstConvergence` ties `Run` to the plain trajectory of steps.
- `wrappers.dfy`: the `Result` type used for the exceptions.

The distance metric and the center extractor are strategies supplied by the
caller. Their implementations are not part of this model. They appear as the
function-valued parameters `metric: (T, T) -> real` and
`extractor: (seq<T>, seq<int>, nat) -> seq<T>`. The extractor is trusted to
return exactly the number of centers it is asked for (`KeepsCount`).

Besides fewer points than clusters, the code fails in two more cases:
- a negative cluster count: the `HashSet` is created with a negative capacity
  (`IllegalCapacity`);
- zero clusters on a non-empty data set: the first step reads `centers.get(0)`
  of an empty list (`NoCenters`).

One memberships array, allocated once in `cluster`, is reused by every step's
`Clustering`; `ClusteringStep` states the sharing.

## Model

| member | source | states |
|---|---|---|
| `RandomCenterSelector.ChooseInitialCenters` | src/main/java/com/tecacet/intellijence/clustering/RandomCenterSelector.java:21-34 | Exactly one of four outcomes. Fewer points than clusters is rejected, and so is a negative count, both before any draw. The draws can run out before `clusters` distinct values appear. Otherwise it succeeds: `clusters` points at pairwise-distinct valid indices, which are exactly the distinct values of the shortest prefix of draws holding `clusters` of them. Zero clusters gives `[]` with no draw |
| `RandomCenterSelector.DrawIndexes` | src/main/java/com/tecacet/intellijence/clustering/RandomCenterSelector.java:25-28 | The index set is the set of draws taken so far. It fills up (exactly `clusters` elements) iff the draws hold at least `clusters` distinct values. It stops at the first draw that fills it. When it does not fill up, every draw was taken |
| `RandomCenterSelector.PointsAt` | src/main/java/com/tecacet/intellijence/clustering/RandomCenterSelector.java:29-33 | One point per index of the set, each at a distinct index of the set, every index used once, in an unspecified order |
| `RandomCenterSelector.DrawOne` | src/main/java/com/tecacet/intellijence/clustering/RandomCenterSelector.java:27 | Adding one draw grows the index set by at most one. A draw already present leaves it unchanged |
| `RandomCenterSelector.DrawnInRange` | src/main/java/com/tecacet/intellijence/clustering/RandomCenterSelector.java:27 | Every collected index is a valid index `[0, n)` of the data points |
| `IterativeClusterer.ClosestCenter` | src/main/java/com/tecacet/intellijence/clustering/IterativeClusterer.java:62-74 | For a non-empty center list: an index in range whose distance is no greater than any center's, and strictly smaller than every lower-indexed center's (first minimum wins) |
| `IterativeClusterer.ClosestCenterUnique` | src/main/java/com/tecacet/intellijence/clustering/IterativeClusterer.java:68-71 | Those two properties determine the index: any index with them is the one returned |
| `IterativeClusterer.FindClosestCenter` | src/main/java/com/tecacet/intellijence/clustering/IterativeClusterer.java:62-74 | The scan with strict `<` returns the first nearest center, an index in range |
| `IterativeClusterer.Assign` | src/main/java/com/tecacet/intellijence/clustering/IterativeClusterer.java:52-59 | One center index per point, each in `[0, k)`, each naming a center no farther from the point than any other |
| `IterativeClusterer.GetMemberships` | src/main/java/com/tecacet/intellijence/clustering/IterativeClusterer.java:52-60 | Overwrites the given array in place: afterwards entry `i` is the nearest center of point `i`, and the array returned is the array passed in |
| `IterativeClusterer.IsConverged` | src/main/java/com/tecacet/intellijence/clustering/IterativeClusterer.java:79-89 | True iff every old center is within `Tolerance` of the new center at the same position. False iff some position moved farther |
| `IterativeClusterer.Step` | src/main/java/com/tecacet/intellijence/clustering/IterativeClusterer.java:43-50 | Memberships are computed against the pre-step centers. The new centers come from the extractor asked for as many clusters as there were centers, so their count is unchanged |
| `IterativeClusterer.ClusteringStep` | src/main/java/com/tecacet/intellijence/clustering/IterativeClusterer.java:43-50 | The new clustering reuses the previous clustering's memberships array and holds exactly `Step` of the previous centers |
| `IterativeClusterer.Run` | src/main/java/com/tecacet/intellijence/clustering/IterativeClusterer.java:31-40 | At most `remaining` steps, and at least one if any remain. Without convergence it runs all of them. The number of centers is kept. After a step, the memberships have one entry per point, each in `[0, k)` |
| `IterativeClusterer.RunStopsAtFirstConvergence` | src/main/java/com/tecacet/intellijence/clustering/IterativeClusterer.java:32-39 | The loop's result is the clustering after its step count along the plain trajectory of steps. No earlier step converged. It reports convergence exactly when its last step's centers are within tolerance of the centers that step began from |
| `IterativeClusterer.Cluster` | src/main/java/com/tecacet/intellijence/clustering/IterativeClusterer.java:25-41 | Propagates each selector failure under exactly its condition, and fails on zero clusters with data. No draw is taken on any failure except running out of draws, which takes them all. On success: the draws taken are the shortest prefix holding `clusters` distinct values, and the initial centers are the points at exactly those distinct indices. It returns a fresh clustering with `clusters` centers and a fresh memberships array (allocated once, zero-filled, line 30) of one entry per point, each in `[0, clusters)`. The result equals `Run` for `MaxIterations` steps from those initial centers and all-zero memberships |
| `IterativeClusterer.Clustering.constructor` | src/main/java/com/tecacet/intellijence/clustering/IterativeClusterer.java:49 | A clustering pairs the given centers with the given memberships array (the array itself, not a copy) |

## Left out

- Logging (`java.util.logging.Logger`): it has no effect on behaviour.
- `java.util.Random` internals: its draws are an input sequence whose values lie in `[0, n)`. A finite sequence replaces an unbounded one. `DrawsExhausted` is the outcome when the sequence ends before enough distinct indices appear; the source would keep drawing.
- `HashSet` iteration order: modelled as an unspecified order. Only the set of indices and the number of centers are promised.
- Metric and center-extractor implementations (Euclidean distance, mean): their sources are not part of this model. Distances are abstract `real` values, so floating-point rounding, NaN comparisons, and the fact that the double `0.0001` is not exactly the real 0.0001 are not modelled.
- The extractor receives the shared memberships array and could mutate it. The model passes it the array's contents.
- An extractor that returns a different number of centers than asked is excluded by `KeepsCount`. With fewer centers the source's `converged` would index past the new list.
- Clustering.java, Metric.java, CenterExtractor.java and CenterSelector.java are not part of this model. `Clustering` is modelled as the pair of a center list and a memberships array.
- The clusterer's metric and extractor are parameters of the methods rather than final fields of an object. The selector's generator is the `draws` parameter.
- Optimality, cost monotonicity, idempotence on re-clustering, and convergence to particular centers on particular inputs: they depend on the concrete metric and extractor.
- The image compression layer (`ClusteringImageCompresser`): raster and colour-model construction, file I/O and lossy channel casts.
