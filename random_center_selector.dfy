/**
 * The default initial-center selector: draws random indices into a set until
 * it holds as many distinct indices as there are clusters, then returns the
 * points at those indices.
 *
 * The pseudo-random generator is modelled by the sequence `draws` of values its
 * `nextInt(n)` calls return, in order. Because the generator is stateful and
 * shared between calls, the selector reports how many draws it consumed.
 */
module RandomCenterSelector {
  import opened Wrappers

  datatype SelectError =
    | IllegalCapacity          // the index set is created with a negative capacity
    | FewerPointsThanClusters  // "There are fewer points than clusters!"
    | DrawsExhausted           // the modelled generator ran out before the set was full

  /** The distinct values among `s`. */
  function Drawn(s: seq<int>): set<int> {
    set d | d in s
  }

  /** Indices into `dataPoints` are valid draws of `nextInt(|dataPoints|)`. */
  predicate DrawsInRange(draws: seq<int>, n: nat) {
    forall j :: 0 <= j < |draws| ==> 0 <= draws[j] < n
  }

  /**
   * `centers` lists the points at the positions in `picked`, and the positions are
   * pairwise distinct indices into `dataPoints` (the points themselves may repeat).
   */
  ghost predicate PicksDistinct<T>(dataPoints: seq<T>, picked: seq<int>, centers: seq<T>) {
    && |centers| == |picked|
    && (forall j :: 0 <= j < |picked| ==> 0 <= picked[j] < |dataPoints| && centers[j] == dataPoints[picked[j]])
    && (forall j, l :: 0 <= j < l < |picked| ==> picked[j] != picked[l])
  }

  /** A subset is no larger than its superset. */
  lemma SubsetCardinality(a: set<int>, b: set<int>)
    requires a <= b
    ensures |a| <= |b|
  {
    assert b == a + (b - a);
    assert a * (b - a) == {};
  }

  /** Adding one draw grows the collected set by at most one; a repeated draw leaves it unchanged. */
  lemma DrawOne(s: seq<int>, d: int)
    ensures Drawn(s + [d]) == Drawn(s) + {d}
    ensures |Drawn(s + [d])| <= |Drawn(s)| + 1
    ensures d in Drawn(s) ==> Drawn(s + [d]) == Drawn(s)
  {
  }

  /** Draws in range collect only valid indices. */
  lemma DrawnInRange(draws: seq<int>, n: nat, i: int)
    requires DrawsInRange(draws, n)
    requires i in Drawn(draws)
    ensures 0 <= i < n
  {
  }

  /** The collected set only grows as more draws are taken. */
  lemma DrawnMonotone(draws: seq<int>, u: nat, v: nat)
    requires u <= v <= |draws|
    ensures Drawn(draws[..u]) <= Drawn(draws[..v])
    ensures |Drawn(draws[..u])| <= |Drawn(draws[..v])|
  {
    assert forall x :: x in draws[..u] ==> x in draws[..v];
    SubsetCardinality(Drawn(draws[..u]), Drawn(draws[..v]));
  }

  /** Appending the point at a fresh valid index keeps the picks distinct. */
  lemma PickOne<T>(dataPoints: seq<T>, picked: seq<int>, centers: seq<T>, index: int)
    requires PicksDistinct(dataPoints, picked, centers)
    requires 0 <= index < |dataPoints| && index !in picked
    ensures PicksDistinct(dataPoints, picked + [index], centers + [dataPoints[index]])
  {
  }

  /**
   * The draw loop: adds draws to the index set until it holds `clusters`
   * indices. `used` is the number of draws taken; `full` is false when the
   * draws ran out first.
   */
  method DrawIndexes(draws: seq<int>, clusters: nat) returns (indexes: set<int>, used: nat, full: bool)
    ensures used <= |draws|
    ensures indexes == Drawn(draws[..used])
    ensures full <==> |indexes| == clusters
    ensures full ==> used == 0 || |Drawn(draws[..used - 1])| < clusters
    ensures !full ==> used == |draws| && |Drawn(draws)| < clusters
    ensures full <==> clusters <= |Drawn(draws)|
  {
    indexes, used := {}, 0;
    while |indexes| < clusters
      invariant used <= |draws|
      invariant indexes == Drawn(draws[..used])
      invariant |indexes| <= clusters
      invariant used == 0 || |Drawn(draws[..used - 1])| < clusters
      decreases |draws| - used
    {
      if used == |draws| {
        assert draws[..used] == draws;
        return indexes, used, false;
      }
      assert draws[..used + 1] == draws[..used] + [draws[used]];
      DrawOne(draws[..used], draws[used]);
      indexes := indexes + {draws[used]};
      used := used + 1;
    }
    DrawnMonotone(draws, used, |draws|);
    assert draws[..|draws|] == draws;
    full := true;
  }

  /**
   * The copy loop: lists the points at the indices of `indexes`, in an
   * unspecified iteration order recorded in `picked`.
   */
  method PointsAt<T>(dataPoints: seq<T>, indexes: set<int>) returns (centers: seq<T>, ghost picked: seq<int>)
    requires forall i :: i in indexes ==> 0 <= i < |dataPoints|
    ensures |centers| == |indexes|
    ensures PicksDistinct(dataPoints, picked, centers)
    ensures Drawn(picked) == indexes
  {
    var remaining := indexes;
    centers, picked := [], [];
    while remaining != {}
      invariant remaining <= indexes
      invariant |picked| + |remaining| == |indexes|
      invariant PicksDistinct(dataPoints, picked, centers)
      invariant forall j :: 0 <= j < |picked| ==> picked[j] in indexes && picked[j] !in remaining
      invariant forall i :: i in indexes ==> i in remaining || i in picked
      decreases |remaining|
    {
      // shows that `remaining` has an element for the pick below
      if forall i :: i !in remaining {
        assert false;
      }
      var index :| index in remaining;
      PickOne(dataPoints, picked, centers, index);
      centers := centers + [dataPoints[index]];
      picked := picked + [index];
      remaining := remaining - {index};
    }
    assert forall i :: i in picked <==> i in indexes;
  }

  /**
   * chooseInitialCenters. On success, `used` is the number of draws taken: the
   * shortest prefix of `draws` with `clusters` distinct values. The returned
   * centers are the points at those distinct indices, in the (unspecified)
   * order `picked` in which the index set is iterated.
   */
  method ChooseInitialCenters<T>(draws: seq<int>, dataPoints: seq<T>, clusters: int)
    returns (r: Result<seq<T>, SelectError>, used: nat, ghost picked: seq<int>)
    requires DrawsInRange(draws, |dataPoints|)
    ensures |dataPoints| < clusters <==> r == Failure(FewerPointsThanClusters)
    ensures clusters < 0 <==> r == Failure(IllegalCapacity)
    ensures r == Failure(DrawsExhausted) <==> 0 <= clusters <= |dataPoints| && |Drawn(draws)| < clusters
    ensures r.Failure? && r.error != DrawsExhausted ==> used == 0
    ensures r.Failure? && r.error == DrawsExhausted ==> used == |draws|
    ensures r.Success? ==>
      && |r.value| == clusters
      && PicksDistinct(dataPoints, picked, r.value)
      && used <= |draws|
      && Drawn(picked) == Drawn(draws[..used])
      && (used == 0 || |Drawn(draws[..used - 1])| < clusters)
    ensures clusters == 0 ==> r == Success([]) && used == 0
  {
    picked := [];
    if |dataPoints| < clusters {
      return Failure(FewerPointsThanClusters), 0, picked;
    }
    if clusters < 0 {
      return Failure(IllegalCapacity), 0, picked;
    }
    var indexes, full;
    indexes, used, full := DrawIndexes(draws, clusters);
    if !full {
      return Failure(DrawsExhausted), used, picked;
    }
    forall i | i in indexes ensures 0 <= i < |dataPoints| {
      DrawnInRange(draws[..used], |dataPoints|, i);
    }
    var centers;
    centers, picked := PointsAt(dataPoints, indexes);
    return Success(centers), used, picked;
  }
}
