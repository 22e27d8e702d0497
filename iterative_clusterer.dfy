/**
 * The iterative (Lloyd's / K-means) clustering engine over an opaque point type T.
 *
 * The distance metric and the center extractor are caller-supplied strategies
 * whose implementations are not part of this model; they appear as the
 * function-valued parameters `metric` and `extractor`. The extractor is trusted
 * to return exactly as many centers as it is asked for (`KeepsCount`).
 */
module IterativeClusterer {
  import opened Wrappers
  import RandomCenterSelector

  /** Hard cap on the number of assign/update steps. */
  const MaxIterations: nat := 1000
  /** Largest positional center movement still counted as "not moved". */
  const Tolerance: real := 0.0001

  type Metric<!T> = (T, T) -> real
  type Extractor<!T> = (seq<T>, seq<int>, nat) -> seq<T>

  /** On these points, the extractor returns one center per requested cluster. */
  ghost predicate KeepsCount<T>(extractor: Extractor<T>, points: seq<T>) {
    forall memberships: seq<int>, k: nat :: |extractor(points, memberships, k)| == k
  }

  datatype ClusterError =
    | SelectionFailed(cause: RandomCenterSelector.SelectError)
    | NoCenters  // findClosestCenter reads centers.get(0) of an empty center list

  /** The value of a clustering: its centers and the per-point center indices. */
  datatype Snapshot<T> = Snapshot(centers: seq<T>, memberships: seq<int>)

  /** A clustering result object; its memberships array is shared with later steps. */
  class Clustering<T> {
    const centers: seq<T>
    const memberships: array<int>

    constructor (centers: seq<T>, memberships: array<int>)
      ensures this.centers == centers && this.memberships == memberships
    {
      this.centers := centers;
      this.memberships := memberships;
    }

    ghost function View(): Snapshot<T>
      reads memberships
    {
      Snapshot(centers, memberships[..])
    }
  }

  // ---------------------------------------------------------------------------
  // Specification functions

  /**
   * The index of the center nearest to `p`: no center is nearer, and every
   * center before it is strictly farther, so among equal minima the first wins.
   */
  function ClosestCenter<T>(metric: Metric<T>, p: T, centers: seq<T>): (best: nat)
    requires |centers| > 0
    ensures best < |centers|
    ensures forall j :: 0 <= j < |centers| ==> metric(p, centers[best]) <= metric(p, centers[j])
    ensures forall j :: 0 <= j < best ==> metric(p, centers[best]) < metric(p, centers[j])
    decreases |centers|
  {
    if |centers| == 1 then 0
    else
      var last := |centers| - 1;
      var b := ClosestCenter(metric, p, centers[..last]);
      assert centers[..last][b] == centers[b];
      if metric(p, centers[last]) < metric(p, centers[b]) then last else b
  }

  /** The two properties of ClosestCenter determine the index uniquely. */
  lemma ClosestCenterUnique<T>(metric: Metric<T>, p: T, centers: seq<T>, i: nat)
    requires i < |centers|
    requires forall j :: 0 <= j < |centers| ==> metric(p, centers[i]) <= metric(p, centers[j])
    requires forall j :: 0 <= j < i ==> metric(p, centers[i]) < metric(p, centers[j])
    ensures i == ClosestCenter(metric, p, centers)
  {
  }

  /** Every point mapped to its nearest center. */
  function Assign<T>(metric: Metric<T>, points: seq<T>, centers: seq<T>): (m: seq<int>)
    requires |centers| > 0 || |points| == 0
    ensures |m| == |points|
    ensures forall i :: 0 <= i < |points| ==> 0 <= m[i] < |centers|
    ensures forall i, j :: 0 <= i < |points| && 0 <= j < |centers| ==>
      metric(points[i], centers[m[i]]) <= metric(points[i], centers[j])
  {
    seq(|points|, i requires 0 <= i < |points| => ClosestCenter(metric, points[i], centers))
  }

  /** No center moved by more than the tolerance from the one at the same position. */
  predicate Converged<T>(metric: Metric<T>, oldCenters: seq<T>, newCenters: seq<T>)
    requires |oldCenters| <= |newCenters|
  {
    forall i :: 0 <= i < |oldCenters| ==> metric(oldCenters[i], newCenters[i]) <= Tolerance
  }

  /** One assign-then-update step starting from `centers`. */
  function Step<T>(metric: Metric<T>, extractor: Extractor<T>, points: seq<T>, centers: seq<T>): (s: Snapshot<T>)
    requires KeepsCount(extractor, points)
    requires |centers| > 0 || |points| == 0
    ensures |s.centers| == |centers|
    ensures s.memberships == Assign(metric, points, centers)
  {
    var m := Assign(metric, points, centers);
    Snapshot(extractor(points, m, |centers|), m)
  }

  /** The result of the refinement loop: the last clustering, how many steps ran, and why it stopped. */
  datatype Outcome<T> = Outcome(final: Snapshot<T>, steps: nat, converged: bool)

  /**
   * The refinement loop from `s` with at most `remaining` steps left: it stops
   * right after the first step whose centers have converged, or when no step is left.
   */
  function Run<T>(metric: Metric<T>, extractor: Extractor<T>, points: seq<T>, s: Snapshot<T>, remaining: nat): (r: Outcome<T>)
    requires KeepsCount(extractor, points)
    requires |s.centers| > 0 || |points| == 0
    ensures r.steps <= remaining
    ensures !r.converged ==> r.steps == remaining
    ensures remaining > 0 ==> r.steps > 0
    ensures |r.final.centers| == |s.centers|
    ensures remaining > 0 ==>
      && |r.final.memberships| == |points|
      && forall i :: 0 <= i < |points| ==> 0 <= r.final.memberships[i] < |s.centers|
    decreases remaining
  {
    if remaining == 0 then Outcome(s, 0, false)
    else
      var next := Step(metric, extractor, points, s.centers);
      if Converged(metric, s.centers, next.centers) then Outcome(next, 1, true)
      else
        var rest := Run(metric, extractor, points, next, remaining - 1);
        Outcome(rest.final, rest.steps + 1, rest.converged)
  }

  /** The clustering after `n` unconditional steps from `s`. */
  function Trajectory<T>(metric: Metric<T>, extractor: Extractor<T>, points: seq<T>, s: Snapshot<T>, n: nat): (t: Snapshot<T>)
    requires KeepsCount(extractor, points)
    requires |s.centers| > 0 || |points| == 0
    ensures |t.centers| == |s.centers|
    decreases n
  {
    if n == 0 then s else Trajectory(metric, extractor, points, Step(metric, extractor, points, s.centers), n - 1)
  }

  /**
   * Run follows the trajectory of plain steps and stops at the first step that
   * converges: its result is the clustering after `steps` steps, no earlier
   * step converged, and it reports convergence exactly when the last step did.
   */
  lemma {:induction false} RunStopsAtFirstConvergence<T>(
    metric: Metric<T>, extractor: Extractor<T>, points: seq<T>, s: Snapshot<T>, remaining: nat)
    requires KeepsCount(extractor, points)
    requires |s.centers| > 0 || |points| == 0
    ensures var r := Run(metric, extractor, points, s, remaining);
      && r.final == Trajectory(metric, extractor, points, s, r.steps)
      && (forall j :: 0 < j < r.steps ==>
            !Converged(metric, Trajectory(metric, extractor, points, s, j - 1).centers,
                               Trajectory(metric, extractor, points, s, j).centers))
      && (r.converged <==>
            r.steps > 0 &&
            Converged(metric, Trajectory(metric, extractor, points, s, r.steps - 1).centers,
                              Trajectory(metric, extractor, points, s, r.steps).centers))
    decreases remaining
  {
    var r := Run(metric, extractor, points, s, remaining);
    if remaining > 0 {
      var next := Step(metric, extractor, points, s.centers);
      assert Trajectory(metric, extractor, points, s, 1) == next by {
        assert Trajectory(metric, extractor, points, next, 0) == next;
      }
      if !Converged(metric, s.centers, next.centers) {
        var rest := Run(metric, extractor, points, next, remaining - 1);
        RunStopsAtFirstConvergence(metric, extractor, points, next, remaining - 1);
        forall j: nat | 0 < j <= r.steps
          ensures Trajectory(metric, extractor, points, s, j) == Trajectory(metric, extractor, points, next, j - 1)
        {
        }
        forall j | 0 < j < r.steps
          ensures !Converged(metric, Trajectory(metric, extractor, points, s, j - 1).centers,
                                     Trajectory(metric, extractor, points, s, j).centers)
        {
          if j > 1 {
            assert Trajectory(metric, extractor, points, s, j - 1) == Trajectory(metric, extractor, points, next, j - 2);
          }
        }
      }
    }
  }

  // ---------------------------------------------------------------------------
  // The engine's operations

  /** findClosestCenter: a left-to-right scan keeping the strictly smaller distance. */
  method FindClosestCenter<T>(metric: Metric<T>, p: T, centers: seq<T>) returns (best: nat)
    requires |centers| > 0
    ensures best == ClosestCenter(metric, p, centers)
    ensures best < |centers|
    ensures forall j :: 0 <= j < |centers| ==> metric(p, centers[best]) <= metric(p, centers[j])
    ensures forall j :: 0 <= j < best ==> metric(p, centers[best]) < metric(p, centers[j])
  {
    var min := metric(p, centers[0]);
    best := 0;
    var i := 1;
    while i < |centers|
      invariant 1 <= i <= |centers|
      invariant best == ClosestCenter(metric, p, centers[..i])
      invariant min == metric(p, centers[best])
    {
      assert centers[..i + 1][..i] == centers[..i];
      var d := metric(p, centers[i]);
      if d < min {
        best := i;
        min := d;
      }
      i := i + 1;
    }
    assert centers[..i] == centers;
  }

  /** getMemberships: overwrites `memberships` in place with each point's nearest center, and returns that same array. */
  method GetMemberships<T>(metric: Metric<T>, points: seq<T>, centers: seq<T>, memberships: array<int>)
    returns (r: array<int>)
    requires |centers| > 0 || |points| == 0
    requires memberships.Length == |points|
    modifies memberships
    ensures r == memberships
    ensures memberships[..] == Assign(metric, points, centers)
  {
    for i := 0 to |points|
      invariant forall j :: 0 <= j < i ==> memberships[j] == ClosestCenter(metric, points[j], centers)
    {
      var centerIndex := FindClosestCenter(metric, points[i], centers);
      memberships[i] := centerIndex;
    }
    return memberships;
  }

  /** converged: scans the positions of the old centers and stops at the first one that moved too far. */
  method IsConverged<T>(metric: Metric<T>, oldCenters: seq<T>, newCenters: seq<T>) returns (done: bool)
    requires |oldCenters| <= |newCenters|
    ensures done <==> Converged(metric, oldCenters, newCenters)
    ensures !done <==> exists i :: 0 <= i < |oldCenters| && metric(oldCenters[i], newCenters[i]) > Tolerance
  {
    for i := 0 to |oldCenters|
      invariant forall j :: 0 <= j < i ==> metric(oldCenters[j], newCenters[j]) <= Tolerance
    {
      if metric(oldCenters[i], newCenters[i]) > Tolerance {
        return false;
      }
    }
    return true;
  }

  /**
   * clusteringStep: reassigns memberships against the current centers, reusing
   * the current clustering's array, then asks the extractor for as many new
   * centers as there are current ones.
   */
  method ClusteringStep<T>(metric: Metric<T>, extractor: Extractor<T>, points: seq<T>, clustering: Clustering<T>)
    returns (next: Clustering<T>)
    requires KeepsCount(extractor, points)
    requires |clustering.centers| > 0 || |points| == 0
    requires clustering.memberships.Length == |points|
    modifies clustering.memberships
    ensures fresh(next)
    ensures next.memberships == clustering.memberships
    ensures next.View() == Step(metric, extractor, points, clustering.centers)
  {
    var memberships := GetMemberships(metric, points, clustering.centers, clustering.memberships);
    var clusters := |clustering.centers|;
    var newCenters := extractor(points, memberships[..], clusters);
    next := new Clustering(newCenters, memberships);
  }

  /** The all-zero memberships array the engine starts from. */
  function Zeros(n: nat): (z: seq<int>)
    ensures |z| == n && forall i :: 0 <= i < n ==> z[i] == 0
  {
    seq(n, _ => 0)
  }

  /**
   * cluster: picks initial centers, then runs at most MaxIterations
   * assign/update steps, stopping after the first step whose new centers are
   * within the tolerance of the centers it started from. On success the result
   * is the outcome of Run from the initial centers; `initial` are those centers,
   * chosen at the distinct indices `picked`.
   */
  method Cluster<T>(metric: Metric<T>, extractor: Extractor<T>, draws: seq<int>, dataPoints: seq<T>, clusters: int)
    returns (r: Result<Clustering<T>, ClusterError>, used: nat, ghost initial: seq<T>, ghost picked: seq<int>)
    requires KeepsCount(extractor, dataPoints)
    requires RandomCenterSelector.DrawsInRange(draws, |dataPoints|)
    ensures clusters < 0 <==> r == Failure(SelectionFailed(RandomCenterSelector.IllegalCapacity))
    ensures |dataPoints| < clusters <==> r == Failure(SelectionFailed(RandomCenterSelector.FewerPointsThanClusters))
    ensures r == Failure(SelectionFailed(RandomCenterSelector.DrawsExhausted)) <==>
      0 <= clusters <= |dataPoints| && |RandomCenterSelector.Drawn(draws)| < clusters
    ensures r == Failure(NoCenters) <==> clusters == 0 && |dataPoints| > 0
    ensures r.Failure? && r.error != SelectionFailed(RandomCenterSelector.DrawsExhausted) ==> used == 0
    ensures r == Failure(SelectionFailed(RandomCenterSelector.DrawsExhausted)) ==> used == |draws|
    ensures r.Success? ==>
      && used <= |draws|
      && RandomCenterSelector.Drawn(picked) == RandomCenterSelector.Drawn(draws[..used])
      && (used == 0 || |RandomCenterSelector.Drawn(draws[..used - 1])| < clusters)
      && fresh(r.value) && fresh(r.value.memberships)
      && |r.value.centers| == clusters
      && r.value.memberships.Length == |dataPoints|
      && (forall i :: 0 <= i < |dataPoints| ==> 0 <= r.value.memberships[i] < clusters)
      && |initial| == clusters
      && RandomCenterSelector.PicksDistinct(dataPoints, picked, initial)
      && r.value.View() == Run(metric, extractor, dataPoints, Snapshot(initial, Zeros(|dataPoints|)), MaxIterations).final
  {
    var selected;
    selected, used, picked := RandomCenterSelector.ChooseInitialCenters(draws, dataPoints, clusters);
    initial := [];
    if selected.Failure? {
      return Failure(SelectionFailed(selected.error)), used, initial, picked;
    }
    var centers := selected.value;
    initial := centers;
    if |centers| == 0 && |dataPoints| > 0 {
      // the first step's findClosestCenter fails on the empty center list
      return Failure(NoCenters), used, initial, picked;
    }

    var memberships := new int[|dataPoints|](_ => 0);
    var clustering := new Clustering(centers, memberships);
    ghost var start := clustering.View();
    assert start == Snapshot(initial, Zeros(|dataPoints|));
    var iter := 0;
    while iter < MaxIterations
      invariant 0 <= iter <= MaxIterations
      invariant fresh(clustering) && clustering.memberships == memberships
      invariant clustering.centers == centers && |centers| == |initial|
      invariant Run(metric, extractor, dataPoints, start, MaxIterations).final
             == Run(metric, extractor, dataPoints, clustering.View(), MaxIterations - iter).final
      invariant iter > 0 ==> forall i :: 0 <= i < |dataPoints| ==> 0 <= memberships[i] < |centers|
    {
      ghost var before := clustering.View();
      clustering := ClusteringStep(metric, extractor, dataPoints, clustering);
      var done := IsConverged(metric, centers, clustering.centers);
      if done {
        assert Run(metric, extractor, dataPoints, before, MaxIterations - iter).final == clustering.View();
        break;
      }
      centers := clustering.centers;
      iter := iter + 1;
    }
    return Success(clustering), used, initial, picked;
  }
}
