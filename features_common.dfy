/** Helpers shared by the features: distance matrices over a chosen list of
    instances, and the coordinates of those instances. */
module FeaturesCommon {
  import opened Wrappers
  import opened NestedMaps
  import opened ExperimentModel

  /** Whether the pair (x, y), x < y, comes before (i, j) in the row-by-row
      order the nested loops visit the upper triangle in. */
  predicate Before(x: nat, y: nat, i: nat, j: nat) {
    x < i || (x == i && y < j)
  }

  /** `extract_selected_distances`: an n-by-n matrix of zeros whose cells
      (i, j) and (j, i), for i < j, both receive the recorded distance from
      `ids[i]` to `ids[j]`. Only that direction of the table is read; a
      missing one raises KeyError. */
  method ExtractSelectedDistances(experiment: Experiment, ids: seq<Id>) returns (r: Result<array2<real>>)
    ensures r.Ok? <==> forall x, y :: 0 <= x < y < |ids| ==> Lookup(experiment.distances, ids[x], ids[y]).Some?
    ensures r.Err? ==> r.error == KeyError
    ensures r.Ok? ==> fresh(r.value) && r.value.Length0 == |ids| && r.value.Length1 == |ids|
    ensures r.Ok? ==> forall x, y :: 0 <= x < y < |ids| ==>
      Lookup(experiment.distances, ids[x], ids[y]) == Some(r.value[x, y])
    ensures r.Ok? ==> forall x, y :: 0 <= x < |ids| && 0 <= y < |ids| ==> r.value[x, y] == r.value[y, x]
    ensures r.Ok? ==> forall x :: 0 <= x < |ids| ==> r.value[x, x] == 0.0
  {
    var n := |ids|;
    var distances := new real[n, n]((_, _) => 0.0);
    var t := experiment.distances;
    var i := 0;
    while i < n
      invariant 0 <= i <= n
      invariant forall x, y :: 0 <= x < y < n && x < i ==>
        Lookup(t, ids[x], ids[y]) == Some(distances[x, y]) && distances[y, x] == distances[x, y]
      invariant forall x, y :: 0 <= x < y < n && i <= x ==> distances[x, y] == 0.0 && distances[y, x] == 0.0
      invariant forall x :: 0 <= x < n ==> distances[x, x] == 0.0
    {
      var j := i + 1;
      while j < n
        invariant i + 1 <= j <= n
        invariant forall x, y :: 0 <= x < y < n && Before(x, y, i, j) ==>
          Lookup(t, ids[x], ids[y]) == Some(distances[x, y]) && distances[y, x] == distances[x, y]
        invariant forall x, y :: 0 <= x < y < n && !Before(x, y, i, j) ==>
          distances[x, y] == 0.0 && distances[y, x] == 0.0
        invariant forall x :: 0 <= x < n ==> distances[x, x] == 0.0
      {
        var d := Lookup(t, ids[i], ids[j]);
        if d.None? {
          return Err(KeyError);
        }
        distances[i, j] := d.value;
        distances[j, i] := d.value;
        j := j + 1;
      }
      i := i + 1;
    }
    r := Ok(distances);
  }

  /** `extract_selected_coordinates`: the point of every id, in order; a
      missing id raises KeyError. */
  function SelectedCoordinates(coordinates: map<Id, seq<real>>, ids: seq<Id>): (r: Result<seq<seq<real>>>)
    ensures r.Ok? <==> forall k :: 0 <= k < |ids| ==> ids[k] in coordinates
    ensures r.Err? ==> r.error == KeyError
    ensures r.Ok? ==> |r.value| == |ids| && forall k :: 0 <= k < |ids| ==> r.value[k] == coordinates[ids[k]]
  {
    if ids == [] then Ok([])
    else if ids[0] !in coordinates then Err(KeyError)
    else
      match SelectedCoordinates(coordinates, ids[1..])
      case Err(e) => Err(e)
      case Ok(rest) => Ok([coordinates[ids[0]]] + rest)
  }

  /** `extract_selected_coordinates_from_experiment`: the same, over the
      experiment's coordinates. */
  function SelectedCoordinatesFromExperiment(experiment: Experiment, ids: seq<Id>): (r: Result<seq<seq<real>>>)
    reads experiment
    ensures r.Ok? <==> forall k :: 0 <= k < |ids| ==> ids[k] in experiment.coordinates
    ensures r.Ok? ==> |r.value| == |ids| && forall k :: 0 <= k < |ids| ==> r.value[k] == experiment.coordinates[ids[k]]
  {
    SelectedCoordinates(experiment.coordinates, ids)
  }

  /** The points of a two-dimensional array: rows of one length. */
  predicate Rectangular(points: seq<seq<real>>) {
    forall i :: 0 <= i < |points| ==> |points[i]| == |points[0]|
  }

  /** Elementwise difference of two points. */
  function Difference(u: seq<real>, v: seq<real>): (r: seq<real>)
    requires |u| == |v|
    ensures |r| == |u| && forall k :: 0 <= k < |u| ==> r[k] == u[k] - v[k]
  {
    seq(|u|, k requires 0 <= k < |u| => u[k] - v[k])
  }

  /** Elementwise negation of a point. */
  function Negated(v: seq<real>): (r: seq<real>)
    ensures |r| == |v| && forall k :: 0 <= k < |v| ==> r[k] == -v[k]
  {
    seq(|v|, k requires 0 <= k < |v| => -v[k])
  }

  /** Swapping the points negates their difference. */
  lemma DifferenceSwap(u: seq<real>, v: seq<real>)
    requires |u| == |v|
    ensures Difference(v, u) == Negated(Difference(u, v))
  {
    var a, b := Difference(v, u), Negated(Difference(u, v));
    assert |a| == |b|;
    forall k | 0 <= k < |a|
      ensures a[k] == b[k]
    {
      assert a[k] == v[k] - u[k];
      assert b[k] == -(u[k] - v[k]);
    }
  }

  /** The norm of point x minus point y. */
  function Gap(points: seq<seq<real>>, norm: seq<real> -> real, x: nat, y: nat): real
    requires Rectangular(points) && x < |points| && y < |points|
  {
    assert |points[x]| == |points[0]| == |points[y]|;
    norm(Difference(points[x], points[y]))
  }

  /** `extract_calculated_distances`: an n-by-n matrix of zeros whose cells
      (i, j) and (j, i), for i < j, both receive the norm of point i minus
      point j. The norm is a parameter. */
  method ExtractCalculatedDistances(points: seq<seq<real>>, norm: seq<real> -> real) returns (m: array2<real>)
    requires Rectangular(points)
    ensures fresh(m) && m.Length0 == |points| && m.Length1 == |points|
    ensures forall x, y :: 0 <= x < y < |points| ==> m[x, y] == Gap(points, norm, x, y)
    ensures forall x, y :: 0 <= x < |points| && 0 <= y < |points| ==> m[x, y] == m[y, x]
    ensures forall x :: 0 <= x < |points| ==> m[x, x] == 0.0
  {
    var n := |points|;
    m := new real[n, n]((_, _) => 0.0);
    var i := 0;
    while i < n
      invariant 0 <= i <= n
      invariant forall x, y :: 0 <= x < y < n && x < i ==>
        m[x, y] == Gap(points, norm, x, y) && m[y, x] == m[x, y]
      invariant forall x, y :: 0 <= x < y < n && i <= x ==> m[x, y] == 0.0 && m[y, x] == 0.0
      invariant forall x :: 0 <= x < n ==> m[x, x] == 0.0
    {
      var position := points[i];
      var j := i + 1;
      while j < n
        invariant i + 1 <= j <= n
        invariant forall x, y :: 0 <= x < y < n && Before(x, y, i, j) ==>
          m[x, y] == Gap(points, norm, x, y) && m[y, x] == m[x, y]
        invariant forall x, y :: 0 <= x < y < n && !Before(x, y, i, j) ==> m[x, y] == 0.0 && m[y, x] == 0.0
        invariant forall x :: 0 <= x < n ==> m[x, x] == 0.0
      {
        var d := norm(Difference(position, points[j]));
        assert d == Gap(points, norm, i, j);
        m[i, j] := d;
        m[j, i] := d;
        j := j + 1;
      }
      i := i + 1;
    }
  }

  /** For a norm that ignores sign, as every norm does, the norm of the
      difference does not depend on the order of the two points, so each
      cell (y, x) below the diagonal also holds the norm of point y minus
      point x. */
  lemma GapSymmetric(points: seq<seq<real>>, norm: seq<real> -> real, x: nat, y: nat)
    requires Rectangular(points) && x < |points| && y < |points|
    requires forall v :: norm(Negated(v)) == norm(v)
    ensures Gap(points, norm, x, y) == Gap(points, norm, y, x)
  {
    assert |points[x]| == |points[0]| == |points[y]|;
    DifferenceSwap(points[x], points[y]);
    assert norm(Difference(points[y], points[x])) == norm(Negated(Difference(points[x], points[y])));
  }
}
