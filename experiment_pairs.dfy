/** The pair bookkeeping of `compute_distances`: the list of instance pairs to
    evaluate, its split into contiguous slices for worker processes, and the
    merge that reads the workers' rows back. */
module ExperimentPairs {
  import opened Wrappers
  import opened NestedMaps
  import opened CsvRows

  // ---------------------------------------------------------------------
  // The pairs

  /** The pairs the inner loop appends for position i while j runs over
      0..j-1: (keys[i], keys[j']) for i < j', and (keys[i], keys[i]) when
      self-distances are asked for. */
  function RowUpTo(keys: seq<Id>, i: nat, selfDistances: bool, j: nat): seq<(Id, Id)>
    requires i < |keys| && j <= |keys|
  {
    if j == 0 then []
    else
      var front := RowUpTo(keys, i, selfDistances, j - 1);
      if i < j - 1 || (selfDistances && i == j - 1) then front + [(keys[i], keys[j - 1])] else front
  }

  /** The pairs appended while the outer loop runs over positions 0..i-1. */
  function PairsUpTo(keys: seq<Id>, selfDistances: bool, i: nat): seq<(Id, Id)>
    requires i <= |keys|
  {
    if i == 0 then [] else PairsUpTo(keys, selfDistances, i - 1) + RowUpTo(keys, i - 1, selfDistances, |keys|)
  }

  /** The list `ids` of `compute_distances`. */
  function AllPairs(keys: seq<Id>, selfDistances: bool): seq<(Id, Id)> {
    PairsUpTo(keys, selfDistances, |keys|)
  }

  /** The double loop of `compute_distances` that lists the pairs. */
  method ListPairs(keys: seq<Id>, selfDistances: bool) returns (ids: seq<(Id, Id)>)
    ensures ids == AllPairs(keys, selfDistances)
  {
    ids := [];
    var i := 0;
    while i < |keys|
      invariant 0 <= i <= |keys|
      invariant ids == PairsUpTo(keys, selfDistances, i)
    {
      var j := 0;
      while j < |keys|
        invariant 0 <= j <= |keys|
        invariant ids == PairsUpTo(keys, selfDistances, i) + RowUpTo(keys, i, selfDistances, j)
      {
        if i == j {
          if selfDistances {
            ids := ids + [(keys[i], keys[j])];
          }
        } else if i < j {
          ids := ids + [(keys[i], keys[j])];
        }
        j := j + 1;
      }
      i := i + 1;
    }
  }

  /** Position i contributes its pairs with every later position, plus its
      self-pair. */
  lemma {:induction false} RowLength(keys: seq<Id>, i: nat, selfDistances: bool, j: nat)
    requires i < |keys| && j <= |keys|
    ensures |RowUpTo(keys, i, selfDistances, j)| == if j <= i then 0 else j - i - 1 + (if selfDistances then 1 else 0)
  {
    if j > 0 {
      RowLength(keys, i, selfDistances, j - 1);
    }
  }

  lemma {:induction false} PairsUpToLength(keys: seq<Id>, selfDistances: bool, i: nat)
    requires i <= |keys|
    ensures 2 * |PairsUpTo(keys, selfDistances, i)| == i * (2 * |keys| - i - 1) + (if selfDistances then 2 * i else 0)
  {
    if i > 0 {
      var n := |keys|;
      PairsUpToLength(keys, selfDistances, i - 1);
      RowLength(keys, i - 1, selfDistances, n);
      assert |PairsUpTo(keys, selfDistances, i)| ==
        |PairsUpTo(keys, selfDistances, i - 1)| + |RowUpTo(keys, i - 1, selfDistances, n)|;
      TriangleStep(n, i);
    }
  }

  /** Adding row i - 1, of n - i later positions, to the first i - 1 rows. */
  lemma TriangleStep(n: int, i: int)
    ensures i * (2 * n - i - 1) == (i - 1) * (2 * n - (i - 1) - 1) + 2 * (n - i)
  {
  }

  /** `ids` has n(n-1)/2 pairs, plus n with self-distances. */
  lemma AllPairsLength(keys: seq<Id>, selfDistances: bool)
    ensures 2 * |AllPairs(keys, selfDistances)| == |keys| * (|keys| - 1) + (if selfDistances then 2 * |keys| else 0)
  {
    PairsUpToLength(keys, selfDistances, |keys|);
  }

  /** The pairs a position may form: a later position, or itself for self-distances. */
  predicate Listed(i: int, j: int, selfDistances: bool) {
    i < j || (selfDistances && i == j)
  }

  lemma {:induction false} RowMembers(keys: seq<Id>, i: nat, selfDistances: bool, j: nat)
    requires i < |keys| && j <= |keys|
    ensures forall x :: x in RowUpTo(keys, i, selfDistances, j) <==>
      exists j' :: 0 <= j' < j && Listed(i, j', selfDistances) && x == (keys[i], keys[j'])
  {
    if j > 0 {
      RowMembers(keys, i, selfDistances, j - 1);
    }
  }

  lemma {:induction false} PairsUpToMembers(keys: seq<Id>, selfDistances: bool, i: nat)
    requires i <= |keys|
    ensures forall x :: x in PairsUpTo(keys, selfDistances, i) <==>
      exists i', j' :: 0 <= i' < i && 0 <= j' < |keys| && Listed(i', j', selfDistances) && x == (keys[i'], keys[j'])
  {
    if i > 0 {
      PairsUpToMembers(keys, selfDistances, i - 1);
      RowMembers(keys, i - 1, selfDistances, |keys|);
    }
  }

  /** `ids` lists exactly the pairs of positions i < j (and i == j with
      self-distances), the first id at position i and the second at j. */
  lemma AllPairsMembers(keys: seq<Id>, selfDistances: bool)
    ensures forall x :: x in AllPairs(keys, selfDistances) <==>
      exists i, j :: 0 <= i < |keys| && 0 <= j < |keys| && Listed(i, j, selfDistances) && x == (keys[i], keys[j])
  {
    PairsUpToMembers(keys, selfDistances, |keys|);
  }

  /** Every listed pair consists of ids of the experiment. */
  lemma AllPairsCovered(keys: seq<Id>, selfDistances: bool)
    ensures forall k :: 0 <= k < |AllPairs(keys, selfDistances)| ==>
      AllPairs(keys, selfDistances)[k].0 in keys && AllPairs(keys, selfDistances)[k].1 in keys
  {
    AllPairsMembers(keys, selfDistances);
    forall k | 0 <= k < |AllPairs(keys, selfDistances)|
      ensures AllPairs(keys, selfDistances)[k].0 in keys && AllPairs(keys, selfDistances)[k].1 in keys
    {
      assert AllPairs(keys, selfDistances)[k] in AllPairs(keys, selfDistances);
    }
  }

  // ---------------------------------------------------------------------
  // Worker slices

  /** `int(p * n / procs)`: where the slice of worker p starts (and worker p-1's ends). */
  function SliceStart(n: nat, procs: nat, p: nat): (start: nat)
    requires procs > 0
  {
    p * n / procs
  }

  lemma DivMonotone(a: nat, b: nat, c: nat)
    requires a <= b && c > 0
    ensures a / c <= b / c
  {
    assert (a / c) * c <= a;
    assert b < (b / c) * c + c;
    assert (b / c + 1) * c == (b / c) * c + c;
  }

  lemma MulMonotone(p: nat, q: nat, n: nat)
    requires p <= q
    ensures p * n <= q * n
  {
  }

  lemma MulDivCancel(n: nat, c: nat)
    requires c > 0
    ensures c * n / c == n
  {
    var q, r := c * n / c, c * n % c;
    assert c * n == q * c + r && 0 <= r < c;
    assert (n - q) * c == r;
    if n - q >= 1 {
      MulMonotone(1, n - q, c);
    }
  }

  /** The slices are contiguous: the first starts at 0, the last ends at n,
      and they never run backwards. */
  lemma SliceBounds(n: nat, procs: nat, p: nat)
    requires procs > 0 && p < procs
    ensures SliceStart(n, procs, 0) == 0 && SliceStart(n, procs, procs) == n
    ensures SliceStart(n, procs, p) <= SliceStart(n, procs, p + 1) <= n
  {
    MulDivCancel(n, procs);
    MulMonotone(p, p + 1, n);
    MulMonotone(p + 1, procs, n);
    DivMonotone(p * n, (p + 1) * n, procs);
    DivMonotone((p + 1) * n, procs * n, procs);
  }

  /** `ids[start:stop]` of worker p. */
  function WorkerIds(ids: seq<(Id, Id)>, procs: nat, p: nat): seq<(Id, Id)>
    requires procs > 0 && p < procs
  {
    SliceBounds(|ids|, procs, p);
    ids[SliceStart(|ids|, procs, p)..SliceStart(|ids|, procs, p + 1)]
  }

  /** The slices of workers 0..q-1, one after the other. */
  function SlicesUpTo(ids: seq<(Id, Id)>, procs: nat, q: nat): seq<(Id, Id)>
    requires procs > 0 && q <= procs
  {
    if q == 0 then [] else SlicesUpTo(ids, procs, q - 1) + WorkerIds(ids, procs, q - 1)
  }

  lemma {:induction false} SlicesUpToPrefix(ids: seq<(Id, Id)>, procs: nat, q: nat)
    requires procs > 0 && q <= procs
    ensures SliceStart(|ids|, procs, q) <= |ids|
    ensures SlicesUpTo(ids, procs, q) == ids[..SliceStart(|ids|, procs, q)]
  {
    if q == 0 {
      SliceBounds(|ids|, procs, 0);
    } else {
      SlicesUpToPrefix(ids, procs, q - 1);
      SliceBounds(|ids|, procs, q - 1);
      var a, b := SliceStart(|ids|, procs, q - 1), SliceStart(|ids|, procs, q);
      assert ids[..a] + ids[a..b] == ids[..b];
    }
  }

  /** The workers' slices concatenate to `ids`: every pair goes to exactly one
      worker, in order. */
  lemma WorkerSlicesCover(ids: seq<(Id, Id)>, procs: nat)
    requires procs > 0
    ensures SlicesUpTo(ids, procs, procs) == ids
  {
    SlicesUpToPrefix(ids, procs, procs);
    SliceBounds(|ids|, procs, 0);
    assert ids[..|ids|] == ids;
  }

  // ---------------------------------------------------------------------
  // The merge of the workers' rows

  /** `t[row['instance_id_1']][row['instance_id_2']] = float(row[column])`:
      the value is read first, then the row of the first id, which must
      exist. */
  function MergeCell(p: Parsers, t: Table<real>, row: Row, column: string): (r: Result<Table<real>>)
    ensures r.Ok? ==> Names(row) && row["instance_id_1"].value in t.rows && FloatColumn(p, row, column).Ok?
    ensures r.Ok? ==>
      r.value == Put(t, row["instance_id_1"].value, row["instance_id_2"].value, FloatColumn(p, row, column).value)
    ensures r.Err? ==> r.error in {KeyError, TypeError, ValueError}
  {
    match FloatColumn(p, row, column)
    case Err(e) => Err(e)
    case Ok(x) =>
      match Column(row, "instance_id_1")
      case Err(e) => Err(e)
      case Ok(a) =>
        if a.None? || a.value !in t.rows then Err(KeyError)
        else
          match Column(row, "instance_id_2")
          case Err(e) => Err(e)
          case Ok(b) => if b.None? then Err(KeyError) else Ok(Put(t, a.value, b.value, x))
  }

  /** The row names both ids of a pair. */
  predicate Names(row: Row) {
    "instance_id_1" in row && row["instance_id_1"].Some? && "instance_id_2" in row && row["instance_id_2"].Some?
  }

  /** The pair a row names. */
  function Named(row: Row): (Id, Id)
    requires Names(row)
  {
    (row["instance_id_1"].value, row["instance_id_2"].value)
  }

  /** One row of a worker's file merged into distances and times. */
  function MergeRow(p: Parsers, t: (Table<real>, Table<real>), row: Row): Result<(Table<real>, Table<real>)> {
    match MergeCell(p, t.0, row, "distance")
    case Err(e) => Err(e)
    case Ok(d) =>
      match MergeCell(p, t.1, row, "time")
      case Err(e) => Err(e)
      case Ok(times) => Ok((d, times))
  }

  /** The merge writes only the direction a row names: the pair (a, b) gets
      the row's values and every other entry, (b, a) included, keeps its
      value. */
  lemma MergeRowOneDirection(p: Parsers, t: (Table<real>, Table<real>), row: Row)
    requires MergeRow(p, t, row).Ok?
    ensures Names(row)
    ensures var r := MergeRow(p, t, row).value;
      Lookup(r.0, Named(row).0, Named(row).1) == Some(FloatColumn(p, row, "distance").value) &&
      Lookup(r.1, Named(row).0, Named(row).1) == Some(FloatColumn(p, row, "time").value)
    ensures var r := MergeRow(p, t, row).value;
      r.0.rows == t.0.rows && r.1.rows == t.1.rows &&
      forall x, y :: (x, y) != Named(row) ==> Lookup(r.0, x, y) == Lookup(t.0, x, y) && Lookup(r.1, x, y) == Lookup(t.1, x, y)
  {
    var a, b := row["instance_id_1"].value, row["instance_id_2"].value;
    PutLookup(t.0, a, b, FloatColumn(p, row, "distance").value);
    PutLookup(t.1, a, b, FloatColumn(p, row, "time").value);
  }

  function MergeStep(p: Parsers): ((Table<real>, Table<real>), Row) -> Result<(Table<real>, Table<real>)> {
    (s, row) => MergeRow(p, s, row)
  }

  /** The merge of one worker's rows. */
  function MergeWorkerRows(p: Parsers, t: (Table<real>, Table<real>), rows: seq<Row>): Result<(Table<real>, Table<real>)> {
    Fold(rows, t, MergeStep(p))
  }

  /** A merged distance table holds a pair only if it held it before or some
      row names it in that order: nothing is mirrored. */
  lemma {:induction false} MergeWorkerRowsOneDirection(p: Parsers, t: (Table<real>, Table<real>), rows: seq<Row>)
    requires MergeWorkerRows(p, t, rows).Ok?
    ensures MergeWorkerRows(p, t, rows).value.0.rows == t.0.rows
    ensures forall x, y :: Lookup(MergeWorkerRows(p, t, rows).value.0, x, y).Some? ==>
      (Lookup(t.0, x, y).Some? || exists k :: 0 <= k < |rows| && Names(rows[k]) && Named(rows[k]) == (x, y))
  {
    if rows != [] {
      var n := |rows| - 1;
      var prev := MergeWorkerRows(p, t, rows[..n]);
      assert prev.Ok?;
      MergeWorkerRowsOneDirection(p, t, rows[..n]);
      var last := MergeRow(p, prev.value, rows[n]);
      assert MergeWorkerRows(p, t, rows) == last;
      MergeRowOneDirection(p, prev.value, rows[n]);
      forall x, y | Lookup(last.value.0, x, y).Some?
        ensures Lookup(t.0, x, y).Some? || exists k :: 0 <= k < |rows| && Names(rows[k]) && Named(rows[k]) == (x, y)
      {
        if (x, y) == Named(rows[n]) {
          assert Names(rows[n]) && Named(rows[n]) == (x, y);
        } else if Lookup(t.0, x, y).None? {
          var k :| 0 <= k < n && Names(rows[..n][k]) && Named(rows[..n][k]) == (x, y);
          assert rows[k] == rows[..n][k];
        }
      }
    }
  }
}
