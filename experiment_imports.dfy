/** Reading an experiment's distances, feature values and coordinates back from
    its `;`-separated files. Every reader folds the rows of `csv.DictReader` into
    dicts, creating inner dicts on demand. The loop variables that hold a row's
    ids are carried from one row to the next, exactly as Python's locals are: a
    row that assigns none of them keeps the previous row's ids, and a first row
    that assigns none fails with NameError (UnboundLocalError). */
module ExperimentImports {
  import opened Wrappers
  import opened NestedMaps
  import opened Dicts
  import opened Text
  import opened CsvRows
  import opened ExperimentExports
  import opened Permutations

  /** The files under the working directory: path components to lines. */
  type Files = map<seq<string>, seq<seq<string>>>

  /** `open(path)` wrapped in a `csv.DictReader`. */
  function Open(files: Files, path: seq<string>): (r: Result<seq<Row>>)
    ensures r.Ok? <==> path in files
    ensures r.Err? ==> r.error == FileNotFound
  {
    if path in files then Ok(ReadRows(files[path])) else Err(FileNotFound)
  }

  /** A local variable of a reading loop: never assigned, or holding a cell
      (None for a line shorter than the header). */
  datatype Binding = Unbound | Bound(cell: Option<string>)

  /** The variable holds an id of the experiment (None is never one). */
  predicate Known(b: Binding, instanceIds: seq<Id>) {
    b.Bound? && b.cell.Some? && b.cell.value in instanceIds
  }

  // ---------------------------------------------------------------------
  // The ids of a distances row

  /** The nested try/except that reads a row's ids: `election_id_1`/`_2`
      first and, once a lookup fails, `instance_id_1`/`_2`; every assignment
      made before a KeyError stays. */
  function PairIds(row: Row, prev: (Binding, Binding)): (ids: (Binding, Binding))
    ensures "election_id_1" in row && "election_id_2" in row ==>
      ids == (Bound(row["election_id_1"]), Bound(row["election_id_2"]))
    ensures !("election_id_1" in row && "election_id_2" in row) && "instance_id_1" in row && "instance_id_2" in row ==>
      ids == (Bound(row["instance_id_1"]), Bound(row["instance_id_2"]))
    ensures "election_id_1" !in row && "instance_id_1" !in row ==> ids == prev
  {
    var first := if "election_id_1" in row then (Bound(row["election_id_1"]), prev.1) else prev;
    if "election_id_1" in row && "election_id_2" in row then (first.0, Bound(row["election_id_2"]))
    else if "instance_id_1" !in row then first
    else if "instance_id_2" !in row then (Bound(row["instance_id_1"]), first.1)
    else (Bound(row["instance_id_1"]), Bound(row["instance_id_2"]))
  }

  /** `id_1 not in instance_ids or id_2 not in instance_ids`, evaluated left to
      right: Ok(true) skips the row, and a name still unassigned when it is
      reached raises NameError. */
  function Skips(ids: (Binding, Binding), instanceIds: seq<Id>): (r: Result<bool>)
    ensures r == Ok(false) <==> Known(ids.0, instanceIds) && Known(ids.1, instanceIds)
    ensures r.Err? <==> ids.0.Unbound? || (Known(ids.0, instanceIds) && ids.1.Unbound?)
    ensures r.Err? ==> r.error == NameError
  {
    if ids.0.Unbound? then Err(NameError)
    else if !Known(ids.0, instanceIds) then Ok(true)
    else if ids.1.Unbound? then Err(NameError)
    else Ok(!Known(ids.1, instanceIds))
  }

  /** The state of a distances reader: the id variables and the dicts filled so far. */
  datatype Scan<T> = Scan(ids: (Binding, Binding), tables: T)

  /** `if a not in table: table[a] = {}` and the same for b. */
  function AddRows<T>(t: Table<T>, a: Id, b: Id): (r: Table<T>)
    ensures r.rows == t.rows + {a, b} && r.entries == t.entries
  {
    Table(t.rows + {a, b}, t.entries)
  }

  /** New empty rows keep every entry and a symmetric dict symmetric. */
  lemma AddRowsMirrored<T>(t: Table<T>, a: Id, b: Id, instanceIds: seq<Id>)
    requires MirroredOver(t, instanceIds) && a in instanceIds && b in instanceIds
    ensures MirroredOver(AddRows(t, a, b), instanceIds)
  {
    var u := AddRows(t, a, b);
    assert forall x, y :: Lookup(u, x, y) == Lookup(t, x, y);
  }

  /** The path `experiments/<experiment_id>/distances/<distance_id>.csv`. */
  function DistancesPath(experimentId: Option<string>, distanceId: Option<string>): (r: Result<seq<string>>)
    ensures r.Err? <==> experimentId.None?
    ensures r.Ok? ==> r.value == ["experiments", experimentId.value, "distances", Show(distanceId) + ".csv"]
  {
    var folder := Folder(experimentId, "distances");
    if folder.Err? then Err(folder.error) else Ok(folder.value + [Show(distanceId) + ".csv"])
  }

  // ---------------------------------------------------------------------
  // import_distances_from_file

  /** `float(row['distance'])` where only KeyError is caught: None when the
      column does not exist, an error for a missing or unparsable cell. */
  function OptionalDistance(p: Parsers, row: Row): (r: Result<Option<real>>)
    ensures "distance" !in row ==> r == Ok(None)
    ensures "distance" in row ==> (r.Ok? <==> FloatColumn(p, row, "distance").Ok?)
    ensures "distance" in row && r.Ok? ==> r.value == Some(FloatColumn(p, row, "distance").value)
    ensures r.Err? ==> r.error in {TypeError, ValueError}
  {
    if "distance" !in row then Ok(None)
    else
      var x := ToFloat(p, row["distance"]);
      if x.Err? then Err(x.error) else Ok(Some(x.value))
  }

  /** One turn of the loop of `import_distances_from_file`. */
  function DistanceRow(p: Parsers, instanceIds: seq<Id>, s: Scan<Table<real>>, row: Row): (r: Result<Scan<Table<real>>>)
  {
    var ids := PairIds(row, s.ids);
    match Skips(ids, instanceIds)
    case Err(e) => Err(e)
    case Ok(skip) =>
      if skip then Ok(Scan(ids, s.tables))
      else
        var a := ids.0.cell.value;
        var b := ids.1.cell.value;
        var t := AddRows(s.tables, a, b);
        match OptionalDistance(p, row)
        case Err(e) => Err(e)
        case Ok(None) => Ok(Scan(ids, t))
        case Ok(Some(x)) => Ok(Scan(ids, Mirror(t, a, b, x)))
  }

  /** Before the first row: no id assigned, no dict filled. */
  function StartScan<T>(tables: T): Scan<T> {
    Scan((Unbound, Unbound), tables)
  }

  /** The rows of a distances file folded into the distances dict. */
  function DistanceRows(p: Parsers, instanceIds: seq<Id>, rows: seq<Row>): Result<Scan<Table<real>>> {
    Fold(rows, StartScan(Table({}, map[])), (s, row) => DistanceRow(p, instanceIds, s, row))
  }

  /** What `import_distances_from_file` returns. */
  function ImportedDistances(files: Files, p: Parsers, experimentId: Option<string>, distanceId: Option<string>,
                             instanceIds: seq<Id>): (r: Result<Table<real>>)
    ensures experimentId.None? ==> r == Err(TypeError)
  {
    match DistancesPath(experimentId, distanceId)
    case Err(e) => Err(e)
    case Ok(path) =>
      match Open(files, path)
      case Err(e) => Err(e)
      case Ok(rows) =>
        match DistanceRows(p, instanceIds, rows)
        case Err(e) => Err(e)
        case Ok(s) => Ok(s.tables)
  }

  /** `import_distances_from_file`. */
  method ImportDistancesFromFile(files: Files, p: Parsers, experimentId: Option<string>, distanceId: Option<string>,
                                 instanceIds: seq<Id>) returns (r: Result<Table<real>>)
    ensures r == ImportedDistances(files, p, experimentId, distanceId, instanceIds)
  {
    var path := DistancesPath(experimentId, distanceId);
    if path.Err? {
      return Err(path.error);
    }
    var rows := Open(files, path.value);
    if rows.Err? {
      return Err(rows.error);
    }
    var scan := ReadLoop(rows.value, StartScan(Table({}, map[])), (s, row) => DistanceRow(p, instanceIds, s, row));
    if scan.Err? {
      return Err(scan.error);
    }
    r := Ok(scan.value.tables);
  }

  /** Entries only for ids of the experiment, each mirrored: a dict of dicts
      that is symmetric. */
  ghost predicate MirroredOver<T>(t: Table<T>, instanceIds: seq<Id>) {
    Consistent(t) && Symmetric(t) &&
    (forall a :: a in t.rows ==> a in instanceIds) &&
    (forall a, b :: (a, b) in t.entries ==> b in t.rows)
  }

  /** One row keeps the distances dict symmetric and within the experiment's ids. */
  lemma DistanceRowMirrored(p: Parsers, instanceIds: seq<Id>, s: Scan<Table<real>>, row: Row)
    requires MirroredOver(s.tables, instanceIds)
    ensures DistanceRow(p, instanceIds, s, row).Ok? ==> MirroredOver(DistanceRow(p, instanceIds, s, row).value.tables, instanceIds)
  {
    var ids := PairIds(row, s.ids);
    if Skips(ids, instanceIds) == Ok(false) {
      var t := AddRows(s.tables, ids.0.cell.value, ids.1.cell.value);
      AddRowsMirrored(s.tables, ids.0.cell.value, ids.1.cell.value, instanceIds);
      if OptionalDistance(p, row).Ok? && OptionalDistance(p, row).value.Some? {
        MirrorLookup(t, ids.0.cell.value, ids.1.cell.value, OptionalDistance(p, row).value.value);
      }
    }
  }

  /** The distances read from a file form a symmetric dict of dicts whose keys
      are all ids of the experiment: rows with an unknown id are skipped and
      every stored value is mirrored. */
  lemma {:induction false} DistanceRowsMirrored(p: Parsers, instanceIds: seq<Id>, rows: seq<Row>)
    ensures DistanceRows(p, instanceIds, rows).Ok? ==> MirroredOver(DistanceRows(p, instanceIds, rows).value.tables, instanceIds)
  {
    if rows != [] {
      var n := |rows| - 1;
      DistanceRowsMirrored(p, instanceIds, rows[..n]);
      var prev := DistanceRows(p, instanceIds, rows[..n]);
      if prev.Ok? {
        DistanceRowMirrored(p, instanceIds, prev.value, rows[n]);
      }
    }
  }

  /** `import_distances_from_file` gives a symmetric dict over the experiment's ids. */
  lemma ImportedDistancesSymmetric(files: Files, p: Parsers, experimentId: Option<string>, distanceId: Option<string>,
                                   instanceIds: seq<Id>)
    ensures ImportedDistances(files, p, experimentId, distanceId, instanceIds).Ok? ==>
      MirroredOver(ImportedDistances(files, p, experimentId, distanceId, instanceIds).value, instanceIds)
  {
    var path := DistancesPath(experimentId, distanceId);
    if path.Ok? && path.value in files {
      DistanceRowsMirrored(p, instanceIds, ReadRows(files[path.value]));
    }
  }

  /** A first row that has neither id column fails on an unassigned name. */
  lemma FirstRowWithoutIds(p: Parsers, instanceIds: seq<Id>, rows: seq<Row>)
    requires rows != [] && "election_id_1" !in rows[0] && "instance_id_1" !in rows[0]
    ensures DistanceRows(p, instanceIds, rows) == Err(NameError)
  {
    var step := (s, row) => DistanceRow(p, instanceIds, s, row);
    var init := StartScan(Table({}, map[]));
    FoldStep(rows, init, step, 0);
    assert rows[..0] == [];
    FoldStaysFailed(rows, init, step, 1);
  }

  /** A later row for the same pair overwrites the earlier value in both
      directions, and a skipped row changes nothing. */
  lemma DistanceRowWrites(p: Parsers, instanceIds: seq<Id>, s: Scan<Table<real>>, row: Row)
    requires DistanceRow(p, instanceIds, s, row).Ok?
    ensures var ids := PairIds(row, s.ids);
      var t := DistanceRow(p, instanceIds, s, row).value.tables;
      if Known(ids.0, instanceIds) && Known(ids.1, instanceIds) && "distance" in row then
        Lookup(t, ids.0.cell.value, ids.1.cell.value) == Some(FloatColumn(p, row, "distance").value) &&
        Lookup(t, ids.1.cell.value, ids.0.cell.value) == Some(FloatColumn(p, row, "distance").value)
      else t.entries == s.tables.entries
  {
    var ids := PairIds(row, s.ids);
    if Known(ids.0, instanceIds) && Known(ids.1, instanceIds) && "distance" in row {
      var t := AddRows(s.tables, ids.0.cell.value, ids.1.cell.value);
      MirrorLookup(t, ids.0.cell.value, ids.1.cell.value, FloatColumn(p, row, "distance").value);
    }
  }

  // ---------------------------------------------------------------------
  // add_distances_to_experiment

  /** The four dicts: distances, times, standard deviations and mappings. */
  datatype Imported = Imported(distances: Table<real>, times: Table<real>, stds: Table<real>, mappings: Table<seq<int>>)

  /** Four empty dicts. */
  function NoneImported(): Imported {
    Imported(Table({}, map[]), Table({}, map[]), Table({}, map[]), Table({}, map[]))
  }

  /** `t[a][b] = float(row[column]); t[b][a] = t[a][b]` inside a bare
      `try/except: pass`: any failure leaves t as it was. */
  function MirrorField(p: Parsers, t: Table<real>, a: Id, b: Id, row: Row, column: string): (r: Table<real>)
    requires a in t.rows && b in t.rows
    ensures FloatColumn(p, row, column).Ok? ==> r == Mirror(t, a, b, FloatColumn(p, row, column).value)
    ensures FloatColumn(p, row, column).Err? ==> r == t
  {
    var x := FloatColumn(p, row, column);
    if x.Ok? then Mirror(t, a, b, x.value) else t
  }

  /** `ast.literal_eval(str(row['mapping']))` when it gives a list of ints. */
  function MappingColumn(p: Parsers, row: Row): Option<seq<int>> {
    if "mapping" in row then p.literal(Show(row["mapping"])) else None
  }

  /** `mappings[a][b] = literal; mappings[b][a] = argsort(mappings[a][b])`
      inside a bare `try/except: pass`. */
  function StoreMapping(t: Table<seq<int>>, a: Id, b: Id, m: Option<seq<int>>): (r: Table<seq<int>>)
    requires a in t.rows && b in t.rows
    ensures r.rows == t.rows
  {
    if m.None? then t else Put(Put(t, a, b, m.value), b, a, Argsort(m.value))
  }

  /** One turn of the loop of `add_distances_to_experiment`, after the ids
      are known: every field is stored on its own. */
  function AddFields(p: Parsers, d: Imported, a: Id, b: Id, row: Row): Imported {
    Imported(MirrorField(p, AddRows(d.distances, a, b), a, b, row, "distance"),
             MirrorField(p, AddRows(d.times, a, b), a, b, row, "time"),
             MirrorField(p, AddRows(d.stds, a, b), a, b, row, "std"),
             StoreMapping(AddRows(d.mappings, a, b), a, b, MappingColumn(p, row)))
  }

  /** One turn of the loop of `add_distances_to_experiment`. */
  function AllFieldsRow(p: Parsers, instanceIds: seq<Id>, s: Scan<Imported>, row: Row): (r: Result<Scan<Imported>>)
  {
    var ids := PairIds(row, s.ids);
    match Skips(ids, instanceIds)
    case Err(e) => Err(e)
    case Ok(skip) =>
      if skip then Ok(Scan(ids, s.tables))
      else Ok(Scan(ids, AddFields(p, s.tables, ids.0.cell.value, ids.1.cell.value, row)))
  }

  /** The rows of a distances file folded into the four dicts. */
  function AllFieldsRows(p: Parsers, instanceIds: seq<Id>, rows: seq<Row>): Result<Scan<Imported>> {
    Fold(rows, StartScan(NoneImported()), (s, row) => AllFieldsRow(p, instanceIds, s, row))
  }

  /** What `add_distances_to_experiment` returns: four empty dicts for a
      missing file; any other error propagates. */
  function AddedDistances(files: Files, p: Parsers, experimentId: Option<string>, distanceId: Option<string>,
                          instanceIds: seq<Id>): (r: Result<Imported>)
    ensures experimentId.None? ==> r == Err(TypeError)
    ensures experimentId.Some? && DistancesPath(experimentId, distanceId).value !in files ==> r == Ok(NoneImported())
  {
    match DistancesPath(experimentId, distanceId)
    case Err(e) => Err(e)
    case Ok(path) =>
      match Open(files, path)
      case Err(_) => Ok(NoneImported())
      case Ok(rows) =>
        match AllFieldsRows(p, instanceIds, rows)
        case Err(e) => Err(e)
        case Ok(s) => Ok(s.tables)
  }

  /** The older copy: `(None, None, None, None)` for a missing file. */
  function AddedDistancesLegacy(files: Files, p: Parsers, experimentId: Option<string>, distanceId: Option<string>,
                                instanceIds: seq<Id>): (r: Result<Option<Imported>>)
    ensures experimentId.None? ==> r == Err(TypeError)
    ensures experimentId.Some? && DistancesPath(experimentId, distanceId).value !in files ==> r == Ok(None)
    ensures experimentId.Some? && DistancesPath(experimentId, distanceId).value in files ==>
      (r.Ok? <==> AddedDistances(files, p, experimentId, distanceId, instanceIds).Ok?) &&
      (r.Ok? ==> r.value == Some(AddedDistances(files, p, experimentId, distanceId, instanceIds).value))
  {
    match DistancesPath(experimentId, distanceId)
    case Err(e) => Err(e)
    case Ok(path) =>
      if path !in files then Ok(None)
      else
        match AddedDistances(files, p, experimentId, distanceId, instanceIds)
        case Err(e) => Err(e)
        case Ok(d) => Ok(Some(d))
  }

  /** `add_distances_to_experiment`. The warning flag it keeps is returned; it
      is never raised, because a row whose first id is unknown was skipped
      before the flag is looked at. */
  method AddDistancesToExperiment(files: Files, p: Parsers, experimentId: Option<string>, distanceId: Option<string>,
                                  instanceIds: seq<Id>) returns (r: Result<Imported>, warn: bool)
    ensures r == AddedDistances(files, p, experimentId, distanceId, instanceIds)
    ensures !warn
  {
    warn := false;
    var path := DistancesPath(experimentId, distanceId);
    if path.Err? {
      return Err(path.error), warn;
    }
    var file := Open(files, path.value);
    if file.Err? {
      return Ok(NoneImported()), warn;
    }
    var rows := file.value;
    var step := (s, row) => AllFieldsRow(p, instanceIds, s, row);
    var scan := StartScan(NoneImported());
    var k := 0;
    while k < |rows|
      invariant 0 <= k <= |rows|
      invariant Fold(rows[..k], StartScan(NoneImported()), step) == Ok(scan)
      invariant !warn
    {
      FoldStep(rows, StartScan(NoneImported()), step, k);
      var ids := PairIds(rows[k], scan.ids);
      var skip := Skips(ids, instanceIds);
      if skip.Err? {
        FoldStaysFailed(rows, StartScan(NoneImported()), step, k + 1);
        return Err(skip.error), warn;
      }
      if skip.value {
        scan := Scan(ids, scan.tables);
      } else {
        var a, b := ids.0.cell.value, ids.1.cell.value;
        scan := Scan(ids, AddFields(p, scan.tables, a, b, rows[k]));
        if a !in instanceIds {
          warn := true;
        }
      }
      k := k + 1;
    }
    assert rows[..k] == rows;
    r := Ok(scan.tables);
  }

  /** The older copy of `add_distances_to_experiment`. */
  method AddDistancesToExperimentLegacy(files: Files, p: Parsers, experimentId: Option<string>, distanceId: Option<string>,
                                        instanceIds: seq<Id>) returns (r: Result<Option<Imported>>)
    ensures r == AddedDistancesLegacy(files, p, experimentId, distanceId, instanceIds)
  {
    var path := DistancesPath(experimentId, distanceId);
    if path.Err? {
      return Err(path.error);
    }
    if path.value !in files {
      return Ok(None);
    }
    var d, _ := AddDistancesToExperiment(files, p, experimentId, distanceId, instanceIds);
    r := if d.Err? then Err(d.error) else Ok(Some(d.value));
  }

  /** Every stored mapping has its reverse entry, and for a pair of distinct
      ids one of the two is the argsort of the other. */
  ghost predicate MappingsPaired(m: Table<seq<int>>) {
    forall a, b :: (a, b) in m.entries ==>
      (b, a) in m.entries &&
      (a != b ==> m.entries[(b, a)] == Argsort(m.entries[(a, b)]) || m.entries[(a, b)] == Argsort(m.entries[(b, a)]))
  }

  /** The invariant of the four dicts: the three numeric ones symmetric over
      the experiment's ids, the mappings paired. */
  ghost predicate ImportedInvariant(d: Imported, instanceIds: seq<Id>) {
    MirroredOver(d.distances, instanceIds) && MirroredOver(d.times, instanceIds) &&
    MirroredOver(d.stds, instanceIds) && MappingsPaired(d.mappings) && Consistent(d.mappings)
  }

  lemma MirrorFieldMirrored(p: Parsers, t: Table<real>, a: Id, b: Id, row: Row, column: string, instanceIds: seq<Id>)
    requires MirroredOver(t, instanceIds) && a in instanceIds && b in instanceIds
    ensures MirroredOver(MirrorField(p, AddRows(t, a, b), a, b, row, column), instanceIds)
  {
    var u := AddRows(t, a, b);
    AddRowsMirrored(t, a, b, instanceIds);
    if FloatColumn(p, row, column).Ok? {
      MirrorLookup(u, a, b, FloatColumn(p, row, column).value);
    }
  }

  lemma StoreMappingPaired(t: Table<seq<int>>, a: Id, b: Id, m: Option<seq<int>>)
    requires MappingsPaired(t) && Consistent(t)
    ensures MappingsPaired(StoreMapping(AddRows(t, a, b), a, b, m)) && Consistent(StoreMapping(AddRows(t, a, b), a, b, m))
  {
    var u := AddRows(t, a, b);
    if m.Some? {
      var r := StoreMapping(u, a, b, m);
      assert r.entries == u.entries[(a, b) := m.value][(b, a) := Argsort(m.value)];
      forall x, y | (x, y) in r.entries
        ensures (y, x) in r.entries
        ensures x != y ==> r.entries[(y, x)] == Argsort(r.entries[(x, y)]) || r.entries[(x, y)] == Argsort(r.entries[(y, x)])
      {
      }
    }
  }

  /** One row keeps the invariant of the four dicts. */
  lemma AllFieldsRowInvariant(p: Parsers, instanceIds: seq<Id>, s: Scan<Imported>, row: Row)
    requires ImportedInvariant(s.tables, instanceIds)
    ensures AllFieldsRow(p, instanceIds, s, row).Ok? ==> ImportedInvariant(AllFieldsRow(p, instanceIds, s, row).value.tables, instanceIds)
  {
    var ids := PairIds(row, s.ids);
    if Skips(ids, instanceIds) == Ok(false) {
      var a, b := ids.0.cell.value, ids.1.cell.value;
      MirrorFieldMirrored(p, s.tables.distances, a, b, row, "distance", instanceIds);
      MirrorFieldMirrored(p, s.tables.times, a, b, row, "time", instanceIds);
      MirrorFieldMirrored(p, s.tables.stds, a, b, row, "std", instanceIds);
      StoreMappingPaired(s.tables.mappings, a, b, MappingColumn(p, row));
    }
  }

  lemma {:induction false} AllFieldsRowsInvariant(p: Parsers, instanceIds: seq<Id>, rows: seq<Row>)
    ensures AllFieldsRows(p, instanceIds, rows).Ok? ==> ImportedInvariant(AllFieldsRows(p, instanceIds, rows).value.tables, instanceIds)
  {
    if rows == [] {
      assert ImportedInvariant(NoneImported(), instanceIds);
    } else {
      var n := |rows| - 1;
      AllFieldsRowsInvariant(p, instanceIds, rows[..n]);
      var prev := AllFieldsRows(p, instanceIds, rows[..n]);
      if prev.Ok? {
        AllFieldsRowInvariant(p, instanceIds, prev.value, rows[n]);
      }
    }
  }

  /** What `add_distances_to_experiment` returns has distances, times and
      standard deviations symmetric over the experiment's ids, and a mapping
      in both directions for every stored pair; where both directions hold
      permutations, they are each other's inverse. */
  lemma AddedDistancesInvariant(files: Files, p: Parsers, experimentId: Option<string>, distanceId: Option<string>,
                                instanceIds: seq<Id>)
    requires AddedDistances(files, p, experimentId, distanceId, instanceIds).Ok?
    ensures ImportedInvariant(AddedDistances(files, p, experimentId, distanceId, instanceIds).value, instanceIds)
    ensures var m := AddedDistances(files, p, experimentId, distanceId, instanceIds).value.mappings;
      forall a, b :: (a, b) in m.entries && a != b && IsPermutation(m.entries[(a, b)]) && IsPermutation(m.entries[(b, a)]) ==>
        IsInverse(m.entries[(a, b)], m.entries[(b, a)])
  {
    var path := DistancesPath(experimentId, distanceId).value;
    if path in files {
      AllFieldsRowsInvariant(p, instanceIds, ReadRows(files[path]));
    } else {
      assert ImportedInvariant(NoneImported(), instanceIds);
    }
    var m := AddedDistances(files, p, experimentId, distanceId, instanceIds).value.mappings;
    forall a, b | (a, b) in m.entries && a != b && IsPermutation(m.entries[(a, b)]) && IsPermutation(m.entries[(b, a)])
      ensures IsInverse(m.entries[(a, b)], m.entries[(b, a)])
    {
      var x, y := m.entries[(a, b)], m.entries[(b, a)];
      if y == Argsort(x) {
        ArgsortInvertsPermutation(x);
      } else {
        ArgsortInvertsPermutation(y);
      }
    }
  }

  // ---------------------------------------------------------------------
  // get_values_from_csv_file

  /** Texts read as "no value". */
  const Sentinels: set<string> := {"None", "Blank", "''", "\"\"", ""}

  /** `row.get('instance_id', row.get('election_id'))`. */
  function RowKey(row: Row): Option<string> {
    if "instance_id" in row then row["instance_id"]
    else if "election_id" in row then row["election_id"]
    else None
  }

  /** `min(max(v, lower_limit), upper_limit)`, None standing for an infinite limit. */
  function Clamp(v: real, lower: Option<real>, upper: Option<real>): (r: real)
    ensures upper.Some? ==> r <= upper.value
    ensures lower.Some? && (upper.None? || lower.value <= upper.value) ==> lower.value <= r
    ensures (lower.None? || lower.value <= v) && (upper.None? || v <= upper.value) ==> r == v
    ensures r == v || (lower.Some? && r == lower.value) || (upper.Some? && r == upper.value)
  {
    var low := if lower.Some? && v < lower.value then lower.value else v;
    if upper.Some? && upper.value < low then upper.value else low
  }

  /** The value stored for one row: None for a missing cell, a sentinel text
      or (in the "time" column) zero; otherwise the number clamped into the
      limits. A missing column raises KeyError and an unparsable text
      ValueError. */
  function FeatureValue(p: Parsers, row: Row, columnId: string, lower: Option<real>, upper: Option<real>): (r: Result<Option<real>>)
    ensures columnId !in row ==> r == Err(KeyError)
    ensures columnId in row && (row[columnId].None? || row[columnId].value in Sentinels) ==> r == Ok(None)
    ensures columnId in row && row[columnId].Some? && row[columnId].value !in Sentinels ==>
      (r.Ok? <==> p.toFloat(row[columnId].value).Some?)
    ensures columnId == "time" && columnId in row && row[columnId].Some? && p.toFloat(row[columnId].value) == Some(0.0) ==> r == Ok(None)
    ensures r.Ok? && r.value.Some? ==>
      (columnId in row && row[columnId].Some? && row[columnId].value !in Sentinels &&
       p.toFloat(row[columnId].value).Some? && r.value.value == Clamp(p.toFloat(row[columnId].value).value, lower, upper))
    ensures r.Err? && columnId in row ==> r.error == ValueError
  {
    match Column(row, columnId)
    case Err(e) => Err(e)
    case Ok(cell) =>
      if cell.None? || cell.value in Sentinels then Ok(None)
      else
        match p.toFloat(cell.value)
        case None => Err(ValueError)
        case Some(x) => if columnId == "time" && x == 0.0 then Ok(None) else Ok(Some(Clamp(x, lower, upper)))
  }

  /** One turn of the loop of `get_values_from_csv_file`: `values[key] = value`. */
  function ValueRow(p: Parsers, columnId: string, lower: Option<real>, upper: Option<real>,
                    values: Dict<Option<Id>, Option<real>>, row: Row): (r: Result<Dict<Option<Id>, Option<real>>>)
    ensures r.Ok? <==> FeatureValue(p, row, columnId, lower, upper).Ok?
    ensures r.Ok? ==> Get(r.value, RowKey(row)) == Ok(FeatureValue(p, row, columnId, lower, upper).value)
    ensures r.Ok? ==> forall k :: k != RowKey(row) ==> Get(r.value, k) == Get(values, k)
  {
    match FeatureValue(p, row, columnId, lower, upper)
    case Err(e) => Err(e)
    case Ok(v) =>
      SetGet(values, RowKey(row), v);
      Ok(Set(values, RowKey(row), v))
  }

  /** The path `experiments/<experiment_id>/features/<feature_long_id or feature_id>.csv`. */
  function FeaturePath(experimentId: Option<string>, featureId: Option<string>, featureLongId: Option<string>): (r: Result<seq<string>>)
    ensures r.Err? <==> experimentId.None?
  {
    var name := if featureLongId.None? then featureId else featureLongId;
    var folder := Folder(experimentId, "features");
    if folder.Err? then Err(folder.error) else Ok(folder.value + [Show(name) + ".csv"])
  }

  /** What `get_values_from_csv_file` returns. */
  function ValuesFromCsvFile(files: Files, p: Parsers, experimentId: Option<string>, featureId: Option<string>,
                             featureLongId: Option<string>, lower: Option<real>, upper: Option<real>,
                             columnId: string): (r: Result<Dict<Option<Id>, Option<real>>>)
    ensures experimentId.None? ==> r == Err(TypeError)
    ensures experimentId.Some? && FeaturePath(experimentId, featureId, featureLongId).value !in files ==> r == Err(FileNotFound)
  {
    match FeaturePath(experimentId, featureId, featureLongId)
    case Err(e) => Err(e)
    case Ok(path) =>
      match Open(files, path)
      case Err(e) => Err(e)
      case Ok(rows) => Fold(rows, [], (values, row) => ValueRow(p, columnId, lower, upper, values, row))
  }

  /** `get_values_from_csv_file`. */
  method GetValuesFromCsvFile(files: Files, p: Parsers, experimentId: Option<string>, featureId: Option<string>,
                              featureLongId: Option<string>, lower: Option<real>, upper: Option<real>,
                              columnId: string) returns (r: Result<Dict<Option<Id>, Option<real>>>)
    ensures r == ValuesFromCsvFile(files, p, experimentId, featureId, featureLongId, lower, upper, columnId)
  {
    var path := FeaturePath(experimentId, featureId, featureLongId);
    if path.Err? {
      return Err(path.error);
    }
    var rows := Open(files, path.value);
    if rows.Err? {
      return Err(rows.error);
    }
    r := ReadLoop(rows.value, [], (values, row) => ValueRow(p, columnId, lower, upper, values, row));
  }

  /** Every value held lies within the limits. */
  ghost predicate WithinLimits(values: Dict<Option<Id>, Option<real>>, lower: Option<real>, upper: Option<real>) {
    forall i :: 0 <= i < |values| && values[i].1.Some? ==>
      (upper.Some? ==> values[i].1.value <= upper.value) &&
      (lower.Some? && (upper.None? || lower.value <= upper.value) ==> lower.value <= values[i].1.value)
  }

  lemma {:induction false} ValueRowsWithinLimits(p: Parsers, columnId: string, lower: Option<real>, upper: Option<real>, rows: seq<Row>)
    ensures var r := Fold(rows, [], (values, row) => ValueRow(p, columnId, lower, upper, values, row));
      r.Ok? ==> WithinLimits(r.value, lower, upper) && UniqueKeys(r.value)
  {
    var step := (values, row) => ValueRow(p, columnId, lower, upper, values, row);
    if rows != [] {
      var n := |rows| - 1;
      ValueRowsWithinLimits(p, columnId, lower, upper, rows[..n]);
      var prev := Fold(rows[..n], [], step);
      if prev.Ok? && step(prev.value, rows[n]).Ok? {
        var v := FeatureValue(p, rows[n], columnId, lower, upper).value;
        var next := Set(prev.value, RowKey(rows[n]), v);
        SetItems(prev.value, RowKey(rows[n]), v);
        SetUnique(prev.value, RowKey(rows[n]), v);
        forall i | 0 <= i < |next| && next[i].1.Some?
          ensures (upper.Some? ==> next[i].1.value <= upper.value) &&
                  (lower.Some? && (upper.None? || lower.value <= upper.value) ==> lower.value <= next[i].1.value)
        {
          assert next[i] in next;
          if next[i] != (RowKey(rows[n]), v) {
            var j :| 0 <= j < |prev.value| && prev.value[j] == next[i];
          }
        }
      }
    }
  }

  /** The values read from a feature file hold one entry per id, each None or
      a number within the limits. */
  lemma ValuesWithinLimits(files: Files, p: Parsers, experimentId: Option<string>, featureId: Option<string>,
                           featureLongId: Option<string>, lower: Option<real>, upper: Option<real>, columnId: string)
    requires ValuesFromCsvFile(files, p, experimentId, featureId, featureLongId, lower, upper, columnId).Ok?
    ensures WithinLimits(ValuesFromCsvFile(files, p, experimentId, featureId, featureLongId, lower, upper, columnId).value, lower, upper)
    ensures UniqueKeys(ValuesFromCsvFile(files, p, experimentId, featureId, featureLongId, lower, upper, columnId).value)
  {
    var path := FeaturePath(experimentId, featureId, featureLongId).value;
    ValueRowsWithinLimits(p, columnId, lower, upper, ReadRows(files[path]));
  }

  /** Reading the rows fails only on a missing column or on a cell that is
      not a number. */
  lemma {:induction false} ValueRowsErrors(p: Parsers, columnId: string, lower: Option<real>, upper: Option<real>, rows: seq<Row>)
    ensures var r := Fold(rows, [], (values, row) => ValueRow(p, columnId, lower, upper, values, row));
      r.Err? ==> r.error in {KeyError, ValueError}
  {
    if rows != [] {
      ValueRowsErrors(p, columnId, lower, upper, rows[..|rows| - 1]);
    }
  }

  // ---------------------------------------------------------------------
  // add_coordinates_to_experiment

  /** The coordinate columns, in order. */
  const Axes: seq<string> := ["x", "y", "z"]

  /** The id variable after a row: `instance_id`, else `election_id`, else unchanged. */
  function RowId(row: Row, prev: Binding): Binding {
    if "instance_id" in row then Bound(row["instance_id"])
    else if "election_id" in row then Bound(row["election_id"])
    else prev
  }

  /** The point of a row: `[float(row['x']), ...]` with dim entries for dim
      1, 2 and 3, the first failing column's error, and no point for any
      other dim. */
  function Point(p: Parsers, row: Row, dim: int): (r: Result<Option<seq<real>>>)
    ensures !(1 <= dim <= 3) ==> r == Ok(None)
    ensures 1 <= dim <= 3 ==> (r.Ok? <==> forall k :: 0 <= k < dim ==> FloatColumn(p, row, Axes[k]).Ok?)
    ensures 1 <= dim <= 3 && r.Ok? ==>
      (r.value.Some? && |r.value.value| == dim &&
       forall k :: 0 <= k < dim ==> r.value.value[k] == FloatColumn(p, row, Axes[k]).value)
  {
    if !(1 <= dim <= 3) then Ok(None)
    else
      var xs := MapAll(Axes[..dim], name => FloatColumn(p, row, name));
      if xs.Err? then Err(xs.error) else Ok(Some(xs.value))
  }

  /** The state of the coordinates reader: the id variable, the dict and the warning flag. */
  datatype CoordinateScan = CoordinateScan(id: Binding, coordinates: Dict<Option<Id>, seq<real>>, warn: bool)

  /** One turn of the loop of `add_coordinates_to_experiment`: the point is
      read before its key, then the id is checked against the experiment. */
  function CoordinateRow(p: Parsers, instanceIds: seq<Id>, dim: int, s: CoordinateScan, row: Row): (r: Result<CoordinateScan>)
    ensures r.Ok? ==> r.value.id == RowId(row, s.id) && r.value.id.Bound?
    ensures r.Ok? ==> r.value.warn == (s.warn || !Known(r.value.id, instanceIds))
  {
    var id := RowId(row, s.id);
    match Point(p, row, dim)
    case Err(e) => Err(e)
    case Ok(point) =>
      if id.Unbound? then Err(NameError)
      else
        var coordinates := if point.Some? then Set(s.coordinates, id.cell, point.value) else s.coordinates;
        Ok(CoordinateScan(id, coordinates, s.warn || !Known(id, instanceIds)))
  }

  /** The name of a coordinates file: the given one, or the one an embedding
      export picks by default. */
  function CoordinatesFileName(embeddingId: Option<string>, distanceId: Option<string>, dim: int, fileName: Option<string>): (name: string)
    ensures fileName.None? ==> name == EmbeddingFileName(embeddingId, distanceId, None, dim)
    ensures fileName.Some? ==> name == fileName.value
  {
    if fileName.None? then Show(embeddingId) + "_" + Show(distanceId) + "_" + IntToString(dim) + "d.csv"
    else fileName.value
  }

  /** The rows of a coordinates file folded into the dict. */
  function CoordinateRows(p: Parsers, instanceIds: seq<Id>, dim: int, rows: seq<Row>): Result<CoordinateScan> {
    Fold(rows, CoordinateScan(Unbound, [], false), (s, row) => CoordinateRow(p, instanceIds, dim, s, row))
  }

  /** What `add_coordinates_to_experiment` reads, with its warning flag. */
  function CoordinatesFromFile(files: Files, p: Parsers, experimentId: Option<string>, distanceId: Option<string>,
                               embeddingId: Option<string>, instanceIds: seq<Id>, dim: int, fileName: Option<string>): (r: Result<CoordinateScan>)
    ensures experimentId.None? ==> r == Err(TypeError)
  {
    var folder := Folder(experimentId, "coordinates");
    if folder.Err? then Err(folder.error)
    else
      match Open(files, folder.value + [CoordinatesFileName(embeddingId, distanceId, dim, fileName)])
      case Err(e) => Err(e)
      case Ok(rows) => CoordinateRows(p, instanceIds, dim, rows)
  }

  /** `add_coordinates_to_experiment`: the coordinates and whether it logs
      "Possibly outdated coordinates are imported!". */
  method AddCoordinatesToExperiment(files: Files, p: Parsers, experimentId: Option<string>, distanceId: Option<string>,
                                    embeddingId: Option<string>, instanceIds: seq<Id>, dim: int, fileName: Option<string>)
    returns (r: Result<Dict<Option<Id>, seq<real>>>, warn: bool)
    ensures var spec := CoordinatesFromFile(files, p, experimentId, distanceId, embeddingId, instanceIds, dim, fileName);
      (r.Ok? <==> spec.Ok?) && (r.Err? ==> r.error == spec.error) &&
      (r.Ok? ==> r.value == spec.value.coordinates && warn == spec.value.warn)
  {
    warn := false;
    var folder := Folder(experimentId, "coordinates");
    if folder.Err? {
      return Err(folder.error), warn;
    }
    var rows := Open(files, folder.value + [CoordinatesFileName(embeddingId, distanceId, dim, fileName)]);
    if rows.Err? {
      return Err(rows.error), warn;
    }
    var scan := ReadLoop(rows.value, CoordinateScan(Unbound, [], false), (s, row) => CoordinateRow(p, instanceIds, dim, s, row));
    if scan.Err? {
      return Err(scan.error), warn;
    }
    r, warn := Ok(scan.value.coordinates), scan.value.warn;
  }

  /** The id variable after each row. */
  function IdsAlong(rows: seq<Row>): (ids: seq<Binding>)
    ensures |ids| == |rows|
  {
    if rows == [] then []
    else
      var n := |rows| - 1;
      var front := IdsAlong(rows[..n]);
      front + [RowId(rows[n], if n == 0 then Unbound else front[n - 1])]
  }

  /** The coordinates reader stores a point of dim values under each row's id
      (none for a dim outside 1..3), and warns iff some row's id is not an id
      of the experiment. */
  lemma {:induction false} CoordinateRowsFacts(p: Parsers, instanceIds: seq<Id>, dim: int, rows: seq<Row>)
    requires CoordinateRows(p, instanceIds, dim, rows).Ok?
    ensures var s := CoordinateRows(p, instanceIds, dim, rows).value;
      (s.warn <==> exists k :: 0 <= k < |rows| && !Known(IdsAlong(rows)[k], instanceIds)) &&
      (rows != [] ==> s.id == IdsAlong(rows)[|rows| - 1]) &&
      (forall i :: 0 <= i < |s.coordinates| ==> |s.coordinates[i].1| == dim) &&
      (!(1 <= dim <= 3) ==> s.coordinates == []) &&
      UniqueKeys(s.coordinates)
  {
    var step := (s, row) => CoordinateRow(p, instanceIds, dim, s, row);
    var init := CoordinateScan(Unbound, [], false);
    if rows != [] {
      var n := |rows| - 1;
      FoldPrefix(rows, init, step, n);
      CoordinateRowsFacts(p, instanceIds, dim, rows[..n]);
      var prev := CoordinateRows(p, instanceIds, dim, rows[..n]).value;
      var s := CoordinateRows(p, instanceIds, dim, rows).value;
      var ids := IdsAlong(rows);
      assert IdsAlong(rows[..n]) == ids[..n];
      assert s.id == ids[n];
      var point := Point(p, rows[n], dim).value;
      if point.Some? {
        SetItems(prev.coordinates, s.id.cell, point.value);
        SetUnique(prev.coordinates, s.id.cell, point.value);
        forall i | 0 <= i < |s.coordinates|
          ensures |s.coordinates[i].1| == dim
        {
          assert s.coordinates[i] in s.coordinates;
          if s.coordinates[i] != (s.id.cell, point.value) {
            var j :| 0 <= j < |prev.coordinates| && prev.coordinates[j] == s.coordinates[i];
          }
        }
      }
      if s.warn {
        if !Known(ids[n], instanceIds) {
          assert 0 <= n < |rows| && !Known(IdsAlong(rows)[n], instanceIds);
        } else {
          var k :| 0 <= k < n && !Known(IdsAlong(rows[..n])[k], instanceIds);
          assert ids[k] == IdsAlong(rows[..n])[k];
        }
      } else {
        forall k | 0 <= k < |rows|
          ensures Known(ids[k], instanceIds)
        {
          if k < n {
            assert ids[k] == IdsAlong(rows[..n])[k];
          }
        }
      }
    }
  }

  /** What `add_coordinates_to_experiment` reads holds points of dim values,
      one per id, and it warns iff some row's id is not an id of the
      experiment. */
  lemma CoordinatesFromFileFacts(files: Files, p: Parsers, experimentId: Option<string>, distanceId: Option<string>,
                                 embeddingId: Option<string>, instanceIds: seq<Id>, dim: int, fileName: Option<string>)
    requires CoordinatesFromFile(files, p, experimentId, distanceId, embeddingId, instanceIds, dim, fileName).Ok?
    ensures var path := Folder(experimentId, "coordinates").value + [CoordinatesFileName(embeddingId, distanceId, dim, fileName)];
      var rows := ReadRows(files[path]);
      var s := CoordinatesFromFile(files, p, experimentId, distanceId, embeddingId, instanceIds, dim, fileName).value;
      (s.warn <==> exists k :: 0 <= k < |rows| && !Known(IdsAlong(rows)[k], instanceIds)) &&
      (forall i :: 0 <= i < |s.coordinates| ==> |s.coordinates[i].1| == dim) &&
      (!(1 <= dim <= 3) ==> s.coordinates == []) &&
      UniqueKeys(s.coordinates)
  {
    var path := Folder(experimentId, "coordinates").value + [CoordinatesFileName(embeddingId, distanceId, dim, fileName)];
    CoordinateRowsFacts(p, instanceIds, dim, ReadRows(files[path]));
  }
}
