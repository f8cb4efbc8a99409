/** Writing a distances file and reading it back: what `export_distances_to_file`
    writes, `import_distances_from_file` reads as a symmetric dict holding every
    written pair whose ids belong to the experiment, with the written value
    when the written dict was symmetric. */
module RoundTrip {
  import opened Wrappers
  import opened NestedMaps
  import opened CsvRows
  import opened ExperimentExports
  import opened ExperimentImports

  /** The row `csv.DictReader` gives for the written line of a pair. */
  function WrittenRow(distances: Table<real>, times: Table<real>, show: real -> string, pair: (Id, Id)): Row
    requires DistanceLine(distances, times, show, pair).Ok?
  {
    MakeRow(DistancesHeader, DistanceLine(distances, times, show, pair).value)
  }

  /** A written row names its pair through `instance_id_1`/`_2` and, when the
      text of a number parses back to that number, carries the distance. */
  lemma WrittenRowReads(p: Parsers, distances: Table<real>, times: Table<real>, show: real -> string,
                        pair: (Id, Id), prev: (Binding, Binding))
    requires forall x :: p.toFloat(show(x)) == Some(x)
    requires DistanceLine(distances, times, show, pair).Ok?
    ensures PairIds(WrittenRow(distances, times, show, pair), prev) == (Bound(Some(pair.0)), Bound(Some(pair.1)))
    ensures OptionalDistance(p, WrittenRow(distances, times, show, pair)) == Ok(Some(Lookup(distances, pair.0, pair.1).value))
  {
    var line := DistanceLine(distances, times, show, pair).value;
    var row := WrittenRow(distances, times, show, pair);
    assert DistinctNames(DistancesHeader);
    MakeRowCell(DistancesHeader, line, 0);
    MakeRowCell(DistancesHeader, line, 1);
    MakeRowCell(DistancesHeader, line, 2);
    assert row.Keys == {"instance_id_1", "instance_id_2", "distance", "time"} by {
      assert row.Keys == set k | 0 <= k < |DistancesHeader| :: DistancesHeader[k];
      assert DistancesHeader[0] == "instance_id_1" && DistancesHeader[1] == "instance_id_2";
      assert DistancesHeader[2] == "distance" && DistancesHeader[3] == "time";
    }
    assert p.toFloat(show(Lookup(distances, pair.0, pair.1).value)) == Some(Lookup(distances, pair.0, pair.1).value);
  }

  /** Every entry read holds the written value of its pair. */
  ghost predicate Agrees(t: Table<real>, distances: Table<real>) {
    forall x, y :: (x, y) in t.entries ==> Lookup(distances, x, y) == Some(t.entries[(x, y)])
  }

  /** Reading one written row: it never fails, keeps every entry, adds its
      pair when both ids are known, and stores the written value. */
  lemma ReadWrittenRow(p: Parsers, distances: Table<real>, times: Table<real>, show: real -> string,
                       instanceIds: seq<Id>, s: Scan<Table<real>>, pair: (Id, Id))
    requires forall x :: p.toFloat(show(x)) == Some(x)
    requires DistanceLine(distances, times, show, pair).Ok?
    ensures DistanceRow(p, instanceIds, s, WrittenRow(distances, times, show, pair)).Ok?
    ensures var t := DistanceRow(p, instanceIds, s, WrittenRow(distances, times, show, pair)).value.tables;
      s.tables.entries.Keys <= t.entries.Keys &&
      (pair.0 in instanceIds && pair.1 in instanceIds ==> (pair.0, pair.1) in t.entries) &&
      (Symmetric(distances) && Agrees(s.tables, distances) ==> Agrees(t, distances))
  {
    WrittenRowReads(p, distances, times, show, pair, s.ids);
    if pair.0 in instanceIds && pair.1 in instanceIds {
      var x := Lookup(distances, pair.0, pair.1).value;
      var u := AddRows(s.tables, pair.0, pair.1);
      var t := DistanceRow(p, instanceIds, s, WrittenRow(distances, times, show, pair)).value.tables;
      assert t == Mirror(u, pair.0, pair.1, x);
      if Symmetric(distances) && Agrees(s.tables, distances) {
        assert Lookup(distances, pair.1, pair.0) == Some(x);
      }
    }
  }

  /** What reading the written rows of a list of pairs gives. */
  lemma {:induction false} ReadWrittenRows(p: Parsers, distances: Table<real>, times: Table<real>, show: real -> string,
                                           ids: seq<(Id, Id)>, instanceIds: seq<Id>, rows: seq<Row>)
    requires forall x :: p.toFloat(show(x)) == Some(x)
    requires |rows| == |ids|
    requires forall j :: 0 <= j < |ids| ==> DistanceLine(distances, times, show, ids[j]).Ok?
    requires forall j :: 0 <= j < |ids| ==> rows[j] == WrittenRow(distances, times, show, ids[j])
    ensures DistanceRows(p, instanceIds, rows).Ok?
    ensures var t := DistanceRows(p, instanceIds, rows).value.tables;
      (forall j :: 0 <= j < |ids| && ids[j].0 in instanceIds && ids[j].1 in instanceIds ==> (ids[j].0, ids[j].1) in t.entries) &&
      (Symmetric(distances) ==> Agrees(t, distances))
  {
    if rows != [] {
      var n := |rows| - 1;
      ReadWrittenRows(p, distances, times, show, ids[..n], instanceIds, rows[..n]);
      var prev := DistanceRows(p, instanceIds, rows[..n]).value;
      ReadWrittenRow(p, distances, times, show, instanceIds, prev, ids[n]);
      var next := DistanceRows(p, instanceIds, rows).value.tables;
      forall j | 0 <= j < n && ids[j].0 in instanceIds && ids[j].1 in instanceIds
        ensures (ids[j].0, ids[j].1) in next.entries
      {
        assert ids[..n][j] == ids[j];
      }
    }
  }

  /** The rows `csv.DictReader` gives for the written lines of a list of pairs. */
  function WrittenRows(distances: Table<real>, times: Table<real>, show: real -> string, ids: seq<(Id, Id)>): (rows: seq<Row>)
    requires forall j :: 0 <= j < |ids| ==> DistanceLine(distances, times, show, ids[j]).Ok?
    ensures |rows| == |ids| && forall j :: 0 <= j < |ids| ==> rows[j] == WrittenRow(distances, times, show, ids[j])
  {
    seq(|ids|, j requires 0 <= j < |ids| => WrittenRow(distances, times, show, ids[j]))
  }

  /** Reading the written lines gives one written row per pair. */
  lemma ReadWrittenLines(distances: Table<real>, times: Table<real>, ids: seq<(Id, Id)>, show: real -> string)
    requires DistanceLines(distances, times, ids, show).Ok?
    ensures forall j :: 0 <= j < |ids| ==> DistanceLine(distances, times, show, ids[j]).Ok?
    ensures ReadRows(DistanceLines(distances, times, ids, show).value) == WrittenRows(distances, times, show, ids)
  {
    var lines := DistanceLines(distances, times, ids, show).value;
    var rows := WrittenRows(distances, times, show, ids);
    if |ids| > 0 {
      var body := lines[1..];
      assert forall k :: 0 <= k < |body| ==> body[k] == lines[k + 1] == DistanceLine(distances, times, show, ids[k]).value;
      assert forall k :: 0 <= k < |body| ==> body[k] != [];
      var read := RowsUnder(lines[0], body);
      assert lines[0] == DistancesHeader;
      forall k | 0 <= k < |ids|
        ensures read[k] == rows[k]
      {
        assert read[k] == MakeRow(DistancesHeader, body[k]);
      }
      assert read == rows;
    }
  }

  /** Reading a written distances file gives one written row per pair. */
  lemma ReadWrittenFile(experimentId: Option<string>, distanceId: Option<string>, distances: Table<real>,
                        times: Table<real>, ids: seq<(Id, Id)>, show: real -> string)
    requires DistancesFile(experimentId, distanceId, distances, times, ids, show).Ok?
    ensures forall j :: 0 <= j < |ids| ==> DistanceLine(distances, times, show, ids[j]).Ok?
    ensures ReadRows(DistancesFile(experimentId, distanceId, distances, times, ids, show).value.lines) ==
            WrittenRows(distances, times, show, ids)
  {
    ReadWrittenLines(distances, times, ids, show);
  }

  /** The export→import round trip of a distances file. */
  lemma ExportThenImport(files: Files, p: Parsers, show: real -> string, experimentId: Option<string>,
                         distanceId: Option<string>, distances: Table<real>, times: Table<real>,
                         ids: seq<(Id, Id)>, instanceIds: seq<Id>)
    requires forall x :: p.toFloat(show(x)) == Some(x)
    requires DistancesFile(experimentId, distanceId, distances, times, ids, show).Ok?
    requires var f := DistancesFile(experimentId, distanceId, distances, times, ids, show).value;
      f.path in files && files[f.path] == f.lines
    ensures ImportedDistances(files, p, experimentId, distanceId, instanceIds).Ok?
    ensures var t := ImportedDistances(files, p, experimentId, distanceId, instanceIds).value;
      MirroredOver(t, instanceIds) &&
      forall j :: 0 <= j < |ids| && ids[j].0 in instanceIds && ids[j].1 in instanceIds ==>
        Lookup(t, ids[j].0, ids[j].1).Some? &&
        (Symmetric(distances) ==> Lookup(t, ids[j].0, ids[j].1) == Lookup(distances, ids[j].0, ids[j].1))
  {
    ReadWrittenFile(experimentId, distanceId, distances, times, ids, show);
    var rows := WrittenRows(distances, times, show, ids);
    ReadWrittenRows(p, distances, times, show, ids, instanceIds, rows);
    ImportedDistancesSymmetric(files, p, experimentId, distanceId, instanceIds);
    var t := ImportedDistances(files, p, experimentId, distanceId, instanceIds).value;
    assert t == DistanceRows(p, instanceIds, rows).value.tables;
  }
}
