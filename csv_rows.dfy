/** CSV files as the persistence code sees them. A file is the list of its lines,
    each a list of texts (the `;`-separated cells; quoting and escaping are left
    to the csv module and not modelled). `csv.DictReader` turns every non-empty
    line after the first into a dict from the header's column names to the
    line's texts, with None for the columns a short line lacks. Parsing texts
    into numbers (`float`) and into lists (`ast.literal_eval`) is an input. */
module CsvRows {
  import opened Wrappers

  /** A dict row of `csv.DictReader`: column name to text, or None when the line
      is shorter than the header. */
  type Row = map<string, Option<string>>

  /** What `float(text)` gives (None: ValueError), and what
      `ast.literal_eval(text)` gives when it is a list of ints (None: anything else). */
  datatype Parsers = Parsers(toFloat: string -> Option<real>, literal: string -> Option<seq<int>>)

  /** `row[name]`: the cell, or KeyError for a column the file does not have. */
  function Column(row: Row, name: string): (r: Result<Option<string>>)
    ensures r.Ok? <==> name in row
    ensures r.Err? ==> r.error == KeyError
  {
    if name in row then Ok(row[name]) else Err(KeyError)
  }

  /** `float(cell)`: TypeError for a missing cell (None), ValueError for a text
      that is not a number. */
  function ToFloat(p: Parsers, cell: Option<string>): (r: Result<real>)
    ensures cell.None? ==> r == Err(TypeError)
    ensures cell.Some? ==> (r.Ok? <==> p.toFloat(cell.value).Some?)
    ensures r.Ok? ==> Some(r.value) == p.toFloat(cell.value)
    ensures r.Err? && cell.Some? ==> r.error == ValueError
  {
    if cell.None? then Err(TypeError)
    else match p.toFloat(cell.value)
      case None => Err(ValueError)
      case Some(x) => Ok(x)
  }

  /** `float(row[name])`. */
  function FloatColumn(p: Parsers, row: Row, name: string): (r: Result<real>)
    ensures r.Ok? <==> name in row && row[name].Some? && p.toFloat(row[name].value).Some?
    ensures r.Ok? ==> p.toFloat(row[name].value) == Some(r.value)
  {
    match Column(row, name)
    case Err(e) => Err(e)
    case Ok(cell) => ToFloat(p, cell)
  }

  /** The dict row for one line under a header: column k holds the line's k-th
      text; a repeated column name keeps its last position. */
  function MakeRow(header: seq<string>, line: seq<string>): (row: Row)
    ensures row.Keys == set k | 0 <= k < |header| :: header[k]
  {
    if header == [] then map[]
    else
      var k := |header| - 1;
      var front := MakeRow(header[..k], line);
      assert (set i | 0 <= i < |header| :: header[i]) == (set i | 0 <= i < k :: header[..k][i]) + {header[k]};
      front[header[k] := if k < |line| then Some(line[k]) else None]
  }

  /** No column name is repeated. */
  predicate DistinctNames(header: seq<string>) {
    forall i, j :: 0 <= i < j < |header| ==> header[i] != header[j]
  }

  /** Under a header without repeats, column header[k] holds the line's k-th text,
      or None when the line is shorter. */
  lemma {:induction false} MakeRowCell(header: seq<string>, line: seq<string>, k: nat)
    requires DistinctNames(header) && k < |header|
    ensures MakeRow(header, line)[header[k]] == if k < |line| then Some(line[k]) else None
  {
    var n := |header| - 1;
    if k < n {
      assert DistinctNames(header[..n]);
      assert header[..n][k] == header[k];
      MakeRowCell(header[..n], line, k);
    }
  }

  /** `csv.DictReader` over a file: the first line is the header and every later
      non-empty line becomes a row. */
  function ReadRows(lines: seq<seq<string>>): (rows: seq<Row>)
    ensures |rows| <= |lines|
  {
    if |lines| <= 1 then [] else RowsUnder(lines[0], lines[1..])
  }

  /** The rows of the given lines under a header; empty lines are skipped. */
  function RowsUnder(header: seq<string>, lines: seq<seq<string>>): (rows: seq<Row>)
    ensures |rows| <= |lines|
    ensures (forall k :: 0 <= k < |lines| ==> lines[k] != []) ==>
      |rows| == |lines| && forall k :: 0 <= k < |lines| ==> rows[k] == MakeRow(header, lines[k])
  {
    if lines == [] then []
    else
      var front := RowsUnder(header, lines[..|lines| - 1]);
      var last := lines[|lines| - 1];
      assert forall k :: 0 <= k < |lines| - 1 ==> lines[..|lines| - 1][k] == lines[k];
      if last == [] then front else front + [MakeRow(header, last)]
  }

  /** A reader's loop over the rows: each row updates the state, and the first
      exception ends the loop. */
  function Fold<S>(rows: seq<Row>, init: S, step: (S, Row) -> Result<S>): (r: Result<S>)
    decreases |rows|
  {
    if rows == [] then Ok(init)
    else
      match Fold(rows[..|rows| - 1], init, step)
      case Err(e) => Err(e)
      case Ok(s) => step(s, rows[|rows| - 1])
  }

  /** One more turn of the loop. */
  lemma FoldStep<S>(rows: seq<Row>, init: S, step: (S, Row) -> Result<S>, k: nat)
    requires k < |rows|
    ensures Fold(rows[..k + 1], init, step) ==
      if Fold(rows[..k], init, step).Err? then Fold(rows[..k], init, step)
      else step(Fold(rows[..k], init, step).value, rows[k])
  {
    assert rows[..k + 1][..k] == rows[..k];
  }

  /** Once the loop has raised, the later rows are never read. */
  lemma {:induction false} FoldStaysFailed<S>(rows: seq<Row>, init: S, step: (S, Row) -> Result<S>, k: nat)
    requires k <= |rows| && Fold(rows[..k], init, step).Err?
    ensures Fold(rows, init, step) == Fold(rows[..k], init, step)
    decreases |rows| - k
  {
    if k == |rows| {
      assert rows[..k] == rows;
    } else {
      FoldStep(rows, init, step, k);
      FoldStaysFailed(rows, init, step, k + 1);
    }
  }

  /** A loop that got through all rows got through every prefix of them. */
  lemma {:induction false} FoldPrefix<S>(rows: seq<Row>, init: S, step: (S, Row) -> Result<S>, k: nat)
    requires k <= |rows| && Fold(rows, init, step).Ok?
    ensures Fold(rows[..k], init, step).Ok?
  {
    if Fold(rows[..k], init, step).Err? {
      FoldStaysFailed(rows, init, step, k);
    }
  }

  /** The loop itself, row by row. */
  method ReadLoop<S>(rows: seq<Row>, init: S, step: (S, Row) -> Result<S>) returns (r: Result<S>)
    ensures r == Fold(rows, init, step)
  {
    var state := init;
    var k := 0;
    while k < |rows|
      invariant 0 <= k <= |rows|
      invariant Fold(rows[..k], init, step) == Ok(state)
    {
      FoldStep(rows, init, step, k);
      var next := step(state, rows[k]);
      if next.Err? {
        FoldStaysFailed(rows, init, step, k + 1);
        return next;
      }
      state := next.value;
      k := k + 1;
    }
    assert rows[..k] == rows;
    r := Ok(state);
  }
}
