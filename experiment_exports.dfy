/** Writing an experiment's features, embeddings and distances to `;`-separated
    files under `experiments/<experiment_id>/<folder>/`. A written file is its
    path below the working directory and its lines; the text Python's `str`
    gives for a number (after `round(x, 5)` for coordinates) is an input
    `show`. Every writer fails with TypeError before opening anything when the
    experiment has no id, as `os.path.join` refuses None. */
module ExperimentExports {
  import opened Wrappers
  import opened NestedMaps
  import opened Dicts
  import opened Text

  /** A written file: path components below the working directory, and lines. */
  datatype CsvFile = CsvFile(path: seq<string>, lines: seq<seq<string>>)

  /** Features whose file is named after the embedding rather than `saveas`. */
  const EmbeddingRelatedFeature: seq<string> := ["monotonicity_triplets", "distortion_from_all"]

  /** `f'{s}'` for a value that may be None. */
  function Show(s: Option<string>): string {
    if s.None? then "None" else s.value
  }

  /** `os.path.join(os.getcwd(), "experiments", experiment_id, folder)`. */
  function Folder(experimentId: Option<string>, folder: string): (r: Result<seq<string>>)
    ensures r.Err? <==> experimentId.None?
    ensures r.Err? ==> r.error == TypeError
    ensures r.Ok? ==> |r.value| == 3 && r.value[1] == experimentId.value && r.value[2] == folder
  {
    if experimentId.None? then Err(TypeError) else Ok(["experiments", experimentId.value, folder])
  }

  /** Applying f to every element in order, as a loop that stops at the first
      exception: the first element's error, or all the results. */
  function MapAll<X, Y>(xs: seq<X>, f: X -> Result<Y>): (r: Result<seq<Y>>)
    ensures r.Ok? <==> forall k :: 0 <= k < |xs| ==> f(xs[k]).Ok?
    ensures r.Ok? ==> |r.value| == |xs| && forall k :: 0 <= k < |xs| ==> r.value[k] == f(xs[k]).value
    ensures r.Err? ==> exists k :: 0 <= k < |xs| && f(xs[k]) == Err(r.error) &&
                                 (forall i :: 0 <= i < k ==> f(xs[i]).Ok?)
    decreases |xs|
  {
    if xs == [] then Ok([])
    else
      var n := |xs| - 1;
      assert forall k :: 0 <= k < n ==> xs[..n][k] == xs[k];
      match MapAll(xs[..n], f)
      case Err(e) => Err(e)
      case Ok(front) =>
        match f(xs[n])
        case Err(e) => Err(e)
        case Ok(y) => Ok(front + [y])
  }

  /** One more step of the loop behind MapAll. */
  lemma MapAllStep<X, Y>(xs: seq<X>, f: X -> Result<Y>, k: nat)
    requires k < |xs|
    ensures MapAll(xs[..k + 1], f) ==
      if MapAll(xs[..k], f).Err? then MapAll(xs[..k], f)
      else if f(xs[k]).Err? then Err(f(xs[k]).error)
      else Ok(MapAll(xs[..k], f).value + [f(xs[k]).value])
  {
    assert xs[..k + 1][..k] == xs[..k];
  }

  /** Once the loop behind MapAll has failed, the rest of the elements do not matter. */
  lemma {:induction false} MapAllStaysFailed<X, Y>(xs: seq<X>, f: X -> Result<Y>, k: nat)
    requires k <= |xs| && MapAll(xs[..k], f).Err?
    ensures MapAll(xs, f) == MapAll(xs[..k], f)
    decreases |xs| - k
  {
    if k == |xs| {
      assert xs[..k] == xs;
    } else {
      MapAllStep(xs, f, k);
      MapAllStaysFailed(xs, f, k + 1);
    }
  }

  // Features

  /** The file name of a feature: after the embedding for embedding-related
      features, after `saveas` otherwise. */
  function FeatureFileName(featureId: string, embeddingId: Option<string>, saveas: Option<string>): string {
    if featureId in EmbeddingRelatedFeature then featureId + "_" + Show(embeddingId) + ".csv"
    else Show(saveas) + ".csv"
  }

  /** `feature_dict[key][instance_id]`, as text. */
  function FeatureCell<V>(featureDict: Dict<string, Dict<Id, V>>, show: V -> string, instanceId: Id, key: string): (r: Result<string>)
    ensures r.Ok? <==> key in Keys(featureDict) && instanceId in Keys(Get(featureDict, key).value)
    ensures r.Ok? ==> r.value == show(Get(Get(featureDict, key).value, instanceId).value)
  {
    match Get(featureDict, key)
    case Err(e) => Err(e)
    case Ok(column) =>
      match Get(column, instanceId)
      case Err(e) => Err(e)
      case Ok(v) => Ok(show(v))
  }

  /** `[instance_id] + [feature_dict[key][instance_id] for key in feature_dict.keys()]`. */
  function FeatureLine<V>(featureDict: Dict<string, Dict<Id, V>>, show: V -> string, instanceId: Id): (r: Result<seq<string>>)
    ensures r.Ok? <==> forall k :: 0 <= k < |featureDict| ==> FeatureCell(featureDict, show, instanceId, featureDict[k].0).Ok?
    ensures r.Ok? ==> |r.value| == |featureDict| + 1 && r.value[0] == instanceId
    ensures r.Ok? ==> forall k :: 0 <= k < |featureDict| ==>
      r.value[k + 1] == FeatureCell(featureDict, show, instanceId, featureDict[k].0).value
  {
    var cells := MapAll(Keys(featureDict), key => FeatureCell(featureDict, show, instanceId, key));
    if cells.Err? then Err(cells.error) else Ok([instanceId] + cells.value)
  }

  /** The lines after the header: one per instance id of the given column. */
  function FeatureLines<V>(featureDict: Dict<string, Dict<Id, V>>, show: V -> string, ids: seq<Id>): (r: Result<seq<seq<string>>>)
    ensures r.Ok? ==> |r.value| == |ids|
    ensures r.Ok? ==> forall t :: 0 <= t < |ids| ==> |r.value[t]| == 1 + |featureDict| && r.value[t][0] == ids[t]
  {
    MapAll(ids, instanceId => FeatureLine(featureDict, show, instanceId))
  }

  /** The file `export_feature_to_file` writes: the header of all feature
      columns, then a line for every instance of the first column. */
  function FeatureFile<V>(experimentId: Option<string>, embeddingId: Option<string>, featureId: string,
                          featureDict: Dict<string, Dict<Id, V>>, saveas: Option<string>, show: V -> string): (r: Result<CsvFile>)
    ensures experimentId.None? ==> r == Err(TypeError)
    ensures experimentId.Some? && featureDict == [] ==> r == Err(IndexError)
    ensures r.Ok? ==> r.value.path == ["experiments", experimentId.value, "features", FeatureFileName(featureId, embeddingId, saveas)]
    ensures r.Ok? ==> |r.value.lines| == 1 + |Get(featureDict, featureDict[0].0).value|
    ensures r.Ok? ==> r.value.lines[0] == ["instance_id"] + Keys(featureDict)
    ensures r.Ok? ==> forall t :: 1 <= t < |r.value.lines| ==>
      |r.value.lines[t]| == 1 + |featureDict| && r.value.lines[t][0] == Get(featureDict, featureDict[0].0).value[t - 1].0
  {
    var folder := Folder(experimentId, "features");
    if folder.Err? then Err(folder.error)
    else if featureDict == [] then Err(IndexError)
    else
      assert Keys(featureDict)[0] == featureDict[0].0;
      var lines := ColumnLines(featureDict, show, Get(featureDict, featureDict[0].0).value);
      if lines.Err? then Err(lines.error)
      else Ok(CsvFile(folder.value + [FeatureFileName(featureId, embeddingId, saveas)], lines.value))
  }

  /** In a dict with unique keys, the cell of column k on line t is column k's
      value for the line's instance. */
  lemma FeatureFileCell<V>(experimentId: Option<string>, embeddingId: Option<string>, featureId: string,
                           featureDict: Dict<string, Dict<Id, V>>, saveas: Option<string>, show: V -> string, t: nat, k: nat)
    requires UniqueKeys(featureDict)
    requires FeatureFile(experimentId, embeddingId, featureId, featureDict, saveas, show).Ok?
    requires 1 <= t < |FeatureFile(experimentId, embeddingId, featureId, featureDict, saveas, show).value.lines|
    requires k < |featureDict|
    ensures featureDict[0].1[t - 1].0 in Keys(featureDict[k].1)
    ensures FeatureFile(experimentId, embeddingId, featureId, featureDict, saveas, show).value.lines[t][k + 1] ==
            show(Get(featureDict[k].1, featureDict[0].1[t - 1].0).value)
  {
    GetUnique(featureDict, 0);
    GetUnique(featureDict, k);
    var iid := Keys(featureDict[0].1)[t - 1];
    var ids := Keys(featureDict[0].1);
    var body := FeatureLines(featureDict, show, ids);
    assert body.Ok?;
    assert body.value[t - 1] == FeatureLine(featureDict, show, iid).value;
    assert FeatureCell(featureDict, show, iid, featureDict[k].0).Ok?;
  }

  /** In a dict with unique keys, looking up the key at position i gives the value there. */
  lemma GetUnique<K, V>(d: Dict<K, V>, i: nat)
    requires UniqueKeys(d) && i < |d|
    ensures Get(d, d[i].0) == Ok(d[i].1)
  {
    if i > 0 {
      assert d[1..][i - 1] == d[i];
      GetUnique(d[1..], i - 1);
    }
  }

  /** `export_feature_to_file`: the header, then the lines in order. */
  method ExportFeatureToFile<V>(experimentId: Option<string>, embeddingId: Option<string>, featureId: string,
                                featureDict: Dict<string, Dict<Id, V>>, saveas: Option<string>, show: V -> string)
    returns (r: Result<CsvFile>)
    ensures r == FeatureFile(experimentId, embeddingId, featureId, featureDict, saveas, show)
  {
    var folder := Folder(experimentId, "features");
    if folder.Err? {
      return Err(folder.error);
    }
    var path := folder.value + [FeatureFileName(featureId, embeddingId, saveas)];
    var header := ["instance_id"] + Keys(featureDict);
    if |Keys(featureDict)| == 0 {
      return Err(IndexError);
    }
    var anyKey := Keys(featureDict)[0];
    var ids := Keys(Get(featureDict, anyKey).value);
    var body := WriteLines(ids, instanceId => FeatureLine(featureDict, show, instanceId));
    if body.Err? {
      return Err(body.error);
    }
    r := Ok(CsvFile(path, [header] + body.value));
  }

  /** The loop of a writer: the lines of the elements in order, stopping at the
      first exception. */
  method WriteLines<X>(xs: seq<X>, line: X -> Result<seq<string>>) returns (r: Result<seq<seq<string>>>)
    ensures r == MapAll(xs, line)
  {
    var lines := [];
    var k := 0;
    while k < |xs|
      invariant 0 <= k <= |xs|
      invariant MapAll(xs[..k], line) == Ok(lines)
    {
      MapAllStep(xs, line, k);
      var next := line(xs[k]);
      if next.Err? {
        MapAllStaysFailed(xs, line, k + 1);
        return Err(next.error);
      }
      lines := lines + [next.value];
      k := k + 1;
    }
    assert xs[..k] == xs;
    r := Ok(lines);
  }

  /** The header of all columns, then a line for every key of `column`. */
  function ColumnLines<V>(featureDict: Dict<string, Dict<Id, V>>, show: V -> string, column: Dict<Id, V>)
    : (r: Result<seq<seq<string>>>)
    ensures r.Ok? ==> |r.value| == 1 + |column| && r.value[0] == ["instance_id"] + Keys(featureDict)
    ensures r.Ok? ==> forall t :: 1 <= t < |r.value| ==> |r.value[t]| == 1 + |featureDict| && r.value[t][0] == column[t - 1].0
  {
    var ids := Keys(column);
    var body := FeatureLines(featureDict, show, ids);
    if body.Err? then Err(body.error)
    else
      var lines := [["instance_id"] + Keys(featureDict)] + body.value;
      assert forall t :: 1 <= t < |lines| ==> lines[t] == body.value[t - 1] && ids[t - 1] == column[t - 1].0;
      Ok(lines)
  }

  /** The file `export_normalized_feature_to_file` writes: the header of all
      columns, then a line for every key of the column "instance_id". */
  function NormalizedFeatureFile<V>(experimentId: Option<string>, featureDict: Dict<string, Dict<Id, V>>,
                                    saveas: Option<string>, show: V -> string): (r: Result<CsvFile>)
    ensures experimentId.None? ==> r == Err(TypeError)
    ensures experimentId.Some? && "instance_id" !in Keys(featureDict) ==> r == Err(KeyError)
    ensures r.Ok? ==> r.value.path == ["experiments", experimentId.value, "features", Show(saveas) + ".csv"]
    ensures r.Ok? ==> |r.value.lines| == 1 + |Get(featureDict, "instance_id").value|
    ensures r.Ok? ==> r.value.lines[0] == ["instance_id"] + Keys(featureDict)
    ensures r.Ok? ==> forall t :: 1 <= t < |r.value.lines| ==>
      |r.value.lines[t]| == 1 + |featureDict| && r.value.lines[t][0] == Get(featureDict, "instance_id").value[t - 1].0
  {
    var folder := Folder(experimentId, "features");
    if folder.Err? then Err(folder.error)
    else
      var column := Get(featureDict, "instance_id");
      if column.Err? then Err(column.error)
      else
        var lines := ColumnLines(featureDict, show, column.value);
        if lines.Err? then Err(lines.error)
        else Ok(CsvFile(folder.value + [Show(saveas) + ".csv"], lines.value))
  }

  /** `export_normalized_feature_to_file`. */
  method ExportNormalizedFeatureToFile<V>(experimentId: Option<string>, featureDict: Dict<string, Dict<Id, V>>,
                                          saveas: Option<string>, show: V -> string)
    returns (r: Result<CsvFile>)
    ensures r == NormalizedFeatureFile(experimentId, featureDict, saveas, show)
  {
    var folder := Folder(experimentId, "features");
    if folder.Err? {
      return Err(folder.error);
    }
    var header := ["instance_id"] + Keys(featureDict);
    var column := Get(featureDict, "instance_id");
    if column.Err? {
      return Err(column.error);
    }
    var body := WriteLines(Keys(column.value), instanceId => FeatureLine(featureDict, show, instanceId));
    if body.Err? {
      return Err(body.error);
    }
    r := Ok(CsvFile(folder.value + [Show(saveas) + ".csv"], [header] + body.value));
  }

  // Embeddings

  /** The file name of an embedding: `<embedding_id>_<distance_id>_<dim>d.csv`
      unless `saveas` is given. */
  function EmbeddingFileName(embeddingId: Option<string>, distanceId: Option<string>, saveas: Option<string>, dim: int): string {
    if saveas.None? then Show(embeddingId) + "_" + Show(distanceId) + "_" + IntToString(dim) + "d.csv"
    else saveas.value + ".csv"
  }

  /** The header line, which only dimensions 1, 2 and 3 have. */
  function EmbeddingHeader(dim: int): (header: seq<seq<string>>)
    ensures |header| == if 1 <= dim <= 3 then 1 else 0
    ensures 1 <= dim <= 3 ==> |header[0]| == dim + 1 && header[0][0] == "instance_id" && header[0][1] == "x"
    ensures dim >= 2 && |header| == 1 ==> header[0][2] == "y"
  {
    if dim == 1 then [["instance_id", "x"]]
    else if dim == 2 then [["instance_id", "x", "y"]]
    else if dim == 3 then [["instance_id", "x", "y", "z"]]
    else []
  }

  /** The line of the ctr-th instance: x and y from the experiment's
      coordinates, and for any dimension other than 1 and 2 a third value
      taken from `my_pos[ctr]`. */
  function EmbeddingLine(coordinates: map<Id, seq<real>>, myPos: seq<seq<real>>, dim: int,
                         show: real -> string, item: (Id, nat)): (r: Result<seq<string>>)
    ensures r.Ok? ==> |r.value| == if dim == 1 then 2 else if dim == 2 then 3 else 4
    ensures r.Ok? ==> item.0 in coordinates && |coordinates[item.0]| >= 1 &&
                      r.value[0] == item.0 && r.value[1] == show(coordinates[item.0][0])
    ensures r.Ok? && dim != 1 ==> |coordinates[item.0]| >= 2 && r.value[2] == show(coordinates[item.0][1])
    ensures r.Ok? && dim != 1 && dim != 2 ==> item.1 < |myPos| && |myPos[item.1]| >= 3 && r.value[3] == show(myPos[item.1][2])
    ensures r.Err? ==> r.error in {KeyError, IndexError}
  {
    var (instanceId, ctr) := item;
    if instanceId !in coordinates then Err(KeyError)
    else if |coordinates[instanceId]| < 1 then Err(IndexError)
    else
      var x := show(coordinates[instanceId][0]);
      if dim == 1 then Ok([instanceId, x])
      else if |coordinates[instanceId]| < 2 then Err(IndexError)
      else
        var y := show(coordinates[instanceId][1]);
        if dim == 2 then Ok([instanceId, x, y])
        else if ctr >= |myPos| || |myPos[ctr]| < 3 then Err(IndexError)
        else Ok([instanceId, x, y, show(myPos[ctr][2])])
  }

  /** The instances with their positions (`ctr`). */
  function Numbered(ids: seq<Id>): (items: seq<(Id, nat)>)
    ensures |items| == |ids| && forall k :: 0 <= k < |ids| ==> items[k] == (ids[k], k)
  {
    seq(|ids|, k requires 0 <= k < |ids| => (ids[k], k))
  }

  /** The file `export_embedding_to_file` writes: the header, then one line per
      instance of the experiment, in order. */
  function EmbeddingFile(experimentId: Option<string>, distanceId: Option<string>, instanceIds: seq<Id>,
                         coordinates: map<Id, seq<real>>, embeddingId: Option<string>, saveas: Option<string>,
                         dim: int, myPos: seq<seq<real>>, show: real -> string): (r: Result<CsvFile>)
    ensures r.Err? <==> (experimentId.None? ||
                         exists k :: 0 <= k < |instanceIds| && EmbeddingLine(coordinates, myPos, dim, show, (instanceIds[k], k)).Err?)
    ensures r.Ok? ==> r.value.path == ["experiments", experimentId.value, "coordinates", EmbeddingFileName(embeddingId, distanceId, saveas, dim)]
    ensures r.Ok? ==> r.value.lines == EmbeddingHeader(dim) + MapAll(Numbered(instanceIds), item => EmbeddingLine(coordinates, myPos, dim, show, item)).value
    ensures r.Ok? ==> |r.value.lines| == |EmbeddingHeader(dim)| + |instanceIds|
  {
    var folder := Folder(experimentId, "coordinates");
    if folder.Err? then Err(folder.error)
    else
      var body := MapAll(Numbered(instanceIds), item => EmbeddingLine(coordinates, myPos, dim, show, item));
      if body.Err? then Err(body.error)
      else Ok(CsvFile(folder.value + [EmbeddingFileName(embeddingId, distanceId, saveas, dim)], EmbeddingHeader(dim) + body.value))
  }

  /** Every written embedding line starts with its instance and that instance's
      first coordinate; in three dimensions the last value comes from `my_pos`
      at the same position, not from the experiment's coordinates. */
  lemma EmbeddingFileLines(experimentId: Option<string>, distanceId: Option<string>, instanceIds: seq<Id>,
                           coordinates: map<Id, seq<real>>, embeddingId: Option<string>, saveas: Option<string>,
                           dim: int, myPos: seq<seq<real>>, show: real -> string, k: nat)
    requires EmbeddingFile(experimentId, distanceId, instanceIds, coordinates, embeddingId, saveas, dim, myPos, show).Ok?
    requires k < |instanceIds|
    ensures var line := EmbeddingFile(experimentId, distanceId, instanceIds, coordinates, embeddingId, saveas, dim, myPos, show).value.lines[|EmbeddingHeader(dim)| + k];
      line[0] == instanceIds[k] && line[1] == show(coordinates[instanceIds[k]][0]) &&
      (dim == 3 ==> line == [instanceIds[k], show(coordinates[instanceIds[k]][0]), show(coordinates[instanceIds[k]][1]), show(myPos[k][2])])
  {
    var f := item => EmbeddingLine(coordinates, myPos, dim, show, item);
    var items := Numbered(instanceIds);
    assert items[k] == (instanceIds[k], k);
  }

  /** `export_embedding_to_file`. */
  method ExportEmbeddingToFile(experimentId: Option<string>, distanceId: Option<string>, instanceIds: seq<Id>,
                               coordinates: map<Id, seq<real>>, embeddingId: Option<string>, saveas: Option<string>,
                               dim: int, myPos: seq<seq<real>>, show: real -> string)
    returns (r: Result<CsvFile>)
    ensures r == EmbeddingFile(experimentId, distanceId, instanceIds, coordinates, embeddingId, saveas, dim, myPos, show)
  {
    var fileName := EmbeddingFileName(embeddingId, distanceId, saveas, dim);
    var folder := Folder(experimentId, "coordinates");
    if folder.Err? {
      return Err(folder.error);
    }
    // The loop over the instances, numbered by its counter `ctr`.
    var body := WriteLines(Numbered(instanceIds), item => EmbeddingLine(coordinates, myPos, dim, show, item));
    if body.Err? {
      return Err(body.error);
    }
    var lines := EmbeddingHeader(dim) + body.value;
    r := Ok(CsvFile(folder.value + [fileName], lines));
  }

  // Distances

  /** The header of every distances file. */
  const DistancesHeader: seq<string> := ["instance_id_1", "instance_id_2", "distance", "time"]

  /** `[id_1, id_2, str(distances[id_1][id_2]), str(times[id_1][id_2])]`. */
  function DistanceLine(distances: Table<real>, times: Table<real>, show: real -> string, pair: (Id, Id)): (r: Result<seq<string>>)
    ensures r.Ok? <==> Lookup(distances, pair.0, pair.1).Some? && Lookup(times, pair.0, pair.1).Some?
    ensures r.Err? ==> r.error == KeyError
    ensures r.Ok? ==> r.value == [pair.0, pair.1, show(Lookup(distances, pair.0, pair.1).value), show(Lookup(times, pair.0, pair.1).value)]
  {
    var (a, b) := pair;
    match Lookup(distances, a, b)
    case None => Err(KeyError)
    case Some(d) =>
      match Lookup(times, a, b)
      case None => Err(KeyError)
      case Some(t) => Ok([a, b, show(d), show(t)])
  }

  /** The header, then one line per pair in order. */
  function DistanceLines(distances: Table<real>, times: Table<real>, ids: seq<(Id, Id)>, show: real -> string): (r: Result<seq<seq<string>>>)
    ensures r.Ok? <==> forall k :: 0 <= k < |ids| ==>
      Lookup(distances, ids[k].0, ids[k].1).Some? && Lookup(times, ids[k].0, ids[k].1).Some?
    ensures r.Err? ==> r.error == KeyError
    ensures r.Ok? ==> |r.value| == |ids| + 1 && r.value[0] == DistancesHeader
    ensures r.Ok? ==> forall k :: 0 <= k < |ids| ==> r.value[k + 1] == DistanceLine(distances, times, show, ids[k]).value
  {
    var body := MapAll(ids, pair => DistanceLine(distances, times, show, pair));
    if body.Err? then Err(body.error) else Ok([DistancesHeader] + body.value)
  }

  /** The file `export_distances_to_file` writes: `<distance_id>.csv`. */
  function DistancesFile(experimentId: Option<string>, distanceId: Option<string>, distances: Table<real>,
                         times: Table<real>, ids: seq<(Id, Id)>, show: real -> string): (r: Result<CsvFile>)
    ensures experimentId.None? ==> r == Err(TypeError)
    ensures experimentId.Some? ==> (r.Ok? <==> DistanceLines(distances, times, ids, show).Ok?)
    ensures r.Ok? ==> r.value == CsvFile(["experiments", experimentId.value, "distances", Show(distanceId) + ".csv"],
                                         DistanceLines(distances, times, ids, show).value)
  {
    var folder := Folder(experimentId, "distances");
    if folder.Err? then Err(folder.error)
    else
      var lines := DistanceLines(distances, times, ids, show);
      if lines.Err? then Err(lines.error)
      else Ok(CsvFile(folder.value + [Show(distanceId) + ".csv"], lines.value))
  }

  /** `export_distances_to_file`. */
  method ExportDistancesToFile(experimentId: Option<string>, distanceId: Option<string>, distances: Table<real>,
                               times: Table<real>, ids: seq<(Id, Id)>, show: real -> string)
    returns (r: Result<CsvFile>)
    ensures r == DistancesFile(experimentId, distanceId, distances, times, ids, show)
  {
    var folder := Folder(experimentId, "distances");
    if folder.Err? {
      return Err(folder.error);
    }
    var path := folder.value + [Show(distanceId) + ".csv"];
    var body := WriteLines(ids, pair => DistanceLine(distances, times, show, pair));
    if body.Err? {
      return Err(body.error);
    }
    r := Ok(CsvFile(path, [DistancesHeader] + body.value));
  }

  /** The file of one worker process: `<distance_id>_p<process_id>.csv`. Its
      cells are `float(distances[..])` and `float(times[..])` formatted, which
      `showFloat` stands for, where the single-process export formats the
      stored value itself. */
  function ProcessDistancesFile(experimentId: Option<string>, distanceId: Option<string>, ids: seq<(Id, Id)>,
                                distances: Table<real>, times: Table<real>, processId: int, showFloat: real -> string): (r: Result<CsvFile>)
    ensures experimentId.None? ==> r == Err(TypeError)
    ensures r.Ok? ==> |r.value.path| == 4 && r.value.path[3] == Show(distanceId) + "_p" + IntToString(processId) + ".csv"
  {
    var fileName := Show(distanceId) + "_p" + IntToString(processId) + ".csv";
    var folder := Folder(experimentId, "distances");
    if folder.Err? then Err(folder.error)
    else
      var lines := DistanceLines(distances, times, ids, showFloat);
      if lines.Err? then Err(lines.error)
      else Ok(CsvFile(folder.value + [fileName], lines.value))
  }

  /** A worker's file holds exactly what the single-process export of the same
      pairs writes when it formats values as the worker does; only the file
      name differs, and different workers of one distance write to different
      files. */
  lemma ProcessFileMatchesSingle(experimentId: Option<string>, distanceId: Option<string>, ids: seq<(Id, Id)>,
                                 distances: Table<real>, times: Table<real>, processId: int, showFloat: real -> string)
    ensures ProcessDistancesFile(experimentId, distanceId, ids, distances, times, processId, showFloat).Ok? <==>
            DistancesFile(experimentId, distanceId, distances, times, ids, showFloat).Ok?
    ensures ProcessDistancesFile(experimentId, distanceId, ids, distances, times, processId, showFloat).Ok? ==>
      ProcessDistancesFile(experimentId, distanceId, ids, distances, times, processId, showFloat).value.lines ==
      DistancesFile(experimentId, distanceId, distances, times, ids, showFloat).value.lines
    ensures forall p :: p != processId && ProcessDistancesFile(experimentId, distanceId, ids, distances, times, processId, showFloat).Ok? ==>
      ProcessDistancesFile(experimentId, distanceId, ids, distances, times, p, showFloat).value.path !=
      ProcessDistancesFile(experimentId, distanceId, ids, distances, times, processId, showFloat).value.path
  {
    forall p | p != processId && ProcessDistancesFile(experimentId, distanceId, ids, distances, times, processId, showFloat).Ok?
      ensures ProcessDistancesFile(experimentId, distanceId, ids, distances, times, p, showFloat).value.path !=
              ProcessDistancesFile(experimentId, distanceId, ids, distances, times, processId, showFloat).value.path
    {
      var prefix := Show(distanceId) + "_p";
      var a := prefix + IntToString(p) + ".csv";
      var b := prefix + IntToString(processId) + ".csv";
      if a == b {
        SuffixCancel(prefix, IntToString(p), IntToString(processId), ".csv");
        IntToStringInjective(p, processId);
      }
      assert ProcessDistancesFile(experimentId, distanceId, ids, distances, times, p, showFloat).value.path[3] == a;
    }
  }

  /** Equal texts with a common prefix and suffix have equal middles. */
  lemma SuffixCancel(prefix: string, x: string, y: string, suffix: string)
    requires prefix + x + suffix == prefix + y + suffix
    ensures x == y
  {
    var s := prefix + x + suffix;
    assert |x| == |y|;
    assert x == s[|prefix|..|prefix| + |x|];
    assert y == s[|prefix|..|prefix| + |y|];
  }

  /** `export_distances_multiple_processes`. */
  method ExportDistancesMultipleProcesses(experimentId: Option<string>, distanceId: Option<string>, ids: seq<(Id, Id)>,
                                          distances: Table<real>, times: Table<real>, processId: int, showFloat: real -> string)
    returns (r: Result<CsvFile>)
    ensures r == ProcessDistancesFile(experimentId, distanceId, ids, distances, times, processId, showFloat)
  {
    var fileName := Show(distanceId) + "_p" + IntToString(processId) + ".csv";
    var folder := Folder(experimentId, "distances");
    if folder.Err? {
      return Err(folder.error);
    }
    var body := WriteLines(ids, pair => DistanceLine(distances, times, showFloat, pair));
    if body.Err? {
      return Err(body.error);
    }
    r := Ok(CsvFile(folder.value + [fileName], [DistancesHeader] + body.value));
  }
}
