/** The `Experiment` object: its instances, families, coordinates and
    distance tables, and the methods that fill or rearrange them. */
module ExperimentModel {
  import opened Wrappers
  import opened NestedMaps
  import opened Dicts
  import opened CsvRows
  import opened Distances
  import opened ExperimentExports
  import opened ExperimentImports
  import opened ExperimentPairs
  import opened ExperimentSpecs

  /** `COLORS` of the older copy: an empty list. */
  const LegacyColors: seq<string> := []

  /** Fresh tables with an empty row per instance. */
  function FreshTables(keys: seq<Id>): (t: Tables)
    ensures forall a :: a in Rows(t) <==> a in keys
    ensures forall a, b :: Lookup(t.distances, a, b).None? && Lookup(t.times, a, b).None? && Lookup(t.matchings, a, b).None?
  {
    Tables(EmptyRows(keys), EmptyRows(keys), EmptyRows(keys))
  }

  /** The tables `compute_distances` ends up with. The single-process path
      evaluates every listed pair; with no experiment id and several
      processes the merge puts None into a path and raises TypeError; with no
      experiment id and no process at all the tables stay empty. */
  function DistancesComputed(keys: seq<Id>, experimentId: Option<string>, numProcesses: int, selfDistances: bool,
                             evals: seq<Evaluation>, clock: seq<real>): (r: Result<Tables>)
    requires Inputs(AllPairs(keys, selfDistances), evals, clock)
    ensures r.Err? <==> experimentId.None? && numProcesses >= 2
    ensures r.Err? ==> r.error == TypeError
    ensures r.Ok? ==> forall a :: a in Rows(r.value) <==> a in keys
    ensures r.Ok? && experimentId.None? && numProcesses <= 0 ==> r.value == FreshTables(keys)
  {
    var ids := AllPairs(keys, selfDistances);
    AllPairsCovered(keys, selfDistances);
    if experimentId.Some? || numProcesses == 1 then Ok(RecordRange(FreshTables(keys), ids, evals, clock, |ids|))
    else if numProcesses >= 1 then Err(TypeError)
    else Ok(FreshTables(keys))
  }

  /** On the single-process path every pair of distinct instances (and every
      instance with itself, with self-distances) gets a distance, and
      distance and time agree in both directions. */
  lemma SingleProcessCoversPairs(keys: seq<Id>, experimentId: Option<string>, numProcesses: int, selfDistances: bool,
                                 evals: seq<Evaluation>, clock: seq<real>, i: nat, j: nat)
    requires Inputs(AllPairs(keys, selfDistances), evals, clock)
    requires experimentId.Some? || numProcesses == 1
    requires i < |keys| && j < |keys| && Listed(i, j, selfDistances)
    ensures var t := DistancesComputed(keys, experimentId, numProcesses, selfDistances, evals, clock).value;
      Lookup(t.distances, keys[i], keys[j]).Some? &&
      Lookup(t.distances, keys[i], keys[j]) == Lookup(t.distances, keys[j], keys[i]) &&
      Lookup(t.times, keys[i], keys[j]) == Lookup(t.times, keys[j], keys[i])
  {
    var ids := AllPairs(keys, selfDistances);
    AllPairsMembers(keys, selfDistances);
    AllPairsCovered(keys, selfDistances);
    assert (keys[i], keys[j]) in ids;
    var k :| 0 <= k < |ids| && ids[k] == (keys[i], keys[j]);
    RecordedSymmetric(FreshTables(keys), ids, evals, clock, k);
  }

  /** What `compute_distances` leaves: the new tables and the file exported
      when `is_exported`, or the exception that stopped it. */
  function DistancesOutcome(keys: seq<Id>, experimentId: Option<string>, distanceId: Option<string>, isExported: bool,
                            numProcesses: int, selfDistances: bool, evals: seq<Evaluation>, clock: seq<real>,
                            show: real -> string): (r: Result<(Tables, Option<CsvFile>)>)
    requires Inputs(AllPairs(keys, selfDistances), evals, clock)
    ensures r.Ok? ==> (r.value.1.Some? <==> isExported)
    ensures r.Ok? ==> DistancesComputed(keys, experimentId, numProcesses, selfDistances, evals, clock) == Ok(r.value.0)
    ensures experimentId.None? && isExported ==> r == Err(TypeError)
  {
    match DistancesComputed(keys, experimentId, numProcesses, selfDistances, evals, clock)
    case Err(e) => Err(e)
    case Ok(t) =>
      if !isExported then Ok((t, None))
      else
        match DistancesFile(experimentId, distanceId, t.distances, t.times, AllPairs(keys, selfDistances), show)
        case Err(e) => Err(e)
        case Ok(file) => Ok((t, Some(file)))
  }

  /** The evaluation step of `compute_distances`, on fresh tables. */
  method ComputeTables(keys: seq<Id>, ids: seq<(Id, Id)>, experimentId: Option<string>, numProcesses: int,
                       selfDistances: bool, evals: seq<Evaluation>, clock: seq<real>) returns (r: Result<Tables>)
    requires ids == AllPairs(keys, selfDistances) && Inputs(ids, evals, clock)
    ensures r == DistancesComputed(keys, experimentId, numProcesses, selfDistances, evals, clock)
  {
    AllPairsCovered(keys, selfDistances);
    if experimentId.Some? || numProcesses == 1 {
      var tables := new PairTables(keys);
      tables.RunSingleProcess(ids, evals, clock);
      r := Ok(tables.State());
    } else if numProcesses >= 1 {
      r := Err(TypeError);
    } else {
      r := Ok(FreshTables(keys));
    }
  }

  class Experiment {
    var experimentId: Option<string>
    var distanceId: Option<string>
    var isExported: bool
    var isImported: bool
    var instances: Dict<Id, Instance>
    var numInstances: Option<int>
    var families: Option<Dict<Id, Family>>
    var coordinates: map<Id, seq<real>>
    var coordinatesByFamilies: Dict<Id, seq<seq<real>>>
    var distances: Table<real>
    var times: Table<real>
    var matchings: Table<seq<int>>
    var features: Dict<Option<string>, Dict<Option<Id>, Option<real>>>

    /** The state the constructor leaves, given what it loaded (the loading
        itself is not part of this model). */
    constructor(experimentId: Option<string>, distanceId: Option<string>, isExported: bool, isImported: bool,
                instances: Dict<Id, Instance>, families: Option<Dict<Id, Family>>, coordinates: map<Id, seq<real>>)
      ensures this.experimentId == experimentId && this.distanceId == distanceId
      ensures this.isExported == isExported && this.isImported == isImported
      ensures this.instances == instances && this.families == families && this.coordinates == coordinates
      ensures numInstances.None? && coordinatesByFamilies == [] && features == []
      ensures distances == EmptyRows([]) && times == EmptyRows([]) && matchings == EmptyRows([])
    {
      this.experimentId := experimentId;
      this.distanceId := distanceId;
      this.isExported := isExported;
      this.isImported := isImported;
      this.instances := instances;
      this.numInstances := None;
      this.families := families;
      this.coordinates := coordinates;
      this.coordinatesByFamilies := [];
      this.distances := EmptyRows([]);
      this.times := EmptyRows([]);
      this.matchings := EmptyRows([]);
      this.features := [];
    }

    /** `import_instances`: a given dict is kept as is; otherwise, for an
        imported experiment with an id, the loaded instances (none when the
        file is missing); otherwise none. */
    method ImportInstances(given: Option<Dict<Id, Instance>>, loaded: Result<Dict<Id, Instance>>)
      returns (raised: Option<Error>)
      modifies this`instances, this`numInstances
      ensures given.Some? ==> instances == given.value && numInstances == old(numInstances) && raised.None?
      ensures given.None? && isImported && experimentId.Some? && loaded.Ok? ==>
        instances == loaded.value && numInstances == Some(|loaded.value|) && raised.None?
      ensures given.None? && isImported && experimentId.Some? && loaded == Err(FileNotFound) ==>
        instances == [] && numInstances == old(numInstances) && raised.None?
      ensures given.None? && isImported && experimentId.Some? && loaded.Err? && loaded.error != FileNotFound ==>
        instances == old(instances) && numInstances == old(numInstances) && raised == Some(loaded.error)
      ensures given.None? && !(isImported && experimentId.Some?) ==>
        instances == [] && numInstances == old(numInstances) && raised.None?
    {
      raised := None;
      if given.Some? {
        instances := given.value;
      } else if isImported && experimentId.Some? {
        match loaded
        case Ok(loadedInstances) =>
          instances := loadedInstances;
          numInstances := Some(|instances|);
        case Err(e) =>
          if e == FileNotFound {
            instances := [];
          } else {
            raised := Some(e);
          }
      } else {
        instances := [];
      }
    }

    /** `compute_distances`: records the distance id, evaluates the listed
        pairs, exports them when `is_exported`, and only then replaces the
        three tables. `evals` and `clock` stand for the evaluator's answers
        and the clock readings, in the order the pairs are listed. */
    method ComputeDistances(distanceId: Option<string>, numProcesses: int, selfDistances: bool,
                            evals: seq<Evaluation>, clock: seq<real>, show: real -> string)
      returns (r: Result<Option<CsvFile>>)
      requires Inputs(AllPairs(Keys(instances), selfDistances), evals, clock)
      modifies this`distanceId, this`distances, this`times, this`matchings
      ensures this.distanceId == distanceId
      ensures var o := DistancesOutcome(Keys(instances), experimentId, distanceId, isExported, numProcesses,
                                        selfDistances, evals, clock, show);
        (o.Ok? ==> r == Ok(o.value.1) && Tables(distances, times, matchings) == o.value.0) &&
        (o.Err? ==> r == Err(o.error) && distances == old(distances) && times == old(times) &&
                    matchings == old(matchings))
    {
      this.distanceId := distanceId;
      var keys := Keys(instances);
      var ids := ListPairs(keys, selfDistances);
      var computed := ComputeTables(keys, ids, experimentId, numProcesses, selfDistances, evals, clock);
      if computed.Err? {
        return Err(computed.error);
      }
      var t := computed.value;
      var file := None;
      if isExported {
        var written := ExportDistancesToFile(experimentId, distanceId, t.distances, t.times, ids, show);
        if written.Err? {
          return Err(written.error);
        }
        file := Some(written.value);
      }
      distances, times, matchings := t.distances, t.times, t.matchings;
      r := Ok(file);
    }

    /** Coordinate d of every id, in order: one loop of the grouping. */
    method GatherAxis(ids: seq<Id>, d: nat) returns (r: Result<seq<real>>)
      ensures r == MapAll(ids, Axis(coordinates, d))
    {
      var xs := [];
      var k := 0;
      while k < |ids|
        invariant 0 <= k <= |ids|
        invariant MapAll(ids[..k], Axis(coordinates, d)) == Ok(xs)
      {
        MapAllStep(ids, Axis(coordinates, d), k);
        var x := Coordinate(coordinates, ids[k], d);
        if x.Err? {
          MapAllStaysFailed(ids, Axis(coordinates, d), k + 1);
          return Err(x.error);
        }
        xs := xs + [x.value];
        k := k + 1;
      }
      assert ids[..k] == ids;
      r := Ok(xs);
    }

    /** The three lists of one family with members. */
    method GatherFamily(ids: seq<Id>, dim: int) returns (r: Result<seq<seq<real>>>)
      ensures r == FamilyLists(coordinates, ids, dim)
    {
      var xs: seq<real>, ys: seq<real>, zs: seq<real> := [], [], [];
      if dim >= 1 {
        var axis := GatherAxis(ids, 0);
        if axis.Err? {
          return Err(axis.error);
        }
        xs := axis.value;
      }
      if dim >= 2 {
        var axis := GatherAxis(ids, 1);
        if axis.Err? {
          return Err(axis.error);
        }
        ys := axis.value;
      }
      if dim >= 3 {
        var axis := GatherAxis(ids, 2);
        if axis.Err? {
          return Err(axis.error);
        }
        zs := axis.value;
      }
      r := Ok([xs, ys, zs]);
    }

    /** The grouping loop over families with members. */
    method GroupMembers(fs: Dict<Id, Family>, dim: int) returns (r: Result<Dict<Id, seq<seq<real>>>>)
      ensures r == Assign(fs, MemberLists(coordinates, dim))
    {
      var grouped := [];
      var k := 0;
      while k < |fs|
        invariant 0 <= k <= |fs|
        invariant Assign(fs[..k], MemberLists(coordinates, dim)) == Ok(grouped)
      {
        AssignStep(fs, MemberLists(coordinates, dim), k);
        var lists := GatherFamily(fs[k].1.instanceIds, dim);
        if lists.Err? {
          AssignStaysFailed(fs, MemberLists(coordinates, dim), k + 1);
          return Err(lists.error);
        }
        grouped := Set(grouped, fs[k].0, lists.value);
        k := k + 1;
      }
      assert fs[..k] == fs;
      r := Ok(grouped);
    }

    /** The grouping loop over families made up from instances. */
    method GroupOwn(fs: Dict<Id, Family>, dim: int) returns (r: Result<Dict<Id, seq<seq<real>>>>)
      ensures r == Assign(fs, OwnListsOf(coordinates, dim))
    {
      var grouped := [];
      var k := 0;
      while k < |fs|
        invariant 0 <= k <= |fs|
        invariant Assign(fs[..k], OwnListsOf(coordinates, dim)) == Ok(grouped)
      {
        AssignStep(fs, OwnListsOf(coordinates, dim), k);
        var lists := OwnLists(coordinates, fs[k].0, dim);
        if lists.Err? {
          AssignStaysFailed(fs, OwnListsOf(coordinates, dim), k + 1);
          return Err(lists.error);
        }
        grouped := Set(grouped, fs[k].0, lists.value);
        k := k + 1;
      }
      assert fs[..k] == fs;
      r := Ok(grouped);
    }

    /** The loop that makes up one family per instance, writing into the
        (already emptied) `families` field. */
    method MakeUpFamilies(colors: Option<seq<string>>) returns (raised: Option<Error>)
      requires families == Some([])
      modifies this`families
      ensures InstanceFamilies(instances, colors).Err? ==>
        families == Some([]) && raised == Some(InstanceFamilies(instances, colors).error)
      ensures InstanceFamilies(instances, colors).Ok? ==>
        families == Some(InstanceFamilies(instances, colors).value) && raised.None?
    {
      var k := 0;
      while k < |instances|
        invariant 0 <= k <= |instances|
        invariant families.Some? && Assign(instances[..k], NewFamilies(colors)) == Ok(families.value)
        invariant k > 0 ==> colors != Some([])
      {
        AssignStep(instances, NewFamilies(colors), k);
        var family := NewFamily(colors, k, instances[k].0, instances[k].1);
        if family.Err? {
          AssignStaysFailed(instances, NewFamilies(colors), k + 1);
          assert instances[..0] == [];
          return Some(family.error);
        }
        families := Some(Set(families.value, instances[k].0, family.value));
        k := k + 1;
      }
      assert instances[..k] == instances;
      raised := None;
    }

    /** `compute_coordinates_by_families(dim)`; `colors` is None for the newer
        copy and `Some(LegacyColors)` for the older one. */
    method ComputeCoordinatesByFamilies(dim: int, colors: Option<seq<string>>) returns (raised: Option<Error>)
      modifies this`families, this`coordinatesByFamilies
      ensures var g := Grouped(old(families), instances, coordinates, dim, colors);
        families == g.families && raised == g.raised &&
        coordinatesByFamilies == (if g.byFamilies.Some? then g.byFamilies.value else old(coordinatesByFamilies))
    {
      var grouped: Result<Dict<Id, seq<seq<real>>>>;
      if families.None? {
        families := Some([]);
        raised := MakeUpFamilies(colors);
        if raised.Some? {
          return;
        }
        grouped := GroupOwn(families.value, dim);
      } else {
        grouped := GroupMembers(families.value, dim);
      }
      if grouped.Err? {
        return Some(grouped.error);
      }
      coordinatesByFamilies := grouped.value;
      raised := None;
    }

    /** `reverse(axis)`: negates one coordinate of every instance's point, then
        regroups the coordinates with the default `dim` of 2. */
    method Reverse(axis: int, colors: Option<seq<string>>) returns (raised: Option<Error>)
      modifies this`coordinates, this`families, this`coordinatesByFamilies
      ensures var c := ReversedCoordinate(axis);
        var reflected := if c.None? then (old(coordinates), None) else Reflect(old(coordinates), Keys(instances), c.value);
        coordinates == reflected.0 &&
        (reflected.1.Some? ==> raised == reflected.1 && families == old(families) &&
                               coordinatesByFamilies == old(coordinatesByFamilies)) &&
        (reflected.1.None? ==>
          var g := Grouped(old(families), instances, coordinates, 2, colors);
          families == g.families && raised == g.raised &&
          coordinatesByFamilies == (if g.byFamilies.Some? then g.byFamilies.value else old(coordinatesByFamilies)))
    {
      var c := ReversedCoordinate(axis);
      if c.Some? {
        var keys := Keys(instances);
        var k := 0;
        while k < |keys|
          invariant 0 <= k <= |keys|
          invariant Reflect(old(coordinates), keys, c.value) == Reflect(coordinates, keys[k..], c.value)
          invariant families == old(families) && coordinatesByFamilies == old(coordinatesByFamilies)
        {
          assert keys[k..][1..] == keys[k + 1..];
          var id := keys[k];
          if id !in coordinates {
            return Some(KeyError);
          }
          if |coordinates[id]| <= c.value {
            return Some(IndexError);
          }
          coordinates := coordinates[id := Negate(coordinates[id], c.value)];
          k := k + 1;
        }
      }
      raised := ComputeCoordinatesByFamilies(2, colors);
    }

    /** `get_feature`, with the experiment id handed to the reader; the
        values are also stored under the feature id. */
    method GetFeature(files: Files, p: Parsers, featureId: Option<string>, columnId: string)
      returns (r: Result<Dict<Option<Id>, Option<real>>>)
      modifies this`features
      ensures r == ImportFeature(files, p, ExperimentIdArgument(experimentId), featureId, columnId, None)
      ensures r.Ok? ==> features == Set(old(features), featureId, r.value)
      ensures r.Err? ==> features == old(features)
    {
      r := GetValuesFromCsvFile(files, p, experimentId, featureId, featureId, None, None, columnId);
      if r.Ok? {
        features := Set(features, featureId, r.value);
      }
    }

    /** `normalize_feature_by_feature`: reads both features, fills `f3` and
        hands it to the exporter. */
    method NormalizeFeatureByFeature(files: Files, p: Parsers, nom: Option<string>, denom: Option<string>,
                                     columnId: string) returns (r: Result<CsvFile>)
      modifies this`features
      ensures r == NormalizeOutcome(files, p, experimentId, nom, denom, columnId)
    {
      var f1 := GetFeature(files, p, nom, columnId);
      if f1.Err? {
        return Err(f1.error);
      }
      var f2 := GetFeature(files, p, denom, columnId);
      if f2.Err? {
        return Err(f2.error);
      }
      var items := f1.value;
      var f3 := [];
      var k := 0;
      while k < |items|
        invariant 0 <= k <= |items|
        invariant Assign(items[..k], NormalizeBy(f2.value)) == Ok(f3)
      {
        AssignStep(items, NormalizeBy(f2.value), k);
        var v := NormalizeOne(f2.value, items[k].0, items[k].1);
        if v.Err? {
          AssignStaysFailed(items, NormalizeBy(f2.value), k + 1);
          return Err(v.error);
        }
        f3 := Set(f3, items[k].0, v.value);
        k := k + 1;
      }
      assert items[..k] == items;
      r := FlatNormalizedExport(experimentId, f3);
    }

    /** `get_instance_id_from_culture_id`. */
    method GetInstanceIdFromCultureId(cultureId: string) returns (r: Result<Option<Id>>)
      ensures families.None? ==> r == Err(TypeError)
      ensures families.Some? ==> r == Ok(FirstWithCulture(families.value, cultureId))
    {
      if families.None? {
        return Err(TypeError);
      }
      var fs := families.value;
      var k := 0;
      while k < |fs|
        invariant 0 <= k <= |fs|
        invariant FirstWithCulture(fs, cultureId) == FirstWithCulture(fs[k..], cultureId)
      {
        assert fs[k..][1..] == fs[k + 1..];
        if fs[k].1.cultureId == cultureId {
          return Ok(Some(fs[k].0));
        }
        k := k + 1;
      }
      r := Ok(None);
    }

    /** The sum of squares the older `get_distance` accumulates before taking
        its square root. */
    method GetSquaredDistance(i: Id, j: Id) returns (r: Result<real>)
      ensures r == SquaredDistance(coordinates, i, j)
    {
      var distance := 0.0;
      var d := 0;
      while d < 2
        invariant 0 <= d <= 2
        invariant d >= 1 ==> SquaredDifference(coordinates, i, j, 0).Ok?
        invariant d == 1 ==> distance == 0.0 + SquaredDifference(coordinates, i, j, 0).value
        invariant d == 2 ==> SquaredDistance(coordinates, i, j) == Ok(distance)
        invariant d == 0 ==> distance == 0.0
      {
        var term := SquaredDifference(coordinates, i, j, d);
        if term.Err? {
          return Err(term.error);
        }
        distance := distance + term.value;
        d := d + 1;
      }
      r := Ok(distance);
    }
  }
}
