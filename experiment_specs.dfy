/** What the bookkeeping methods of `Experiment` compute, as functions of the
    experiment's state: the families made up from the instances, the grouping
    of coordinates by family, the reflection of one axis, the normalisation of
    one feature by another, the culture lookup and the squared planar distance. */
module ExperimentSpecs {
  import opened Wrappers
  import opened NestedMaps
  import opened Dicts
  import opened CsvRows
  import opened ExperimentExports
  import opened ExperimentImports

  /** The part of an instance the bookkeeping reads. */
  datatype Instance = Instance(cultureId: string)

  /** A family of instances (the fields the bookkeeping reads or sets). */
  datatype Family = Family(cultureId: string, familyId: string, familyLabel: string, instanceIds: seq<Id>,
                           alpha: real, color: Option<string>)

  // ---------------------------------------------------------------------
  // Dict-filling loops

  /** `for i, (key, x) in enumerate(items): d[key] = f(i, key, x)`, starting
      from an empty dict: the first exception ends the loop. */
  function Assign<K(==), X, V>(items: seq<(K, X)>, f: (nat, K, X) -> Result<V>): Result<Dict<K, V>>
    decreases |items|
  {
    if items == [] then Ok([])
    else
      var n := |items| - 1;
      match Assign(items[..n], f)
      case Err(e) => Err(e)
      case Ok(d) =>
        match f(n, items[n].0, items[n].1)
        case Err(e) => Err(e)
        case Ok(v) => Ok(Set(d, items[n].0, v))
  }

  /** One more turn of the loop. */
  lemma AssignStep<K, X, V>(items: seq<(K, X)>, f: (nat, K, X) -> Result<V>, k: nat)
    requires k < |items|
    ensures Assign(items[..k + 1], f) ==
      if Assign(items[..k], f).Err? then Assign(items[..k], f)
      else if f(k, items[k].0, items[k].1).Err? then Err(f(k, items[k].0, items[k].1).error)
      else Ok(Set(Assign(items[..k], f).value, items[k].0, f(k, items[k].0, items[k].1).value))
  {
    assert items[..k + 1][..k] == items[..k];
  }

  /** The loop gets through iff every item's value can be computed, and an
      exception it raises is the first item's that fails. */
  lemma {:induction false} AssignOk<K, X, V>(items: seq<(K, X)>, f: (nat, K, X) -> Result<V>)
    ensures Assign(items, f).Ok? <==> forall k :: 0 <= k < |items| ==> f(k, items[k].0, items[k].1).Ok?
    ensures Assign(items, f).Err? ==> exists k :: (0 <= k < |items| &&
      f(k, items[k].0, items[k].1) == Err(Assign(items, f).error) &&
      forall j :: 0 <= j < k ==> f(j, items[j].0, items[j].1).Ok?)
    decreases |items|
  {
    if items != [] {
      var n := |items| - 1;
      AssignOk(items[..n], f);
      assert forall k :: 0 <= k < n ==> items[..n][k] == items[k];
    }
  }

  /** Once the loop has raised, the later items are never looked at. */
  lemma {:induction false} AssignStaysFailed<K, X, V>(items: seq<(K, X)>, f: (nat, K, X) -> Result<V>, k: nat)
    requires k <= |items| && Assign(items[..k], f).Err?
    ensures Assign(items, f) == Assign(items[..k], f)
    decreases |items| - k
  {
    if k == |items| {
      assert items[..k] == items;
    } else {
      AssignStep(items, f, k);
      AssignStaysFailed(items, f, k + 1);
    }
  }

  /** Over distinct keys the loop keeps the keys in order and stores each
      item's own value. */
  lemma {:induction false} AssignValues<K, X, V>(items: seq<(K, X)>, f: (nat, K, X) -> Result<V>)
    requires UniqueKeys(items) && Assign(items, f).Ok?
    ensures |Assign(items, f).value| == |items|
    ensures forall k :: 0 <= k < |items| ==>
      f(k, items[k].0, items[k].1).Ok? && Assign(items, f).value[k] == (items[k].0, f(k, items[k].0, items[k].1).value)
    decreases |items|
  {
    if items != [] {
      var n := |items| - 1;
      var init := items[..n];
      assert Assign(init, f).Ok?;
      assert UniqueKeys(init) by {
        forall a, b | 0 <= a < b < n ensures init[a].0 != init[b].0 {
          assert init[a] == items[a] && init[b] == items[b];
        }
      }
      AssignValues(init, f);
      var d := Assign(init, f).value;
      assert forall k :: 0 <= k < n ==> d[k].0 == items[k].0 by {
        forall k | 0 <= k < n ensures d[k].0 == items[k].0 {
          assert init[k] == items[k];
        }
      }
      AssignLast(items, f);
      var r := Assign(items, f).value;
      forall k | 0 <= k < |items|
        ensures f(k, items[k].0, items[k].1).Ok? && r[k] == (items[k].0, f(k, items[k].0, items[k].1).value)
      {
        if k < n {
          assert init[k] == items[k] && r[k] == d[k];
        }
      }
    }
  }

  /** The last item is appended after the others, whose keys all differ from it. */
  lemma AssignLast<K, X, V>(items: seq<(K, X)>, f: (nat, K, X) -> Result<V>)
    requires items != [] && UniqueKeys(items) && Assign(items, f).Ok?
    requires var d := Assign(items[..|items| - 1], f);
      d.Ok? && |d.value| == |items| - 1 && forall k :: 0 <= k < |items| - 1 ==> d.value[k].0 == items[k].0
    ensures f(|items| - 1, items[|items| - 1].0, items[|items| - 1].1).Ok?
    ensures Assign(items, f).value ==
      Assign(items[..|items| - 1], f).value + [(items[|items| - 1].0, f(|items| - 1, items[|items| - 1].0, items[|items| - 1].1).value)]
  {
    var n := |items| - 1;
    var d := Assign(items[..n], f).value;
    var key := items[n].0;
    assert key !in Keys(d) by {
      forall k | 0 <= k < n ensures Keys(d)[k] != key {
        assert Keys(d)[k] == items[k].0;
      }
    }
    SetNew(d, key, f(n, key, items[n].1).value);
  }

  // ---------------------------------------------------------------------
  // Families made up from the instances

  /** `COLORS[int(i % len(COLORS))]` of the older copy; the newer copy gives no colour. */
  function ColorAt(colors: Option<seq<string>>, i: nat): (r: Result<Option<string>>)
    ensures colors.None? ==> r == Ok(None)
    ensures colors == Some([]) ==> r == Err(ZeroDivisionError)
    ensures colors.Some? && colors.value != [] ==> r.Ok? && r.value.Some? && r.value.value in colors.value
  {
    match colors
    case None => Ok(None)
    case Some(cs) => if cs == [] then Err(ZeroDivisionError) else Ok(Some(cs[i % |cs|]))
  }

  /** The family made up for the i-th instance: its culture names the family,
      its id labels it. */
  function NewFamily(colors: Option<seq<string>>, i: nat, id: Id, instance: Instance): Result<Family> {
    match ColorAt(colors, i)
    case Err(e) => Err(e)
    case Ok(color) => Ok(Family(instance.cultureId, instance.cultureId, id, [], 1.0, color))
  }

  function NewFamilies(colors: Option<seq<string>>): (nat, Id, Instance) -> Result<Family> {
    (i: nat, id: Id, instance: Instance) => NewFamily(colors, i, id, instance)
  }

  /** The families `compute_coordinates_by_families` makes up when there are none. */
  function InstanceFamilies(instances: Dict<Id, Instance>, colors: Option<seq<string>>): Result<Dict<Id, Family>> {
    Assign(instances, NewFamilies(colors))
  }

  /** One family per instance, keyed and labelled by the instance id and
      named after its culture; with an empty colour list the first instance
      raises ZeroDivisionError. */
  lemma InstanceFamiliesFacts(instances: Dict<Id, Instance>, colors: Option<seq<string>>)
    ensures InstanceFamilies(instances, colors).Ok? <==> instances == [] || colors != Some([])
    ensures colors == Some([]) && instances != [] ==> InstanceFamilies(instances, colors) == Err(ZeroDivisionError)
    ensures UniqueKeys(instances) && InstanceFamilies(instances, colors).Ok? ==>
      var fs := InstanceFamilies(instances, colors).value;
      |fs| == |instances| &&
      forall k :: 0 <= k < |instances| ==>
        fs[k].0 == instances[k].0 && fs[k].1.familyLabel == instances[k].0 &&
        fs[k].1.cultureId == instances[k].1.cultureId && fs[k].1.familyId == instances[k].1.cultureId &&
        fs[k].1.instanceIds == [] && fs[k].1.alpha == 1.0 &&
        (colors.None? ==> fs[k].1.color.None?)
  {
    var f := NewFamilies(colors);
    AssignOk(instances, f);
    if colors == Some([]) && instances != [] {
      assert f(0, instances[0].0, instances[0].1).Err?;
    }
    if UniqueKeys(instances) && InstanceFamilies(instances, colors).Ok? {
      AssignValues(instances, f);
    }
  }

  // ---------------------------------------------------------------------
  // Coordinates grouped by family

  /** `coordinates[id][d]`. */
  function Coordinate(coordinates: map<Id, seq<real>>, id: Id, d: nat): (r: Result<real>)
    ensures r.Ok? <==> id in coordinates && d < |coordinates[id]|
    ensures r.Ok? ==> r.value == coordinates[id][d]
    ensures r.Err? ==> r.error == (if id in coordinates then IndexError else KeyError)
  {
    if id !in coordinates then Err(KeyError)
    else if d >= |coordinates[id]| then Err(IndexError)
    else Ok(coordinates[id][d])
  }

  function Axis(coordinates: map<Id, seq<real>>, d: nat): Id -> Result<real> {
    id => Coordinate(coordinates, id, d)
  }

  /** Gathering coordinate d of every id gets through iff every id has a
      point with that coordinate. */
  lemma AxisOk(coordinates: map<Id, seq<real>>, ids: seq<Id>, d: nat)
    ensures MapAll(ids, Axis(coordinates, d)).Ok? <==>
      forall k :: 0 <= k < |ids| ==> ids[k] in coordinates && d < |coordinates[ids[k]]|
  {
    assert forall k :: 0 <= k < |ids| ==> Axis(coordinates, d)(ids[k]) == Coordinate(coordinates, ids[k], d);
  }

  /** How many of the three lists a family's grouping fills. */
  function Filled(dim: int): nat {
    if dim < 0 then 0 else if dim > 3 then 3 else dim
  }

  /** List d of a family with members: coordinate d of every member, in
      order, when d < dim, and empty otherwise. */
  function AxisList(coordinates: map<Id, seq<real>>, ids: seq<Id>, dim: int, d: nat): (r: Result<seq<real>>)
    ensures r.Ok? <==> d >= dim || forall k :: 0 <= k < |ids| ==> ids[k] in coordinates && d < |coordinates[ids[k]]|
    ensures r.Ok? ==> |r.value| == (if d < dim then |ids| else 0)
    ensures r.Ok? ==> forall k :: 0 <= k < |ids| && d < dim ==> r.value[k] == coordinates[ids[k]][d]
  {
    AxisOk(coordinates, ids, d);
    if d < dim then MapAll(ids, Axis(coordinates, d)) else Ok([])
  }

  /** The three lists of a family with members: list d gathers coordinate d
      of every member, in order, when d < dim, and stays empty otherwise. */
  function FamilyLists(coordinates: map<Id, seq<real>>, ids: seq<Id>, dim: int): (r: Result<seq<seq<real>>>)
    ensures r.Ok? <==> dim < 1 || forall k :: 0 <= k < |ids| ==> ids[k] in coordinates && Filled(dim) <= |coordinates[ids[k]]|
    ensures r.Ok? ==> (|r.value| == 3 &&
      forall d :: 0 <= d < 3 ==> |r.value[d]| == (if d < dim then |ids| else 0))
    ensures r.Ok? ==> forall d, k :: 0 <= d < 3 && d < dim && 0 <= k < |ids| ==> r.value[d][k] == coordinates[ids[k]][d]
  {
    var xs := AxisList(coordinates, ids, dim, 0);
    if xs.Err? then Err(xs.error)
    else
      var ys := AxisList(coordinates, ids, dim, 1);
      if ys.Err? then Err(ys.error)
      else
        var zs := AxisList(coordinates, ids, dim, 2);
        if zs.Err? then Err(zs.error)
        else Ok([xs.value, ys.value, zs.value])
  }

  /** The lists of a family made up from one instance: `dim` lists, the
      first three holding that instance's coordinates 0, 1 and 2. Lists 1
      and 2 are appended to whatever `dim` is, so a `dim` below 3 raises
      IndexError. */
  function OwnLists(coordinates: map<Id, seq<real>>, id: Id, dim: int): (r: Result<seq<seq<real>>>)
    ensures r.Ok? <==> dim >= 3 && id in coordinates && |coordinates[id]| >= 3
    ensures dim < 1 ==> r == Err(IndexError)
    ensures r.Ok? ==> (|r.value| == dim &&
      (forall d :: 0 <= d < 3 ==> r.value[d] == [coordinates[id][d]]) &&
      (forall d :: 3 <= d < dim ==> r.value[d] == []))
  {
    if dim < 1 then Err(IndexError)
    else
      match Coordinate(coordinates, id, 0)
      case Err(e) => Err(e)
      case Ok(x) =>
        if dim < 2 then Err(IndexError)
        else
          match Coordinate(coordinates, id, 1)
          case Err(e) => Err(e)
          case Ok(y) =>
            if dim < 3 then Err(IndexError)
            else
              match Coordinate(coordinates, id, 2)
              case Err(e) => Err(e)
              case Ok(z) => Ok([[x], [y], [z]] + seq(dim - 3, _ => []))
  }

  function MemberLists(coordinates: map<Id, seq<real>>, dim: int): (nat, Id, Family) -> Result<seq<seq<real>>> {
    (i: nat, id: Id, family: Family) => FamilyLists(coordinates, family.instanceIds, dim)
  }

  function OwnListsOf(coordinates: map<Id, seq<real>>, dim: int): (nat, Id, Family) -> Result<seq<seq<real>>> {
    (i: nat, id: Id, family: Family) => OwnLists(coordinates, id, dim)
  }

  /** With families present: each family's lists, in family order. */
  lemma GroupedByMembers(families: Dict<Id, Family>, coordinates: map<Id, seq<real>>, dim: int)
    requires UniqueKeys(families)
    ensures var r := Assign(families, MemberLists(coordinates, dim));
      (r.Ok? <==> forall k :: 0 <= k < |families| ==> FamilyLists(coordinates, families[k].1.instanceIds, dim).Ok?) &&
      (r.Ok? ==> (|r.value| == |families| &&
        forall k :: 0 <= k < |families| ==>
          r.value[k] == (families[k].0, FamilyLists(coordinates, families[k].1.instanceIds, dim).value)))
  {
    AssignOk(families, MemberLists(coordinates, dim));
    if Assign(families, MemberLists(coordinates, dim)).Ok? {
      AssignValues(families, MemberLists(coordinates, dim));
    }
  }

  /** Families made up from instances: the grouping raises as soon as there is
      one family and `dim` is below 3, and otherwise gives each family its own
      coordinates. */
  lemma GroupedByOwnCoordinates(families: Dict<Id, Family>, coordinates: map<Id, seq<real>>, dim: int)
    requires UniqueKeys(families)
    ensures var r := Assign(families, OwnListsOf(coordinates, dim));
      (families != [] && dim < 3 ==> r.Err? && r.error in {IndexError, KeyError}) &&
      (r.Ok? ==> (|r.value| == |families| &&
        forall k :: 0 <= k < |families| ==>
          r.value[k].0 == families[k].0 && OwnLists(coordinates, families[k].0, dim).Ok? &&
          r.value[k].1 == OwnLists(coordinates, families[k].0, dim).value))
  {
    var f := OwnListsOf(coordinates, dim);
    AssignOk(families, f);
    if Assign(families, f).Ok? {
      AssignValues(families, f);
    }
    if families != [] && dim < 3 {
      assert f(0, families[0].0, families[0].1).Err?;
      var k :| 0 <= k < |families| && f(k, families[k].0, families[k].1) == Err(Assign(families, f).error);
      assert OwnLists(coordinates, families[k].0, dim) == Err(Assign(families, f).error);
    }
  }

  /** What `compute_coordinates_by_families` leaves behind: the families,
      the new grouping (None when the old one stays because the grouping
      raised) and the exception raised, if any. */
  datatype Grouping = Grouping(families: Option<Dict<Id, Family>>, byFamilies: Option<Dict<Id, seq<seq<real>>>>,
                               raised: Option<Error>)

  function Finish(families: Option<Dict<Id, Family>>, grouped: Result<Dict<Id, seq<seq<real>>>>): Grouping {
    match grouped
    case Err(e) => Grouping(families, None, Some(e))
    case Ok(g) => Grouping(families, Some(g), None)
  }

  /** `compute_coordinates_by_families(dim)`. Without families, one is made up
      per instance first (the field is set to an empty dict before the loop,
      and a colour list that is empty fails on the first instance), and each
      gets its own coordinates; with families, each gets its members'
      coordinates. */
  function Grouped(families: Option<Dict<Id, Family>>, instances: Dict<Id, Instance>,
                   coordinates: map<Id, seq<real>>, dim: int, colors: Option<seq<string>>): (g: Grouping)
    ensures g.raised.None? <==> g.byFamilies.Some?
    ensures families.Some? ==> g.families == families
    ensures families.None? ==> g.families.Some?
  {
    if families.None? then
      match InstanceFamilies(instances, colors)
      case Err(e) => Grouping(Some([]), None, Some(e))
      case Ok(made) => Finish(Some(made), Assign(made, OwnListsOf(coordinates, dim)))
    else Finish(families, Assign(families.value, MemberLists(coordinates, dim)))
  }

  /** Without families and with at least one instance, the default `dim` of 2
      (or any `dim` below 3) makes the grouping raise; the older copy's empty
      colour list raises ZeroDivisionError even earlier. */
  lemma MadeUpFamiliesNeedThreeDimensions(instances: Dict<Id, Instance>, coordinates: map<Id, seq<real>>, dim: int,
                                          colors: Option<seq<string>>)
    requires UniqueKeys(instances) && instances != [] && dim < 3
    ensures Grouped(None, instances, coordinates, dim, colors).raised.Some?
    ensures colors == Some([]) ==> Grouped(None, instances, coordinates, dim, colors) == Grouping(Some([]), None, Some(ZeroDivisionError))
  {
    InstanceFamiliesFacts(instances, colors);
    if InstanceFamilies(instances, colors).Ok? {
      var made := InstanceFamilies(instances, colors).value;
      assert forall i, j :: 0 <= i < j < |made| ==> made[i].0 == instances[i].0 && made[j].0 == instances[j].0;
      GroupedByOwnCoordinates(made, coordinates, dim);
    }
  }

  /** With families present, the families stay and, when no member is
      missing a coordinate below `dim`, each family gets its FamilyLists: three
      lists, list d holding its members' coordinate d in order for d < dim. */
  lemma GroupedWithFamilies(families: Dict<Id, Family>, instances: Dict<Id, Instance>,
                            coordinates: map<Id, seq<real>>, dim: int, colors: Option<seq<string>>)
    requires UniqueKeys(families)
    requires forall k, m :: 0 <= k < |families| && 0 <= m < |families[k].1.instanceIds| ==>
      families[k].1.instanceIds[m] in coordinates && Filled(dim) <= |coordinates[families[k].1.instanceIds[m]]|
    ensures var g := Grouped(Some(families), instances, coordinates, dim, colors);
      g.families == Some(families) && g.raised.None? && |g.byFamilies.value| == |families| &&
      forall k :: 0 <= k < |families| ==>
        FamilyLists(coordinates, families[k].1.instanceIds, dim).Ok? &&
        g.byFamilies.value[k] == (families[k].0, FamilyLists(coordinates, families[k].1.instanceIds, dim).value)
  {
    GroupedByMembers(families, coordinates, dim);
  }

  // ---------------------------------------------------------------------
  // Reflection of one axis

  /** The coordinate `reverse(axis)` negates: 1 for axis 0, 0 for axis 1,
      none for any other axis. */
  function ReversedCoordinate(axis: int): (c: Option<nat>)
    ensures c.Some? <==> axis == 0 || axis == 1
    ensures c.Some? ==> c.value == 1 - axis
  {
    if axis == 0 then Some(1) else if axis == 1 then Some(0) else None
  }

  /** `v[c] = -v[c]`. */
  function Negate(v: seq<real>, c: nat): (w: seq<real>)
    requires c < |v|
    ensures |w| == |v| && w[c] == -v[c]
    ensures forall d :: 0 <= d < |v| && d != c ==> w[d] == v[d]
  {
    v[c := -v[c]]
  }

  /** The loop of `reverse`: coordinate c of every key is negated in turn;
      a missing key or a short point stops it, with the earlier keys already
      negated. */
  function Reflect(m: map<Id, seq<real>>, keys: seq<Id>, c: nat): (map<Id, seq<real>>, Option<Error>)
    decreases |keys|
  {
    if keys == [] then (m, None)
    else if keys[0] !in m then (m, Some(KeyError))
    else if |m[keys[0]]| <= c then (m, Some(IndexError))
    else Reflect(m[keys[0] := Negate(m[keys[0]], c)], keys[1..], c)
  }

  predicate Distinct(keys: seq<Id>) {
    forall i, j :: 0 <= i < j < |keys| ==> keys[i] != keys[j]
  }

  /** Over distinct keys, the loop gets through iff every key has a point
      with coordinate c, and then it negates exactly coordinate c of exactly
      those points. */
  lemma {:induction false} ReflectPoints(m: map<Id, seq<real>>, keys: seq<Id>, c: nat)
    requires Distinct(keys)
    ensures Reflect(m, keys, c).1.None? <==> forall k :: 0 <= k < |keys| ==> keys[k] in m && c < |m[keys[k]]|
    ensures Reflect(m, keys, c).1.Some? ==> Reflect(m, keys, c).1.value in {KeyError, IndexError}
    ensures Reflect(m, keys, c).1.None? ==>
      Reflect(m, keys, c).0.Keys == m.Keys &&
      forall x :: x in m ==> Reflect(m, keys, c).0[x] == if x in keys then Negate(m[x], c) else m[x]
    decreases |keys|
  {
    if keys != [] && keys[0] in m && c < |m[keys[0]]| {
      var x0 := keys[0];
      var m1 := m[x0 := Negate(m[x0], c)];
      assert Distinct(keys[1..]) by {
        assert forall i :: 0 <= i < |keys| - 1 ==> keys[1..][i] == keys[i + 1];
      }
      ReflectPoints(m1, keys[1..], c);
      assert x0 !in keys[1..] by {
        assert forall i :: 0 <= i < |keys| - 1 ==> keys[1..][i] == keys[i + 1];
      }
      assert forall x :: x in keys <==> x == x0 || x in keys[1..] by {
        assert keys == [x0] + keys[1..];
      }
      if forall k :: 0 <= k < |keys| ==> keys[k] in m && c < |m[keys[k]]| {
        forall k | 0 <= k < |keys| - 1
          ensures keys[1..][k] in m1 && c < |m1[keys[1..][k]]|
        {
          assert keys[1..][k] == keys[k + 1];
        }
      } else {
        var k :| 0 <= k < |keys| && !(keys[k] in m && c < |m[keys[k]]|);
        assert keys[k] == keys[1..][k - 1];
      }
    }
  }

  /** `reverse` applied twice restores every point. */
  lemma ReflectTwice(m: map<Id, seq<real>>, keys: seq<Id>, c: nat)
    requires Distinct(keys) && Reflect(m, keys, c).1.None?
    ensures Reflect(Reflect(m, keys, c).0, keys, c) == (m, None)
  {
    var m1 := Reflect(m, keys, c).0;
    ReflectPoints(m, keys, c);
    forall k | 0 <= k < |keys|
      ensures keys[k] in m1 && c < |m1[keys[k]]|
    {
      assert m1[keys[k]] == Negate(m[keys[k]], c);
    }
    ReflectPoints(m1, keys, c);
    var m2 := Reflect(m1, keys, c).0;
    forall x | x in m
      ensures m2[x] == m[x]
    {
      if x in keys {
        NegateTwice(m[x], c);
      }
    }
    assert m2.Keys == m.Keys;
    assert m2 == m;
  }

  lemma NegateTwice(v: seq<real>, c: nat)
    requires c < |v|
    ensures Negate(Negate(v, c), c) == v
  {
    assert forall d :: 0 <= d < |v| ==> Negate(Negate(v, c), c)[d] == v[d];
  }

  // ---------------------------------------------------------------------
  // Normalisation of one feature by another

  /** A value of the normalised feature: None, the text 'Blank', or a ratio. */
  datatype Normalized = NoValue | Blank | Ratio(ratio: real)

  /** `f3[id]` for a numerator value v: None stays None, a zero denominator
      gives 'Blank', a missing one raises KeyError, and dividing by None
      raises TypeError. */
  function NormalizeOne(f2: Dict<Option<Id>, Option<real>>, id: Option<Id>, v: Option<real>): (r: Result<Normalized>)
    ensures v.None? ==> r == Ok(NoValue)
    ensures v.Some? && id !in Keys(f2) ==> r == Err(KeyError)
    ensures v.Some? && Get(f2, id) == Ok(None) ==> r == Err(TypeError)
    ensures r == Ok(Blank) <==> v.Some? && Get(f2, id) == Ok(Some(0.0))
    ensures r.Ok? && r.value.Ratio? ==> (v.Some? && Get(f2, id).Ok? && Get(f2, id).value.Some? &&
      Get(f2, id).value.value != 0.0 && r.value.ratio * Get(f2, id).value.value == v.value)
  {
    if v.None? then Ok(NoValue)
    else
      match Get(f2, id)
      case Err(e) => Err(e)
      case Ok(d) =>
        if d.None? then Err(TypeError)
        else if d.value == 0.0 then Ok(Blank)
        else Ok(Ratio(v.value / d.value))
  }

  function NormalizeBy(f2: Dict<Option<Id>, Option<real>>): (nat, Option<Id>, Option<real>) -> Result<Normalized> {
    (i, id, v) => NormalizeOne(f2, id, v)
  }

  /** The dict `f3` of `normalize_feature_by_feature`. */
  function NormalizedValues(f1: Dict<Option<Id>, Option<real>>, f2: Dict<Option<Id>, Option<real>>): Result<Dict<Option<Id>, Normalized>> {
    Assign(f1, NormalizeBy(f2))
  }

  /** Over a proper dict `f1`, `f3` has the keys of `f1` in order, each with
      its own normalised value. */
  lemma NormalizedPointwise(f1: Dict<Option<Id>, Option<real>>, f2: Dict<Option<Id>, Option<real>>)
    requires UniqueKeys(f1)
    ensures NormalizedValues(f1, f2).Ok? <==> forall k :: 0 <= k < |f1| ==> NormalizeOne(f2, f1[k].0, f1[k].1).Ok?
    ensures NormalizedValues(f1, f2).Ok? ==>
      |NormalizedValues(f1, f2).value| == |f1| &&
      forall k :: 0 <= k < |f1| ==>
        NormalizedValues(f1, f2).value[k] == (f1[k].0, NormalizeOne(f2, f1[k].0, f1[k].1).value)
  {
    AssignOk(f1, NormalizeBy(f2));
    if NormalizedValues(f1, f2).Ok? {
      AssignValues(f1, NormalizeBy(f2));
    }
  }

  /** `export_normalized_feature_to_file` handed the flat dict `f3`: the
      experiment id goes into the path first, then the key 'instance_id' is
      looked up, and iterating its value (None, a number, or the text 'Blank'
      whose letters then index into the values) raises TypeError. */
  function FlatNormalizedExport(experimentId: Option<string>, f3: Dict<Option<Id>, Normalized>): (r: Result<CsvFile>)
    ensures r.Err?
    ensures experimentId.None? ==> r.error == TypeError
    ensures r.error == KeyError <==> experimentId.Some? && Some("instance_id") !in Keys(f3)
  {
    var folder := Folder(experimentId, "features");
    if folder.Err? then Err(folder.error)
    else
      match Get(f3, Some("instance_id"))
      case Err(e) => Err(e)
      case Ok(_) => Err(TypeError)
  }

  /** `normalize_feature_by_feature`: both features are read, `f3` is filled,
      and the flat `f3` is handed to the exporter, so the call never writes a
      file. */
  function NormalizeOutcome(files: Files, p: Parsers, experimentId: Option<string>, nom: Option<string>,
                            denom: Option<string>, columnId: string): (r: Result<CsvFile>)
    ensures r.Err?
    ensures experimentId.None? ==> r == Err(TypeError)
  {
    match ImportFeature(files, p, ExperimentIdArgument(experimentId), nom, columnId, None)
    case Err(e) => Err(e)
    case Ok(f1) =>
      match ImportFeature(files, p, ExperimentIdArgument(experimentId), denom, columnId, None)
      case Err(e) => Err(e)
      case Ok(f2) =>
        match NormalizedValues(f1, f2)
        case Err(e) => Err(e)
        case Ok(f3) => FlatNormalizedExport(experimentId, f3)
  }

  // ---------------------------------------------------------------------
  // Culture lookup

  /** The first family key whose family has the culture, or None. */
  function FirstWithCulture(families: Dict<Id, Family>, cultureId: string): (r: Option<Id>)
    ensures r.None? <==> forall k :: 0 <= k < |families| ==> families[k].1.cultureId != cultureId
    ensures r.Some? ==> exists k :: (0 <= k < |families| && families[k].0 == r.value &&
      families[k].1.cultureId == cultureId && forall j :: 0 <= j < k ==> families[j].1.cultureId != cultureId)
  {
    if families == [] then None
    else if families[0].1.cultureId == cultureId then Some(families[0].0)
    else
      var r := FirstWithCulture(families[1..], cultureId);
      assert forall k :: 1 <= k < |families| ==> families[k] == families[1..][k - 1];
      if r.Some? then
        var k :| 0 <= k < |families[1..]| && families[1..][k].0 == r.value &&
          families[1..][k].1.cultureId == cultureId && forall j :: 0 <= j < k ==> families[1..][j].1.cultureId != cultureId;
        assert families[k + 1].0 == r.value;
        r
      else r
  }

  // ---------------------------------------------------------------------
  // Squared planar distance

  /** `(coordinates[i][d] - coordinates[j][d]) ** 2`. */
  function SquaredDifference(coordinates: map<Id, seq<real>>, i: Id, j: Id, d: nat): (r: Result<real>)
    ensures r.Ok? <==> i in coordinates && j in coordinates && d < |coordinates[i]| && d < |coordinates[j]|
    ensures r.Ok? ==> r.value == (coordinates[i][d] - coordinates[j][d]) * (coordinates[i][d] - coordinates[j][d])
    ensures r.Ok? ==> r.value >= 0.0
  {
    match Coordinate(coordinates, i, d)
    case Err(e) => Err(e)
    case Ok(x) =>
      match Coordinate(coordinates, j, d)
      case Err(e) => Err(e)
      case Ok(y) => Ok((x - y) * (x - y))
  }

  /** The sum the older `get_distance` takes the square root of. */
  function SquaredDistance(coordinates: map<Id, seq<real>>, i: Id, j: Id): (r: Result<real>)
    ensures r.Ok? <==> i in coordinates && j in coordinates && 2 <= |coordinates[i]| && 2 <= |coordinates[j]|
    ensures r.Ok? ==> r.value >= 0.0
    ensures r.Ok? && i == j ==> r.value == 0.0
  {
    match SquaredDifference(coordinates, i, j, 0)
    case Err(e) => Err(e)
    case Ok(a) =>
      match SquaredDifference(coordinates, i, j, 1)
      case Err(e) => Err(e)
      case Ok(b) => Ok(0.0 + a + b)
  }

  lemma SquareSwap(x: real, y: real)
    ensures (x - y) * (x - y) == (y - x) * (y - x)
  {
    var z := x - y;
    assert y - x == -z;
    assert (-z) * (-z) == z * z;
  }

  /** The squared distance does not depend on the order of the two points. */
  lemma SquaredDistanceSymmetric(coordinates: map<Id, seq<real>>, i: Id, j: Id)
    requires SquaredDistance(coordinates, i, j).Ok?
    ensures SquaredDistance(coordinates, j, i) == SquaredDistance(coordinates, i, j)
  {
    var u, v := coordinates[i], coordinates[j];
    SquareSwap(u[0], v[0]);
    SquareSwap(u[1], v[1]);
    var a := SquaredDifference(coordinates, i, j, 0).value;
    var b := SquaredDifference(coordinates, i, j, 1).value;
    assert a == (u[0] - v[0]) * (u[0] - v[0]) && b == (u[1] - v[1]) * (u[1] - v[1]);
    assert SquaredDifference(coordinates, j, i, 0).value == (v[0] - u[0]) * (v[0] - u[0]);
    assert (v[0] - u[0]) * (v[0] - u[0]) == a;
    assert SquaredDifference(coordinates, j, i, 0) == Ok(a);
    assert SquaredDifference(coordinates, j, i, 1).value == (v[1] - u[1]) * (v[1] - u[1]);
    assert (v[1] - u[1]) * (v[1] - u[1]) == b;
    assert SquaredDifference(coordinates, j, i, 1) == Ok(b);
  }

  // ---------------------------------------------------------------------
  // Importing a feature

  /** What `import_feature` hands to `get_values_from_csv_file` as its first
      argument: the experiment object itself, or the experiment id. */
  datatype FirstArgument = ExperimentObject | ExperimentIdArgument(experimentId: Option<string>)

  /** The path component the argument gives `os.path.join`: only a string
      is accepted, and an object fails just as None does. */
  function PathComponent(a: FirstArgument): Option<string> {
    if a.ExperimentIdArgument? then a.experimentId else None
  }

  /** `feature_id`, or `f"{feature_id}_{rule}"` when a rule is given. */
  function FeatureLongId(featureId: Option<string>, rule: Option<string>): Option<string> {
    if rule.None? then featureId else Some(Show(featureId) + "_" + rule.value)
  }

  /** `import_feature`: the feature's values read with no limits. */
  function ImportFeature(files: Files, p: Parsers, a: FirstArgument, featureId: Option<string>,
                         columnId: string, rule: Option<string>): Result<Dict<Option<Id>, Option<real>>> {
    ValuesFromCsvFile(files, p, PathComponent(a), featureId, FeatureLongId(featureId, rule), None, None, columnId)
  }

  /** As written, the newer `import_feature` passes the experiment object
      where the reader expects the experiment id, and every call raises
      TypeError. */
  lemma ImportFeatureAsWrittenFails(files: Files, p: Parsers, featureId: Option<string>, columnId: string,
                                    rule: Option<string>)
    ensures ImportFeature(files, p, ExperimentObject, featureId, columnId, rule) == Err(TypeError)
  {
  }

  /** Given the experiment id, as intended, the feature file is read: the
      call fails exactly when the file is missing (FileNotFound) or on a
      missing column or a cell that is not a number, never with TypeError,
      and each instance's value appears once. */
  lemma ImportFeatureById(files: Files, p: Parsers, experimentId: string, featureId: Option<string>,
                          columnId: string, rule: Option<string>)
    ensures var r := ImportFeature(files, p, ExperimentIdArgument(Some(experimentId)), featureId, columnId, rule);
      (r.Err? ==> r.error in {FileNotFound, KeyError, ValueError}) &&
      (r == Err(FileNotFound) <==> FeaturePath(Some(experimentId), featureId, FeatureLongId(featureId, rule)).value !in files) &&
      (r.Ok? ==> UniqueKeys(r.value))
  {
    var path := FeaturePath(Some(experimentId), featureId, FeatureLongId(featureId, rule)).value;
    if path in files {
      ValueRowsErrors(p, columnId, None, None, ReadRows(files[path]));
      ValueRowsWithinLimits(p, columnId, None, None, ReadRows(files[path]));
    }
  }

  /** An experiment with a feature file holding only its header: passing the
      id reads an empty dict, passing the object raises. */
  lemma ImportFeatureWithId(files: Files, p: Parsers, experimentId: string, featureId: string)
    requires files == map[["experiments", experimentId, "features", featureId + ".csv"] := [["instance_id", "value"]]]
    ensures ImportFeature(files, p, ExperimentIdArgument(Some(experimentId)), Some(featureId), "value", None) == Ok([])
    ensures ImportFeature(files, p, ExperimentObject, Some(featureId), "value", None) == Err(TypeError)
  {
    var path := ["experiments", experimentId, "features", featureId + ".csv"];
    assert Folder(Some(experimentId), "features") == Ok(["experiments", experimentId, "features"]);
    assert Show(Some(featureId)) == featureId;
    assert ["experiments", experimentId, "features"] + [featureId + ".csv"] == path;
    assert FeaturePath(Some(experimentId), Some(featureId), Some(featureId)) == Ok(path);
    assert ReadRows(files[path]) == [];
  }
}
