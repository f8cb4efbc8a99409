/** Distance-id parsing and the loops that evaluate a list of instance pairs and
    record each result in both directions (src/mapof/core/distances/__init__.py).
    The evaluator (`experiment.get_distance`) and the wall clock are inputs: the
    k-th evaluation answers the k-th listed pair, and the clock readings taken just
    before and just after it are clock[2k] and clock[2k+1]. */
module Distances {
  import opened Wrappers
  import opened Permutations
  import opened NestedMaps
  import opened InnerDistances

  // ---------------------------------------------------------------------
  // extract_distance_id

  /** The first position of c in s. */
  function Find(s: string, c: char): (k: nat)
    requires c in s
    ensures k < |s| && s[k] == c && c !in s[..k]
  {
    if s[0] == c then 0
    else
      var k := 1 + Find(s[1..], c);
      assert s[..k] == [s[0]] + s[1..][..k - 1];
      k
  }

  /** How often c occurs in s. */
  function Count(s: string, c: char): (n: nat)
    ensures n == 0 <==> c !in s
  {
    if |s| == 0 then 0 else (if s[0] == c then 1 else 0) + Count(s[1..], c)
  }

  /** `str.split(sep)`: the pieces between the separators, in order. */
  function Split(s: string, sep: char): (parts: seq<string>)
    ensures |parts| == Count(s, sep) + 1
    ensures forall k :: 0 <= k < |parts| ==> sep !in parts[k]
    decreases |s|
  {
    if sep !in s then [s]
    else
      var k := Find(s, sep);
      CountSplits(s, sep, k);
      [s[..k]] + Split(s[k + 1..], sep)
  }

  lemma {:induction false} CountSplits(s: string, c: char, k: nat)
    requires k < |s| && s[k] == c && c !in s[..k]
    ensures Count(s, c) == 1 + Count(s[k + 1..], c)
  {
    if k > 0 {
      assert s[1..][..k - 1] == s[1..k];
      assert c !in s[1..][..k - 1];
      CountSplits(s[1..], c, k - 1);
      assert s[1..][k..] == s[k + 1..];
    } else {
      assert s[1..] == s[k + 1..];
    }
  }

  /** `sep.join(parts)`. */
  function Join(parts: seq<string>, sep: char): string
    requires |parts| >= 1
  {
    if |parts| == 1 then parts[0] else parts[0] + [sep] + Join(parts[1..], sep)
  }

  /** Splitting and joining on the same separator gives the string back. */
  lemma {:induction false} SplitJoin(s: string, sep: char)
    ensures Join(Split(s, sep), sep) == s
    decreases |s|
  {
    if sep in s {
      var k := Find(s, sep);
      SplitJoin(s[k + 1..], sep);
      assert s == s[..k] + [sep] + s[k + 1..];
    }
  }

  /** `extract_distance_id`: no '-' gives (None, distance_id); exactly one '-'
      gives the inner distance named before it and the main distance after it;
      more than one '-' fails to unpack into two names. */
  function ExtractDistanceId(distanceId: string): (r: Result<(Option<InnerDistance>, string)>)
    ensures '-' !in distanceId ==> r == Ok((None, distanceId))
    ensures r.Err? <==> Count(distanceId, '-') >= 2
    ensures r.Err? ==> r.error == ValueError
    ensures r.Ok? && '-' in distanceId ==>
      var (inner, main) := r.value;
      exists prefix :: '-' !in prefix && '-' !in main &&
        distanceId == prefix + "-" + main && inner == MapStrToFunc(prefix)
  {
    if '-' in distanceId then
      var parts := Split(distanceId, '-');
      if |parts| != 2 then Err(ValueError)
      else
        SplitJoin(distanceId, '-');
        assert Join(parts, '-') == parts[0] + "-" + parts[1];
        Ok((MapStrToFunc(parts[0]), parts[1]))
    else
      Ok((None, distanceId))
  }

  /** The first separator of prefix + [c] + rest, when prefix has none, is at |prefix|. */
  lemma {:induction false} FindAfter(prefix: string, c: char, rest: string)
    requires c !in prefix
    ensures Find(prefix + [c] + rest, c) == |prefix|
  {
    if prefix != [] {
      assert (prefix + [c] + rest)[1..] == prefix[1..] + [c] + rest;
      FindAfter(prefix[1..], c, rest);
    }
  }

  /** A prefix and a main name without '-' are recovered from "prefix-main". */
  lemma ExtractDistanceIdOfJoined(prefix: string, main: string)
    requires '-' !in prefix && '-' !in main
    ensures ExtractDistanceId(prefix + "-" + main) == Ok((MapStrToFunc(prefix), main))
  {
    var s := prefix + "-" + main;
    FindAfter(prefix, '-', main);
    assert s[..|prefix|] == prefix;
    assert s[|prefix| + 1..] == main;
    assert Split(s, '-') == [prefix, main];
  }

  /** "l1-emd" and its kind: an inner-distance name, '-', a main distance. */
  lemma ExtractDistanceIdRegistered(d: InnerDistance, main: string)
    requires '-' !in main
    ensures ExtractDistanceId(NameOf(d) + "-" + main) == Ok((Some(d), main))
  {
    assert '-' !in NameOf(d) by {
      match d
      case L1Distance =>
      case L2Distance =>
      case ChebyshevDistance =>
      case HellingerDistance =>
      case EmdDistance =>
      case EmdInfDistance =>
      case DiscreteDistance =>
      case SingleL1Distance =>
      case HammingDistance =>
    }
    ExtractDistanceIdOfJoined(NameOf(d), main);
    MapStrToFuncRoundTrip(d);
  }

  // ---------------------------------------------------------------------
  // run_single_process / run_multiple_processes

  /** What the evaluator returns for one pair: a distance, or a distance with the
      matching found between the two instances. */
  datatype Evaluation = Scalar(distance: real) | WithMatching(distance: real, matching: seq<int>)

  /** The three tables the loops write into. */
  datatype Tables = Tables(distances: Table<real>, times: Table<real>, matchings: Table<seq<int>>)

  /** The ids that have a row in every table. */
  function Rows(t: Tables): set<Id> {
    t.distances.rows * t.times.rows * t.matchings.rows
  }

  /** Every listed pair has rows for both of its ids. */
  predicate Covers(rows: set<Id>, ids: seq<(Id, Id)>) {
    forall k :: 0 <= k < |ids| ==> ids[k].0 in rows && ids[k].1 in rows
  }

  /** The effect of one loop iteration for the pair (a, b). */
  function Record(t: Tables, a: Id, b: Id, e: Evaluation, elapsed: real): (r: Tables)
    requires a in Rows(t) && b in Rows(t)
    ensures r.distances.rows == t.distances.rows && r.times.rows == t.times.rows
    ensures r.matchings.rows == t.matchings.rows
  {
    var m := if e.WithMatching? then Put(Put(t.matchings, a, b, e.matching), b, a, Argsort(e.matching))
             else t.matchings;
    Tables(Mirror(t.distances, a, b, e.distance), Mirror(t.times, a, b, elapsed), m)
  }

  /** The time recorded for the k-th pair. */
  function Elapsed(clock: seq<real>, k: nat): real
    requires 2 * k + 1 < |clock|
  {
    clock[2 * k + 1] - clock[2 * k]
  }

  /** The inputs are well formed: one evaluation and two clock readings per pair. */
  predicate Inputs(ids: seq<(Id, Id)>, evals: seq<Evaluation>, clock: seq<real>) {
    |evals| == |ids| && |clock| == 2 * |ids|
  }

  /** The tables after the iterations for the first n pairs. */
  function RecordRange(t: Tables, ids: seq<(Id, Id)>, evals: seq<Evaluation>, clock: seq<real>, n: nat): (r: Tables)
    requires Inputs(ids, evals, clock) && n <= |ids| && Covers(Rows(t), ids)
    ensures Rows(r) == Rows(t)
  {
    if n == 0 then t
    else
      var prev := RecordRange(t, ids, evals, clock, n - 1);
      Record(prev, ids[n - 1].0, ids[n - 1].1, evals[n - 1], Elapsed(clock, n - 1))
  }

  /** Pair p is (x, y) or (y, x). */
  predicate Touches(p: (Id, Id), x: Id, y: Id) {
    p == (x, y) || p == (y, x)
  }

  /** The last iteration below n listing the unordered pair {x, y}, or -1. */
  function LastTouch(ids: seq<(Id, Id)>, x: Id, y: Id, n: nat): (j: int)
    requires n <= |ids|
    ensures -1 <= j < n
    ensures j >= 0 ==> Touches(ids[j], x, y)
    ensures forall k :: j < k < n ==> !Touches(ids[k], x, y)
  {
    if n == 0 then -1
    else if Touches(ids[n - 1], x, y) then n - 1
    else LastTouch(ids, x, y, n - 1)
  }

  /** The last iteration below n listing {x, y} whose evaluation returned a
      matching, or -1. */
  function LastMatching(ids: seq<(Id, Id)>, evals: seq<Evaluation>, x: Id, y: Id, n: nat): (j: int)
    requires n <= |ids| == |evals|
    ensures -1 <= j < n
    ensures j >= 0 ==> Touches(ids[j], x, y) && evals[j].WithMatching?
    ensures forall k :: j < k < n ==> !(Touches(ids[k], x, y) && evals[k].WithMatching?)
  {
    if n == 0 then -1
    else if Touches(ids[n - 1], x, y) && evals[n - 1].WithMatching? then n - 1
    else LastMatching(ids, evals, x, y, n - 1)
  }

  lemma {:induction false} LastTouchSymmetric(ids: seq<(Id, Id)>, x: Id, y: Id, n: nat)
    requires n <= |ids|
    ensures LastTouch(ids, x, y, n) == LastTouch(ids, y, x, n)
  {
    if n > 0 {
      LastTouchSymmetric(ids, x, y, n - 1);
    }
  }

  lemma {:induction false} LastMatchingSymmetric(ids: seq<(Id, Id)>, evals: seq<Evaluation>, x: Id, y: Id, n: nat)
    requires n <= |ids| == |evals|
    ensures LastMatching(ids, evals, x, y, n) == LastMatching(ids, evals, y, x, n)
  {
    if n > 0 {
      LastMatchingSymmetric(ids, evals, x, y, n - 1);
    }
  }

  /** After n iterations, the distance and time stored for (x, y) come from the
      last iteration that listed the pair in either order; without one they are
      what the tables held before. */
  lemma {:induction false} LastWins(t: Tables, ids: seq<(Id, Id)>, evals: seq<Evaluation>, clock: seq<real>,
                                    n: nat, x: Id, y: Id)
    requires Inputs(ids, evals, clock) && n <= |ids| && Covers(Rows(t), ids)
    ensures var r := RecordRange(t, ids, evals, clock, n);
      var j := LastTouch(ids, x, y, n);
      Lookup(r.distances, x, y) == (if j >= 0 then Some(evals[j].distance) else Lookup(t.distances, x, y)) &&
      Lookup(r.times, x, y) == (if j >= 0 then Some(Elapsed(clock, j)) else Lookup(t.times, x, y))
  {
    if n > 0 {
      LastWins(t, ids, evals, clock, n - 1, x, y);
    }
  }

  /** After n iterations, the matching stored for (x, y) comes from the last
      iteration listing the pair that returned a matching m: m itself when that
      iteration listed (x, y) with x != y, and argsort(m) otherwise (the reverse
      direction, or the second write to a self-pair); without one the entry is
      what the table held before. */
  lemma {:induction false} MatchingLastWins(t: Tables, ids: seq<(Id, Id)>, evals: seq<Evaluation>,
                                            clock: seq<real>, n: nat, x: Id, y: Id)
    requires Inputs(ids, evals, clock) && n <= |ids| && Covers(Rows(t), ids)
    ensures var r := RecordRange(t, ids, evals, clock, n);
      var j := LastMatching(ids, evals, x, y, n);
      Lookup(r.matchings, x, y) ==
        if j < 0 then Lookup(t.matchings, x, y)
        else if ids[j] == (x, y) && x != y then Some(evals[j].matching)
        else Some(Argsort(evals[j].matching))
  {
    if n > 0 {
      MatchingLastWins(t, ids, evals, clock, n - 1, x, y);
    }
  }

  /** After the loop, every listed pair has a distance, and distance and time are
      the same in both directions. */
  lemma RecordedSymmetric(t: Tables, ids: seq<(Id, Id)>, evals: seq<Evaluation>, clock: seq<real>, k: nat)
    requires Inputs(ids, evals, clock) && Covers(Rows(t), ids) && k < |ids|
    ensures var r := RecordRange(t, ids, evals, clock, |ids|);
      var (a, b) := ids[k];
      Lookup(r.distances, a, b).Some? &&
      Lookup(r.distances, a, b) == Lookup(r.distances, b, a) &&
      Lookup(r.times, a, b) == Lookup(r.times, b, a)
  {
    var (a, b) := ids[k];
    LastWins(t, ids, evals, clock, |ids|, a, b);
    LastWins(t, ids, evals, clock, |ids|, b, a);
    LastTouchSymmetric(ids, a, b, |ids|);
  }

  /** When the last matching stored for a pair a != b is a permutation, the two
      directions hold mutually inverse permutations. */
  lemma RecordedMatchingsInverse(t: Tables, ids: seq<(Id, Id)>, evals: seq<Evaluation>, clock: seq<real>,
                                 j: nat)
    requires Inputs(ids, evals, clock) && Covers(Rows(t), ids) && j < |ids|
    requires ids[j].0 != ids[j].1 && evals[j].WithMatching? && IsPermutation(evals[j].matching)
    requires forall k :: j < k < |ids| ==> !(Touches(ids[k], ids[j].0, ids[j].1) && evals[k].WithMatching?)
    ensures var r := RecordRange(t, ids, evals, clock, |ids|);
      var (a, b) := ids[j];
      Lookup(r.matchings, a, b) == Some(evals[j].matching) &&
      Lookup(r.matchings, b, a).Some? &&
      IsInverse(evals[j].matching, Lookup(r.matchings, b, a).value) &&
      IsInverse(Lookup(r.matchings, b, a).value, evals[j].matching)
  {
    var (a, b) := ids[j];
    MatchingLastWins(t, ids, evals, clock, |ids|, a, b);
    MatchingLastWins(t, ids, evals, clock, |ids|, b, a);
    LastMatchingSymmetric(ids, evals, a, b, |ids|);
    ArgsortInvertsPermutation(evals[j].matching);
  }

  /** The export call of `run_multiple_processes`: the pairs, the two tables and
      the process id handed to `export_distances_multiple_processes`. */
  datatype ExportCall = ExportCall(ids: seq<(Id, Id)>, distances: Table<real>, times: Table<real>, processId: int)

  /** The three dicts shared by the pair loops. */
  class PairTables {
    var distances: Table<real>
    var times: Table<real>
    var matchings: Table<seq<int>>

    function State(): Tables
      reads this
    {
      Tables(distances, times, matchings)
    }

    /** Empty rows for the given instance ids, as `compute_distances` prepares. */
    constructor(instanceIds: seq<Id>)
      ensures distances == EmptyRows(instanceIds) && times == EmptyRows(instanceIds)
      ensures matchings == EmptyRows(instanceIds)
      ensures forall a :: a in Rows(State()) <==> a in instanceIds
    {
      distances := EmptyRows(instanceIds);
      times := EmptyRows(instanceIds);
      matchings := EmptyRows(instanceIds);
    }

    /** One iteration of the pair loop of `run_single_process`: stores the
        evaluation of (a, b) and the time it took in both directions. */
    method RecordPair(a: Id, b: Id, e: Evaluation, startTime: real, endTime: real)
      requires a in Rows(State()) && b in Rows(State())
      modifies this
      ensures State() == Record(old(State()), a, b, e, endTime - startTime)
    {
      if e.WithMatching? {
        matchings := Put(matchings, a, b, e.matching);
        matchings := Put(matchings, b, a, Argsort(e.matching));
      }
      distances := Put(distances, a, b, e.distance);
      distances := Put(distances, b, a, distances.entries[(a, b)]);
      times := Put(times, a, b, endTime - startTime);
      times := Put(times, b, a, times.entries[(a, b)]);
    }

    /** `run_single_process`: evaluates each listed pair once, in order, and
        writes distance, time and matching in both directions. */
    method RunSingleProcess(ids: seq<(Id, Id)>, evals: seq<Evaluation>, clock: seq<real>)
      requires Inputs(ids, evals, clock) && Covers(Rows(State()), ids)
      modifies this
      ensures State() == RecordRange(old(State()), ids, evals, clock, |ids|)
    {
      for k := 0 to |ids|
        invariant Covers(Rows(State()), ids)
        invariant State() == RecordRange(old(State()), ids, evals, clock, k)
      {
        var (a, b) := ids[k];
        RecordPair(a, b, evals[k], clock[2 * k], clock[2 * k + 1]);
      }
    }

    /** `run_multiple_processes`: the same updates, followed by exactly one export
        of this worker's pairs and tables when the experiment is exported. */
    method RunMultipleProcesses(ids: seq<(Id, Id)>, evals: seq<Evaluation>, clock: seq<real>,
                                processId: int, isExported: bool) returns (exportCall: Option<ExportCall>)
      requires Inputs(ids, evals, clock) && Covers(Rows(State()), ids)
      modifies this
      ensures State() == RecordRange(old(State()), ids, evals, clock, |ids|)
      ensures exportCall.Some? <==> isExported
      ensures exportCall.Some? ==> exportCall.value == ExportCall(ids, distances, times, processId)
    {
      RunSingleProcess(ids, evals, clock);
      exportCall := if isExported then Some(ExportCall(ids, distances, times, processId)) else None;
    }
  }
}
