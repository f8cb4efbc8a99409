/** The distances between two vectors, two rankings or two sets from which every
    instance-to-instance distance is assembled (src/mapof/core/distances/inner_distances.py).
    Vectors are exact reals; rankings ("votes", a list of candidates best first) and their
    positional form ("potes", the position of each candidate) are integer sequences. */
module InnerDistances {
  import opened Wrappers
  import opened Permutations
  import opened NumberTheory

  // ---------------------------------------------------------------------
  // Name lookup

  /** The nine inner distances that can be named in a distance id. */
  datatype InnerDistance =
    | L1Distance | L2Distance | ChebyshevDistance | HellingerDistance | EmdDistance
    | EmdInfDistance | DiscreteDistance | SingleL1Distance | HammingDistance

  /** The name under which each inner distance is registered. */
  function NameOf(d: InnerDistance): string {
    match d
    case L1Distance => "l1"
    case L2Distance => "l2"
    case ChebyshevDistance => "chebyshev"
    case HellingerDistance => "hellinger"
    case EmdDistance => "emd"
    case EmdInfDistance => "emdinf"
    case DiscreteDistance => "discrete"
    case SingleL1Distance => "single_l1"
    case HammingDistance => "hamming"
  }

  /** `map_str_to_func`: the distance registered under `name`, or None. */
  function MapStrToFunc(name: string): (r: Option<InnerDistance>)
    ensures r.Some? ==> NameOf(r.value) == name
    ensures r.None? ==> forall d :: NameOf(d) != name
  {
    if name == "l1" then Some(L1Distance)
    else if name == "l2" then Some(L2Distance)
    else if name == "chebyshev" then Some(ChebyshevDistance)
    else if name == "hellinger" then Some(HellingerDistance)
    else if name == "emd" then Some(EmdDistance)
    else if name == "emdinf" then Some(EmdInfDistance)
    else if name == "discrete" then Some(DiscreteDistance)
    else if name == "single_l1" then Some(SingleL1Distance)
    else if name == "hamming" then Some(HammingDistance)
    else None
  }

  /** Every registered name maps back to its own distance. */
  lemma MapStrToFuncRoundTrip(d: InnerDistance)
    ensures MapStrToFunc(NameOf(d)) == Some(d)
  {
    var r := MapStrToFunc(NameOf(d));
    assert r.Some?;
    match d
    case L1Distance =>
    case L2Distance =>
    case ChebyshevDistance =>
    case HellingerDistance =>
    case EmdDistance =>
    case EmdInfDistance =>
    case DiscreteDistance =>
    case SingleL1Distance =>
    case HammingDistance =>
  }

  // ---------------------------------------------------------------------
  // Vector distances

  function Abs(x: real): (r: real)
    ensures r >= 0.0 && (r == x || r == -x)
  {
    if x < 0.0 then -x else x
  }

  /** The 1-norm of the difference of two vectors of one length: the sum of
      |v1[i] - v2[i]|. */
  function SumOfGaps(v1: seq<real>, v2: seq<real>): (r: real)
    requires |v1| == |v2|
    ensures r >= 0.0
  {
    if |v1| == 0 then 0.0 else Abs(v1[0] - v2[0]) + SumOfGaps(v1[1..], v2[1..])
  }

  /** n copies of x: an array of length 1 broadcast to length n. */
  function Repeat(x: real, n: nat): (r: seq<real>)
    ensures |r| == n && forall i :: 0 <= i < n ==> r[i] == x
  {
    seq(n, _ => x)
  }

  /** `l1`: the 1-norm of `vector_1 - vector_2`. numpy subtracts arrays of one
      length entry by entry, stretches an array of length 1 to the length of
      the other, and raises ValueError for any other pair of lengths. */
  function L1(v1: seq<real>, v2: seq<real>): (r: Result<real>)
    ensures r.Err? <==> |v1| != |v2| && |v1| != 1 && |v2| != 1
    ensures r.Err? ==> r.error == ValueError
    ensures r.Ok? ==> r.value >= 0.0
    ensures |v1| == |v2| ==> r == Ok(SumOfGaps(v1, v2))
    ensures |v1| == 1 && r.Ok? ==> r.value == SumOfGaps(Repeat(v1[0], |v2|), v2)
    ensures |v2| == 1 && r.Ok? ==> r.value == SumOfGaps(v1, Repeat(v2[0], |v1|))
  {
    if |v1| == |v2| then Ok(SumOfGaps(v1, v2))
    else if |v1| == 1 then Ok(SumOfGaps(Repeat(v1[0], |v2|), v2))
    else if |v2| == 1 then Ok(SumOfGaps(v1, Repeat(v2[0], |v1|)))
    else Err(ValueError)
  }

  /** The L1 distance of two vectors of one length vanishes exactly when they
      are equal. */
  lemma {:induction false} L1ZeroIff(v1: seq<real>, v2: seq<real>)
    requires |v1| == |v2|
    ensures SumOfGaps(v1, v2) == 0.0 <==> v1 == v2
  {
    if |v1| > 0 {
      L1ZeroIff(v1[1..], v2[1..]);
      if v1 == v2 {
        assert v1[1..] == v2[1..];
      }
    }
  }

  lemma {:induction false} SumOfGapsSymmetric(v1: seq<real>, v2: seq<real>)
    requires |v1| == |v2|
    ensures SumOfGaps(v1, v2) == SumOfGaps(v2, v1)
  {
    if |v1| > 0 {
      SumOfGapsSymmetric(v1[1..], v2[1..]);
    }
  }

  /** The order of the arguments does not matter, for any two lengths: both
      the error and the broadcast are symmetric. */
  lemma L1Symmetric(v1: seq<real>, v2: seq<real>)
    ensures L1(v1, v2) == L1(v2, v1)
  {
    if |v1| == |v2| {
      SumOfGapsSymmetric(v1, v2);
    } else if |v1| == 1 {
      SumOfGapsSymmetric(Repeat(v1[0], |v2|), v2);
    } else if |v2| == 1 {
      SumOfGapsSymmetric(v1, Repeat(v2[0], |v1|));
    }
  }

  /** Each coordinate's gap is bounded by the whole L1 distance. */
  lemma {:induction false} L1TermBound(v1: seq<real>, v2: seq<real>, i: int)
    requires |v1| == |v2| && 0 <= i < |v1|
    ensures Abs(v1[i] - v2[i]) <= SumOfGaps(v1, v2)
  {
    if i > 0 {
      L1TermBound(v1[1..], v2[1..], i - 1);
    }
  }

  /** The value fixed by the unit test of `l1`. */
  lemma L1Example()
    ensures L1([7.0, 2.0, 3.0, 4.0, 1.0, 1.0], [2.0, 3.0, 2.0, 5.0, 3.0, 3.0]) == Ok(12.0)
  {
  }

  /** The largest gap among the first k coordinates. */
  function MaxGap(v1: seq<real>, v2: seq<real>, k: nat): (r: real)
    requires 1 <= k <= |v1| <= |v2|
    ensures forall i :: 0 <= i < k ==> Abs(v1[i] - v2[i]) <= r
    ensures exists i :: 0 <= i < k && Abs(v1[i] - v2[i]) == r
  {
    if k == 1 then Abs(v1[0] - v2[0])
    else
      var m := MaxGap(v1, v2, k - 1);
      var g := Abs(v1[k - 1] - v2[k - 1]);
      if g > m then g else m
  }

  /** `chebyshev`: the largest gap over the indices of v1. Indexing a shorter
      v2 raises IndexError while the list is built; `max` of the empty list
      then raises ValueError. */
  function Chebyshev(v1: seq<real>, v2: seq<real>): (r: Result<real>)
    ensures r.Err? <==> |v1| == 0 || |v2| < |v1|
    ensures r == Err(ValueError) <==> |v1| == 0
    ensures r.Err? && r.error != ValueError ==> r.error == IndexError
    ensures r.Ok? ==> forall i :: 0 <= i < |v1| ==> Abs(v1[i] - v2[i]) <= r.value
    ensures r.Ok? ==> exists i :: 0 <= i < |v1| && Abs(v1[i] - v2[i]) == r.value
  {
    if |v1| == 0 then Err(ValueError)
    else if |v2| < |v1| then Err(IndexError)
    else Ok(MaxGap(v1, v2, |v1|))
  }

  /** The Chebyshev distance never exceeds the L1 distance. */
  lemma ChebyshevAtMostL1(v1: seq<real>, v2: seq<real>)
    requires |v1| == |v2| && |v1| > 0
    ensures Chebyshev(v1, v2).Ok? && L1(v1, v2).Ok? && Chebyshev(v1, v2).value <= L1(v1, v2).value
  {
    var i :| 0 <= i < |v1| && Abs(v1[i] - v2[i]) == Chebyshev(v1, v2).value;
    L1TermBound(v1, v2, i);
  }

  /** `discrete`: 1 at the first index of v1 where the vectors differ, else 0.
      A v2 that runs out before a difference is found raises IndexError. */
  method Discrete<T(==)>(v1: seq<T>, v2: seq<T>) returns (r: Result<int>)
    ensures r.Ok? ==> r.value == 0 || r.value == 1
    ensures r == Ok(0) <==> |v1| <= |v2| && v1 == v2[..|v1|]
    ensures r.Err? <==> |v2| < |v1| && v1[..|v2|] == v2
    ensures r.Err? ==> r.error == IndexError
  {
    for i := 0 to |v1|
      invariant i <= |v2| && v1[..i] == v2[..i]
    {
      if i == |v2| {
        assert v2[..i] == v2;
        return Err(IndexError);
      }
      if v1[i] != v2[i] {
        assert |v1| <= |v2| ==> v2[..|v1|][i] == v2[i];
        assert |v2| < |v1| ==> v1[..|v2|][i] == v1[i];
        return Ok(1);
      }
      assert v1[..i + 1] == v1[..i] + [v1[i]];
      assert v2[..i + 1] == v2[..i] + [v2[i]];
    }
    assert v1 == v1[..|v1|];
    return Ok(0);
  }

  /** `single_l1`: the absolute difference of two values. */
  function SingleL1(a: real, b: real): (r: real)
    ensures r >= 0.0 && (r == a - b || r == b - a)
    ensures r == 0.0 <==> a == b
  {
    Abs(a - b)
  }

  /** `hamming`: the size of the symmetric difference. */
  function Hamming<T>(s1: set<T>, s2: set<T>): (r: nat)
    ensures r == |s1 - s2| + |s2 - s1|
  {
    assert (s1 - s2) * (s2 - s1) == {};
    |(s1 - s2) + (s2 - s1)|
  }

  /** The Hamming distance vanishes exactly on equal sets. */
  lemma HammingZeroIff<T>(s1: set<T>, s2: set<T>)
    ensures Hamming(s1, s2) == 0 <==> s1 == s2
  {
    if Hamming(s1, s2) == 0 {
      assert s1 - s2 == {} && s2 - s1 == {};
    }
  }

  // ---------------------------------------------------------------------
  // Earth mover's distance between two histograms on a line

  /** The sum of the first k entries. */
  function Prefix(v: seq<real>, k: nat): real
    requires k <= |v|
  {
    if k == 0 then 0.0 else Prefix(v, k - 1) + v[k - 1]
  }

  /** Sum over j = 1..k of the gap between the j-th prefix sums. */
  function CumulativeGap(v1: seq<real>, v2: seq<real>, k: nat): (r: real)
    requires k <= |v1| && k <= |v2|
    ensures r >= 0.0
  {
    if k == 0 then 0.0
    else CumulativeGap(v1, v2, k - 1) + Abs(Prefix(v1, k) - Prefix(v2, k))
  }

  /** What `emd` computes: the prefix-sum gaps at every position but the last. */
  function EmdSpec(v1: seq<real>, v2: seq<real>): real
    requires |v1| <= |v2| + 1
  {
    if |v1| == 0 then 0.0 else CumulativeGap(v1, v2, |v1| - 1)
  }

  /** `emd`: pushes each position's surplus into the next position of a copy of v1
      and adds up the dirt moved. */
  method Emd(v1: seq<real>, v2: seq<real>) returns (r: Result<real>)
    ensures r.Err? <==> |v2| + 1 < |v1|
    ensures r.Err? ==> r.error == IndexError
    ensures r.Ok? ==> r.value == EmdSpec(v1, v2) && r.value >= 0.0
  {
    var w := new real[|v1|](k requires 0 <= k < |v1| => v1[k]);
    var dirt := 0.0;
    if |v1| == 0 {
      return Ok(dirt);
    }
    var i := 0;
    while i < |v1| - 1
      invariant 0 <= i <= |v1| - 1 && i <= |v2|
      invariant dirt == CumulativeGap(v1, v2, i)
      invariant w[i] == Prefix(v1, i + 1) - Prefix(v2, i)
      invariant forall k :: i < k < |v1| ==> w[k] == v1[k]
    {
      if i == |v2| {
        return Err(IndexError);
      }
      var surplus := w[i] - v2[i];
      dirt := dirt + Abs(surplus);
      w[i + 1] := w[i + 1] + surplus;
      i := i + 1;
    }
    r := Ok(dirt);
  }

  /** Prefix sums only look at the entries they cover. */
  lemma {:induction false} PrefixAgree(v: seq<real>, u: seq<real>, k: nat)
    requires k <= |v| && k <= |u| && v[..k] == u[..k]
    ensures Prefix(v, k) == Prefix(u, k)
  {
    if k > 0 {
      assert v[..k - 1] == v[..k][..k - 1] && u[..k - 1] == u[..k][..k - 1];
      assert v[k - 1] == v[..k][k - 1];
      PrefixAgree(v, u, k - 1);
    }
  }

  lemma {:induction false} CumulativeGapAgree(v1: seq<real>, v2: seq<real>, u1: seq<real>, u2: seq<real>, k: nat)
    requires k <= |v1| && k <= |v2| && k <= |u1| && k <= |u2|
    requires v1[..k] == u1[..k] && v2[..k] == u2[..k]
    ensures CumulativeGap(v1, v2, k) == CumulativeGap(u1, u2, k)
  {
    if k > 0 {
      assert v1[..k - 1] == v1[..k][..k - 1] && u1[..k - 1] == u1[..k][..k - 1];
      assert v2[..k - 1] == v2[..k][..k - 1] && u2[..k - 1] == u2[..k][..k - 1];
      CumulativeGapAgree(v1, v2, u1, u2, k - 1);
      PrefixAgree(v1, u1, k);
      PrefixAgree(v2, u2, k);
    }
  }

  /** The last entry of either vector never moves any dirt. */
  lemma EmdIgnoresLast(v1: seq<real>, v2: seq<real>, x: real, y: real)
    requires |v1| == |v2| && |v1| > 0
    ensures EmdSpec(v1[..|v1| - 1] + [x], v2[..|v2| - 1] + [y]) == EmdSpec(v1, v2)
  {
    var n := |v1|;
    var u1, u2 := v1[..n - 1] + [x], v2[..n - 1] + [y];
    assert u1[..n - 1] == v1[..n - 1] && u2[..n - 1] == v2[..n - 1];
    CumulativeGapAgree(v1, v2, u1, u2, n - 1);
  }

  lemma {:induction false} CumulativeGapSelf(v: seq<real>, k: nat)
    requires k <= |v|
    ensures CumulativeGap(v, v, k) == 0.0
  {
    if k > 0 {
      CumulativeGapSelf(v, k - 1);
    }
  }

  /** No dirt moves between equal histograms. */
  lemma EmdSelf(v: seq<real>)
    ensures EmdSpec(v, v) == 0.0
  {
    if |v| > 0 {
      CumulativeGapSelf(v, |v| - 1);
    }
  }

  lemma {:induction false} CumulativeGapSymmetric(v1: seq<real>, v2: seq<real>, k: nat)
    requires k <= |v1| && k <= |v2|
    ensures CumulativeGap(v1, v2, k) == CumulativeGap(v2, v1, k)
  {
    if k > 0 {
      CumulativeGapSymmetric(v1, v2, k - 1);
    }
  }

  /** For histograms of equal length the distance does not depend on the order of
      the arguments. */
  lemma EmdSymmetric(v1: seq<real>, v2: seq<real>)
    requires |v1| == |v2|
    ensures EmdSpec(v1, v2) == EmdSpec(v2, v1)
  {
    if |v1| > 0 {
      CumulativeGapSymmetric(v1, v2, |v1| - 1);
    }
  }

  // ---------------------------------------------------------------------
  // EMD-infinity

  /** `_stretch`: the vector repeated mult times, one copy after the other. */
  function Stretch<T>(v: seq<T>, mult: nat): (r: seq<T>)
    ensures |r| == mult * |v|
  {
    if mult == 0 then []
    else
      var rest := Stretch(v, mult - 1);
      assert (mult - 1) * |v| + |v| == mult * |v|;
      v + rest
  }

  /** Entry t of the stretched vector is entry t mod |v| of v. */
  lemma {:induction false} StretchAt<T>(v: seq<T>, mult: nat)
    ensures forall t :: 0 <= t < |Stretch(v, mult)| ==> Stretch(v, mult)[t] == v[t % |v|]
  {
    if mult > 0 {
      StretchAt(v, mult - 1);
      forall t | 0 <= t < |Stretch(v, mult)|
        ensures Stretch(v, mult)[t] == v[t % |v|]
      {
        if t < |v| {
          ModSmall(t, |v|);
        } else {
          ModShift(t, |v|);
        }
      }
    }
  }

  /** np.sign on a real. */
  function Sign(x: real): int {
    if x > 0.0 then 1 else if x < 0.0 then -1 else 0
  }

  /** The area between the cumulative curves over one step, whose signed gaps at
      the two ends are d0 and d1: a trapezoid when the gap keeps its sign, two
      triangles when it changes sign (then d0 and d1 are not both 0). */
  function StepArea(d0: real, d1: real, m: real): (r: real)
    requires m > 0.0
    ensures r >= 0.0
    ensures d0 == 0.0 && d1 == 0.0 ==> r == 0.0
  {
    if Sign(d0) == Sign(d1) then PerStep(Abs(d0) + Abs(d1), m)
    else
      var a, b := Abs(d0), Abs(d1);
      assert a + b > 0.0;
      PerStep(TwoTriangles(a, b), m)
  }

  /** Twice the area of the two triangles cut out when the gap changes sign
      between heights a and b. */
  function TwoTriangles(a: real, b: real): (r: real)
    requires a >= 0.0 && b >= 0.0 && a + b > 0.0
    ensures r >= 0.0
  {
    assert a * a >= 0.0 && b * b >= 0.0;
    (a * a + b * b) / (a + b)
  }

  lemma TwoTrianglesStep(a: real, b: real, m: real)
    requires a >= 0.0 && b >= 0.0 && a + b > 0.0 && m > 0.0
    ensures (a * a + b * b) / (a + b) / m / 2.0 == PerStep(TwoTriangles(a, b), m)
  {
  }

  /** A doubled area scaled by the step width 1/m and halved. */
  function PerStep(doubled: real, m: real): (r: real)
    requires doubled >= 0.0 && m > 0.0
    ensures r >= 0.0
    ensures doubled == 0.0 ==> r == 0.0
  {
    doubled / m / 2.0
  }

  /** The area summed over the first k steps. */
  function WalkArea(x: seq<real>, y: seq<real>, m: real, k: nat): (r: real)
    requires k <= |x| && k <= |y| && (k == 0 || m > 0.0)
    ensures r >= 0.0
  {
    if k == 0 then 0.0
    else
      WalkArea(x, y, m, k - 1) +
      StepArea(Prefix(x, k - 1) - Prefix(y, k - 1), Prefix(x, k) - Prefix(y, k), m)
  }

  /** The two vectors `emdinf` walks: unchanged when their lengths agree, else v1
      tiled lcm(|v1|, |v2|) times and then v2 tiled lcm(|stretched v1|, |v2|) times. */
  function Reconciled(v1: seq<real>, v2: seq<real>): (seq<real>, seq<real>) {
    if |v1| == |v2| then (v1, v2)
    else
      var x := Stretch(v1, Lcm(|v1|, |v2|));
      (x, Stretch(v2, Lcm(|x|, |v2|)))
  }

  function Min(a: nat, b: nat): nat {
    if a <= b then a else b
  }

  /** What `emdinf` computes: the walk over the zipped (shorter) length, with m the
      length of the first reconciled vector. */
  function EmdInfSpec(v1: seq<real>, v2: seq<real>): real {
    var (x, y) := Reconciled(v1, v2);
    WalkArea(x, y, |x| as real, Min(|x|, |y|))
  }

  /** `emdinf`: stretches unequal vectors, then walks both cumulative sums. */
  method EmdInf(v1: seq<real>, v2: seq<real>) returns (res: real)
    ensures res == EmdInfSpec(v1, v2)
    ensures res >= 0.0
  {
    var x, y := v1, v2;
    if |x| != |y| {
      x := Stretch(v1, Lcm(|v1|, |v2|));
      y := Stretch(v2, Lcm(|x|, |v2|));
    }
    var m := |x|;
    var cumX, cumY := 0.0, 0.0;
    res := 0.0;
    for i := 0 to Min(|x|, |y|)
      invariant cumX == Prefix(x, i) && cumY == Prefix(y, i)
      invariant res == WalkArea(x, y, m as real, i)
    {
      var cumX0, cumY0 := cumX, cumY;
      cumX := cumX + x[i];
      cumY := cumY + y[i];
      var mr := m as real;
      var step: real;
      if Sign(cumX0 - cumY0) == Sign(cumX - cumY) {
        step := (Abs(cumX0 - cumY0) + Abs(cumX - cumY)) / mr / 2.0;
        assert step == PerStep(Abs(cumX0 - cumY0) + Abs(cumX - cumY), mr);
      } else {
        var d1, d2 := Abs(cumX0 - cumY0), Abs(cumX - cumY);
        TwoTrianglesStep(d1, d2, mr);
        step := (d1 * d1 + d2 * d2) / (d1 + d2) / mr / 2.0;
      }
      assert step == StepArea(cumX0 - cumY0, cumX - cumY, mr);
      res := res + step;
    }
  }

  /** Lengths after reconciliation: for unequal non-empty lengths a and b, v1 is
      tiled L = lcm(a, b) times, the second lcm is a * L itself, so v2 is tiled
      a * L times, the zip stops after a * L entries and m = a * L. */
  lemma ReconciledLengths(v1: seq<real>, v2: seq<real>)
    requires |v1| != |v2| && |v1| > 0 && |v2| > 0
    ensures var (x, y) := Reconciled(v1, v2);
      var l := Lcm(|v1|, |v2|);
      x == Stretch(v1, l) && |x| == l * |v1| &&
      y == Stretch(v2, |x|) && |y| == |x| * |v2| &&
      Min(|x|, |y|) == |x| &&
      (forall t :: 0 <= t < |x| ==> x[t] == v1[t % |v1|] && y[t] == v2[t % |v2|])
  {
    var a, b := |v1|, |v2|;
    var l := Lcm(a, b);
    var x := Stretch(v1, l);
    assert |x| == l * a;
    MultipleOfMultiple(a, l, b);
    assert |x| % b == 0 by {
      assert l * a == a * l;
    }
    MulAtLeast(l, a);
    LcmOfMultiple(|x|, b);
    MulAtLeast(|x|, b);
    StretchAt(v1, l);
    StretchAt(v2, |x|);
  }

  lemma {:induction false} WalkAreaSelf(v: seq<real>, m: real, k: nat)
    requires k <= |v| && (k == 0 || m > 0.0)
    ensures WalkArea(v, v, m, k) == 0.0
  {
    if k > 0 {
      WalkAreaSelf(v, m, k - 1);
    }
  }

  /** A vector is at EMD-infinity distance 0 from itself. */
  lemma EmdInfSelf(v: seq<real>)
    ensures EmdInfSpec(v, v) == 0.0
  {
    WalkAreaSelf(v, |v| as real, |v|);
  }

  // ---------------------------------------------------------------------
  // Ordinal votes and their positional form

  /** `list.index`: the first position holding x. */
  function IndexOf(s: seq<int>, x: int): (k: int)
    requires x in s
    ensures 0 <= k < |s| && s[k] == x
    ensures forall j :: 0 <= j < k ==> s[j] != x
  {
    if s[0] == x then 0 else 1 + IndexOf(s[1..], x)
  }

  /** The first positions of the candidates 0..k-1 that occur in the vote, in
      candidate order. */
  function Positions(vote: seq<int>, k: nat): (r: seq<int>)
    ensures |r| <= k
    ensures forall t :: 0 <= t < |r| ==> 0 <= r[t] < |vote|
  {
    if k == 0 then []
    else Positions(vote, k - 1) + (if k - 1 in vote then [IndexOf(vote, k - 1)] else [])
  }

  /** `vote_to_pote`: for each candidate 0..len(vote) present in the vote, its
      position in the vote. */
  function VoteToPote(vote: seq<int>): (pote: seq<int>)
    ensures |pote| <= |vote| + 1
    ensures forall t :: 0 <= t < |pote| ==> 0 <= pote[t] < |vote|
  {
    Positions(vote, |vote| + 1)
  }

  lemma PermutationContains(p: seq<int>, v: int)
    requires IsPermutation(p) && 0 <= v < |p|
    ensures v in p
  {
    var k := PositionOf(p, v);
  }

  lemma {:induction false} PositionsOfPermutation(vote: seq<int>, k: nat)
    requires IsPermutation(vote) && k <= |vote|
    ensures |Positions(vote, k)| == k
    ensures forall i :: 0 <= i < k ==> i in vote && Positions(vote, k)[i] == IndexOf(vote, i)
  {
    if k > 0 {
      PositionsOfPermutation(vote, k - 1);
      PermutationContains(vote, k - 1);
    }
  }

  /** For a vote that is a permutation, the pote is its inverse permutation:
      pote[vote[k]] == k. */
  lemma VoteToPoteInverts(vote: seq<int>)
    requires IsPermutation(vote)
    ensures IsInverse(vote, VoteToPote(vote)) && IsInverse(VoteToPote(vote), vote)
    ensures IsPermutation(VoteToPote(vote))
  {
    var n := |vote|;
    PositionsOfPermutation(vote, n);
    assert n !in vote;
    var pote := VoteToPote(vote);
    assert pote == Positions(vote, n);
    forall k | 0 <= k < n
      ensures pote[vote[k]] == k
    {
      var j := IndexOf(vote, vote[k]);
      assert j == k;
    }
    InverseIsPermutation(vote, pote);
  }

  /** Converting twice gives the vote back. */
  lemma VoteToPoteInvolution(vote: seq<int>)
    requires IsPermutation(vote)
    ensures VoteToPote(VoteToPote(vote)) == vote
  {
    var pote := VoteToPote(vote);
    VoteToPoteInverts(vote);
    VoteToPoteInverts(pote);
    InverseUnique(pote, VoteToPote(pote), vote);
  }

  /** On permutations, argsort and vote_to_pote agree. */
  lemma ArgsortIsVoteToPote(vote: seq<int>)
    requires IsPermutation(vote)
    ensures Argsort(vote) == VoteToPote(vote)
  {
    VoteToPoteInverts(vote);
    ArgsortInvertsPermutation(vote);
    InverseUnique(vote, Argsort(vote), VoteToPote(vote));
  }

  // ---------------------------------------------------------------------
  // Swap (Kendall tau) distance

  /** Every value of pote_1 is a valid index into both potes. */
  predicate ValuesIndex(p1: seq<int>, p2: seq<int>) {
    forall a :: 0 <= a < |p1| ==> 0 <= p1[a] < |p1| && p1[a] < |p2|
  }

  /** Candidates i and j are ordered one way by p1 and the other way by p2. */
  predicate Discordant(p1: seq<int>, p2: seq<int>, i: int, j: int)
    requires 0 <= i < |p1| && i < |p2| && 0 <= j < |p1| && j < |p2|
  {
    (p1[i] > p1[j] && p2[i] < p2[j]) || (p1[i] < p1[j] && p2[i] > p2[j])
  }

  /** Whether Python's `s[k]` succeeds: k lies in -len(s)..len(s)-1. */
  predicate InBounds(s: seq<int>, k: int) {
    -|s| <= k < |s|
  }

  /** Python's `s[k]`: a negative index counts from the end. */
  function At(s: seq<int>, k: int): (r: int)
    requires InBounds(s, k)
    ensures 0 <= k ==> r == s[k]
  {
    if 0 <= k then s[k] else s[|s| + k]
  }

  /** Whether testing the value pair (i, j) reads out of bounds. pote_1 is
      read at i and j; pote_2 only when those entries differ, since each `and`
      stops at a false left operand. */
  predicate PairFails(p1: seq<int>, p2: seq<int>, i: int, j: int) {
    !InBounds(p1, i) || !InBounds(p1, j) ||
    (At(p1, i) != At(p1, j) && (!InBounds(p2, i) || !InBounds(p2, j)))
  }

  /** The test of `swap_distance_between_potes` on the value pair (i, j),
      where it reads in bounds. */
  predicate Swapped(p1: seq<int>, p2: seq<int>, i: int, j: int) {
    !PairFails(p1, p2, i, j) &&
    ((At(p1, i) > At(p1, j) && At(p2, i) < At(p2, j)) ||
     (At(p1, i) < At(p1, j) && At(p2, i) > At(p2, j)))
  }

  /** Some value pair that `itertools.combinations(pote_1, 2)` yields reads
      out of bounds. */
  predicate AnyPairFails(p1: seq<int>, p2: seq<int>) {
    exists a, b :: 0 <= a < b < |p1| && PairFails(p1, p2, p1[a], p1[b])
  }

  /** The position pairs a < b whose values i = p1[a], j = p1[b] (the pairs that
      `itertools.combinations(pote_1, 2)` yields) pass the test. */
  function SwapPairs(p1: seq<int>, p2: seq<int>): set<(int, int)> {
    set a, b | 0 <= a < b < |p1| && Swapped(p1, p2, p1[a], p1[b]) :: (a, b)
  }

  /** The pairs of SwapPairs that precede (a, b) in lexicographic order. */
  function Scanned(p1: seq<int>, p2: seq<int>, a: int, b: int): set<(int, int)> {
    set x, y | 0 <= x < y < |p1| && (x < a || (x == a && y < b)) &&
               Swapped(p1, p2, p1[x], p1[y]) :: (x, y)
  }

  lemma ScannedStepSet(p1: seq<int>, p2: seq<int>, a: int, b: int)
    requires 0 <= a < b < |p1|
    ensures Scanned(p1, p2, a, b + 1) ==
      Scanned(p1, p2, a, b) + (if Swapped(p1, p2, p1[a], p1[b]) then {(a, b)} else {})
    ensures (a, b) !in Scanned(p1, p2, a, b)
  {
  }

  /** Scanning the pair (a, b) counts it iff it passes the test. */
  lemma ScannedStep(p1: seq<int>, p2: seq<int>, a: int, b: int)
    requires 0 <= a < b < |p1|
    ensures |Scanned(p1, p2, a, b + 1)| ==
      |Scanned(p1, p2, a, b)| + (if Swapped(p1, p2, p1[a], p1[b]) then 1 else 0)
  {
    ScannedStepSet(p1, p2, a, b);
  }

  /** The test of one value pair, reading as the source's condition does. */
  method TestPair(p1: seq<int>, p2: seq<int>, i: int, j: int) returns (r: Result<bool>)
    ensures r.Err? <==> PairFails(p1, p2, i, j)
    ensures r.Err? ==> r.error == IndexError
    ensures r.Ok? ==> r.value == Swapped(p1, p2, i, j)
  {
    if !InBounds(p1, i) || !InBounds(p1, j) {
      return Err(IndexError);
    }
    var swapped := false;
    if At(p1, i) > At(p1, j) {
      if !InBounds(p2, i) || !InBounds(p2, j) {
        return Err(IndexError);
      }
      swapped := At(p2, i) < At(p2, j);
    } else if At(p1, i) < At(p1, j) {
      if !InBounds(p2, i) || !InBounds(p2, j) {
        return Err(IndexError);
      }
      swapped := At(p2, i) > At(p2, j);
    }
    r := Ok(swapped);
  }

  /** Starting and finishing row a of the scan. */
  lemma ScannedRows(p1: seq<int>, p2: seq<int>, a: int)
    requires 0 <= a < |p1|
    ensures Scanned(p1, p2, a, a + 1) == Scanned(p1, p2, a, 0)
    ensures Scanned(p1, p2, a, |p1|) == Scanned(p1, p2, a + 1, 0)
  {
  }

  /** ScannedRows, stated on sizes. */
  lemma ScannedRowsCard(p1: seq<int>, p2: seq<int>, a: int)
    requires 0 <= a < |p1|
    ensures |Scanned(p1, p2, a, a + 1)| == |Scanned(p1, p2, a, 0)|
    ensures |Scanned(p1, p2, a, |p1|)| == |Scanned(p1, p2, a + 1, 0)|
  {
    ScannedRows(p1, p2, a);
  }

  /** Nothing is scanned before the first pair. */
  lemma ScannedNone(p1: seq<int>, p2: seq<int>)
    ensures |Scanned(p1, p2, 0, 0)| == 0
  {
    assert Scanned(p1, p2, 0, 0) == {};
  }

  /** The pairs (a, b'), a < b' < b, that pass the test. */
  function RowCount(p1: seq<int>, p2: seq<int>, a: nat, b: nat): nat
    requires a < |p1| && b <= |p1|
  {
    if b <= a + 1 then 0
    else RowCount(p1, p2, a, b - 1) + (if Swapped(p1, p2, p1[a], p1[b - 1]) then 1 else 0)
  }

  /** The pairs of the rows before row a that pass the test. */
  function RowsCount(p1: seq<int>, p2: seq<int>, a: nat): nat
    requires a <= |p1|
  {
    if a == 0 then 0 else RowsCount(p1, p2, a - 1) + RowCount(p1, p2, a - 1, |p1|)
  }

  /** The rows before row a, counted one by one, are the scanned set before (a, a + 1). */
  lemma {:induction false} RowStartScanned(p1: seq<int>, p2: seq<int>, a: nat)
    requires a < |p1|
    ensures |Scanned(p1, p2, a, a + 1)| == RowsCount(p1, p2, a)
    decreases a, 0
  {
    ScannedRowsCard(p1, p2, a);
    if a == 0 {
      ScannedNone(p1, p2);
    } else {
      RowCountScanned(p1, p2, a - 1, |p1|);
      ScannedRowsCard(p1, p2, a - 1);
    }
  }

  /** The row-by-row count is the size of the scanned set. */
  lemma {:induction false} RowCountScanned(p1: seq<int>, p2: seq<int>, a: nat, b: nat)
    requires a < |p1| && a + 1 <= b <= |p1|
    ensures |Scanned(p1, p2, a, b)| == RowsCount(p1, p2, a) + RowCount(p1, p2, a, b)
    decreases a, b
  {
    if b == a + 1 {
      assert RowCount(p1, p2, a, b) == 0;
      RowStartScanned(p1, p2, a);
    } else {
      var step := if Swapped(p1, p2, p1[a], p1[b - 1]) then 1 else 0;
      assert RowCount(p1, p2, a, b) == RowCount(p1, p2, a, b - 1) + step;
      RowCountScanned(p1, p2, a, b - 1);
      ScannedStep(p1, p2, a, b - 1);
    }
  }

  /** All rows together count SwapPairs. */
  lemma RowsCountAll(p1: seq<int>, p2: seq<int>)
    ensures RowsCount(p1, p2, |p1|) == |SwapPairs(p1, p2)|
  {
    ScannedAll(p1, p2);
    var n := |p1|;
    if n == 0 {
      assert SwapPairs(p1, p2) == {};
    } else {
      RowCountScanned(p1, p2, n - 1, n);
      ScannedRows(p1, p2, n - 1);
    }
  }

  /** Row a reads in bounds. */
  predicate RowSafe(p1: seq<int>, p2: seq<int>, a: nat)
    requires a < |p1|
  {
    forall b :: a < b < |p1| ==> !PairFails(p1, p2, p1[a], p1[b])
  }

  /** Row a of the scan: the pairs (a, b) for b from a + 1 on. */
  method ScanRow(p1: seq<int>, p2: seq<int>, a: nat) returns (r: Result<nat>)
    requires a < |p1|
    ensures r.Err? ==> r.error == IndexError && AnyPairFails(p1, p2)
    ensures r.Ok? ==> r.value == RowCount(p1, p2, a, |p1|) && RowSafe(p1, p2, a)
  {
    var total := 0;
    for b := a + 1 to |p1|
      invariant total == RowCount(p1, p2, a, b)
      invariant forall c :: a < c < b ==> !PairFails(p1, p2, p1[a], p1[c])
    {
      var swapped := TestPair(p1, p2, p1[a], p1[b]);
      if swapped.Err? {
        assert PairFails(p1, p2, p1[a], p1[b]);
        return Err(IndexError);
      }
      total := total + if swapped.value then 1 else 0;
    }
    r := Ok(total);
  }

  /** `swap_distance_between_potes`: the number of value pairs of pote_1 that
      are ordered one way by pote_1 and the other way by pote_2, or IndexError
      at the first read out of bounds. */
  method SwapDistanceBetweenPotes(p1: seq<int>, p2: seq<int>) returns (r: Result<nat>)
    ensures r.Err? <==> AnyPairFails(p1, p2)
    ensures r.Err? ==> r.error == IndexError
    ensures r.Ok? ==> r.value == |SwapPairs(p1, p2)|
  {
    var count := 0;
    for a := 0 to |p1|
      invariant count == RowsCount(p1, p2, a)
      invariant forall x :: 0 <= x < a ==> RowSafe(p1, p2, x)
    {
      var row := ScanRow(p1, p2, a);
      if row.Err? {
        return Err(IndexError);
      }
      count := count + row.value;
    }
    forall x, y | 0 <= x < y < |p1|
      ensures !PairFails(p1, p2, p1[x], p1[y])
    {
      assert RowSafe(p1, p2, x);
    }
    RowsCountAll(p1, p2);
    r := Ok(count);
  }

  lemma ScannedAll(p1: seq<int>, p2: seq<int>)
    ensures Scanned(p1, p2, |p1|, 0) == SwapPairs(p1, p2)
  {
  }

  /** When every value of pote_1 indexes both potes, no read fails and the
      test is the discordance of the two candidates. */
  lemma ValuesIndexSwapPairs(p1: seq<int>, p2: seq<int>)
    requires ValuesIndex(p1, p2)
    ensures !AnyPairFails(p1, p2)
    ensures SwapPairs(p1, p2) == set a, b | 0 <= a < b < |p1| && Discordant(p1, p2, p1[a], p1[b]) :: (a, b)
  {
  }

  /** The discordant candidate pairs i < j (the Kendall tau distance). */
  function KendallPairs(p1: seq<int>, p2: seq<int>): set<(int, int)>
    requires |p1| <= |p2|
  {
    set i, j | 0 <= i < j < |p1| && Discordant(p1, p2, i, j) :: (i, j)
  }

  /** The candidate pair, smaller first, that the position pair (a, b) stands for. */
  function ValuePair(p1: seq<int>, pr: (int, int)): (int, int) {
    if 0 <= pr.0 < |p1| && 0 <= pr.1 < |p1| then
      if p1[pr.0] < p1[pr.1] then (p1[pr.0], p1[pr.1]) else (p1[pr.1], p1[pr.0])
    else (0, 0)
  }

  lemma ValuePairInjective(p1: seq<int>, p2: seq<int>)
    requires IsPermutation(p1) && |p1| <= |p2|
    ensures ValuesIndex(p1, p2)
    ensures forall x, y ::
      (x in SwapPairs(p1, p2) && y in SwapPairs(p1, p2) && ValuePair(p1, x) == ValuePair(p1, y)) ==> x == y
  {
    forall x, y | x in SwapPairs(p1, p2) && y in SwapPairs(p1, p2) && ValuePair(p1, x) == ValuePair(p1, y)
      ensures x == y
    {
      assert p1[x.0] != p1[x.1] && p1[y.0] != p1[y.1];
    }
  }

  lemma ValuePairImage(p1: seq<int>, p2: seq<int>)
    requires IsPermutation(p1) && |p1| <= |p2|
    ensures ValuesIndex(p1, p2)
    ensures (set pr | pr in SwapPairs(p1, p2) :: ValuePair(p1, pr)) == KendallPairs(p1, p2)
  {
    var s := SwapPairs(p1, p2);
    var img := set pr | pr in s :: ValuePair(p1, pr);
    forall pr | pr in KendallPairs(p1, p2)
      ensures pr in img
    {
      var a := PositionOf(p1, pr.0);
      var b := PositionOf(p1, pr.1);
      if a < b {
        assert (a, b) in s && ValuePair(p1, (a, b)) == pr;
      } else {
        assert (b, a) in s && ValuePair(p1, (b, a)) == pr;
      }
    }
  }

  /** When pote_1 is a permutation, iterating over its value pairs still counts each
      discordant unordered pair of candidates exactly once: the count is the
      Kendall tau distance. */
  lemma SwapPairsCountKendall(p1: seq<int>, p2: seq<int>)
    requires IsPermutation(p1) && |p1| <= |p2|
    ensures ValuesIndex(p1, p2) && !AnyPairFails(p1, p2)
    ensures |SwapPairs(p1, p2)| == |KendallPairs(p1, p2)|
  {
    ValuePairInjective(p1, p2);
    ValuesIndexSwapPairs(p1, p2);
    var s := SwapPairs(p1, p2);
    var f := (pr: (int, int)) => ValuePair(p1, pr);
    InjectiveImageCard(s, f);
    ValuePairImage(p1, p2);
    assert MapSet(s, f) == KendallPairs(p1, p2) by {
      forall y ensures y in MapSet(s, f) <==> y in (set pr | pr in s :: ValuePair(p1, pr)) {
      }
    }
  }

  /** All pairs i < j below n. */
  function AllPairs(n: nat): set<(int, int)> {
    set i, j | 0 <= i < j < n :: (i, j)
  }

  /** The pairs (i, c) with i below m. */
  function Column(m: nat, c: int): set<(int, int)> {
    set i | 0 <= i < m :: (i, c)
  }

  lemma {:induction false} ColumnCard(m: nat, c: int)
    ensures |Column(m, c)| == m
  {
    if m > 0 {
      ColumnCard(m - 1, c);
      assert Column(m, c) == Column(m - 1, c) + {(m - 1, c)};
    }
  }

  /** 0 + 1 + ... + (n - 1). */
  function Triangle(n: nat): (t: nat)
    ensures 2 * t == n * (n - 1)
  {
    if n == 0 then 0 else Triangle(n - 1) + (n - 1)
  }

  lemma {:induction false} AllPairsCount(n: nat)
    ensures |AllPairs(n)| == Triangle(n)
  {
    if n > 0 {
      AllPairsCount(n - 1);
      ColumnCard(n - 1, n - 1);
      assert AllPairs(n) == AllPairs(n - 1) + Column(n - 1, n - 1);
      assert AllPairs(n - 1) * Column(n - 1, n - 1) == {};
    }
  }

  lemma AllPairsCard(n: nat)
    ensures |AllPairs(n)| == n * (n - 1) / 2
  {
    AllPairsCount(n);
    ModUnique(n * (n - 1), 2, Triangle(n), 0);
  }

  /** `swap_distance`'s relabelling of vote_2 through the optional matching:
      `matching[vote_2[i]]` for every position, IndexError when a label is out
      of the matching's bounds. */
  function Relabel(v: seq<int>, matching: Option<seq<int>>): (r: Result<seq<int>>)
    ensures matching.None? ==> r == Ok(v)
    ensures r.Err? <==> matching.Some? && exists i :: 0 <= i < |v| && !InBounds(matching.value, v[i])
    ensures r.Err? ==> r.error == IndexError
    ensures r.Ok? ==> |r.value| == |v|
    ensures r.Ok? && matching.Some? ==> forall i :: 0 <= i < |v| ==> r.value[i] == At(matching.value, v[i])
  {
    if matching.None? then Ok(v)
    else if exists i :: 0 <= i < |v| && !InBounds(matching.value, v[i]) then Err(IndexError)
    else Ok(seq(|v|, i requires 0 <= i < |v| => At(matching.value, v[i])))
  }

  /** `swap_distance`: relabels a copy of vote_2, converts both votes to potes and
      counts the pairs as `swap_distance_between_potes` does. */
  method SwapDistance(vote1: seq<int>, vote2: seq<int>, matching: Option<seq<int>>) returns (r: Result<nat>)
    ensures Relabel(vote2, matching).Err? ==> r == Err(IndexError)
    ensures Relabel(vote2, matching).Ok? ==>
      (r.Err? <==> AnyPairFails(VoteToPote(vote1), VoteToPote(Relabel(vote2, matching).value)))
    ensures r.Err? ==> r.error == IndexError
    ensures r.Ok? ==> Relabel(vote2, matching).Ok?
    ensures r.Ok? ==> r.value == |SwapPairs(VoteToPote(vote1), VoteToPote(Relabel(vote2, matching).value))|
  {
    var newVote2 := new int[|vote2|](i requires 0 <= i < |vote2| => vote2[i]);
    if matching.Some? {
      for i := 0 to |vote2|
        invariant forall k :: 0 <= k < i ==> InBounds(matching.value, vote2[k]) && newVote2[k] == At(matching.value, vote2[k])
        invariant forall k :: i <= k < |vote2| ==> newVote2[k] == vote2[k]
      {
        if !InBounds(matching.value, vote2[i]) {
          return Err(IndexError);
        }
        newVote2[i] := At(matching.value, vote2[i]);
      }
    }
    assert Relabel(vote2, matching).Ok? && newVote2[..] == Relabel(vote2, matching).value;
    var pote1 := VoteToPote(vote1);
    var pote2 := VoteToPote(newVote2[..]);
    r := SwapDistanceBetweenPotes(pote1, pote2);
  }

  /** A pote is at swap distance 0 from itself, whatever its values: no pair
      is ordered two ways by one pote. */
  lemma SwapDistanceSelf(p: seq<int>)
    ensures SwapPairs(p, p) == {}
  {
    forall a, b | 0 <= a < b < |p| ensures !Swapped(p, p, p[a], p[b]) {
    }
  }

  /** The vote read from last to first. */
  function Reverse(v: seq<int>): (r: seq<int>)
    ensures |r| == |v| && forall k :: 0 <= k < |v| ==> r[k] == v[|v| - 1 - k]
  {
    seq(|v|, k requires 0 <= k < |v| => v[|v| - 1 - k])
  }

  /** A vote and its reverse disagree on every pair: swap distance n(n-1)/2. */
  lemma SwapDistanceReversed(vote: seq<int>)
    requires IsPermutation(vote)
    ensures ValuesIndex(VoteToPote(vote), VoteToPote(Reverse(vote)))
    ensures !AnyPairFails(VoteToPote(vote), VoteToPote(Reverse(vote)))
    ensures |SwapPairs(VoteToPote(vote), VoteToPote(Reverse(vote)))| == |vote| * (|vote| - 1) / 2
  {
    var n := |vote|;
    var p1 := VoteToPote(vote);
    var p2 := VoteToPote(Reverse(vote));
    ReversedPote(vote);
    SwapPairsCountKendall(p1, p2);
    AllDiscordant(p1, p2);
    AllPairsCard(n);
  }

  /** Reversing a vote mirrors every candidate's position. */
  lemma ReversedPote(vote: seq<int>)
    requires IsPermutation(vote)
    ensures IsPermutation(VoteToPote(vote)) && |VoteToPote(vote)| == |vote|
    ensures |VoteToPote(Reverse(vote))| == |vote|
    ensures forall c :: 0 <= c < |vote| ==> VoteToPote(Reverse(vote))[c] == |vote| - 1 - VoteToPote(vote)[c]
  {
    var n := |vote|;
    var rev := Reverse(vote);
    var p1 := VoteToPote(vote);
    VoteToPoteInverts(vote);
    var q := seq(n, c requires 0 <= c < n => n - 1 - p1[c]);
    assert IsPermutation(rev) by {
      forall a, b | 0 <= a < b < n ensures rev[a] != rev[b] {
        assert vote[n - 1 - a] != vote[n - 1 - b];
      }
    }
    assert IsInverse(rev, q) by {
      forall k | 0 <= k < n ensures q[rev[k]] == k {
        assert p1[vote[n - 1 - k]] == n - 1 - k;
      }
    }
    VoteToPoteInverts(rev);
    InverseUnique(rev, q, VoteToPote(rev));
  }

  /** When one pote is the mirror of the other, every pair of candidates is
      discordant. */
  lemma AllDiscordant(p1: seq<int>, p2: seq<int>)
    requires IsPermutation(p1) && |p2| == |p1|
    requires forall c :: 0 <= c < |p1| ==> p2[c] == |p1| - 1 - p1[c]
    ensures ValuesIndex(p1, p2)
    ensures KendallPairs(p1, p2) == AllPairs(|p1|)
  {
    forall pr | pr in AllPairs(|p1|) ensures pr in KendallPairs(p1, p2) {
      assert p1[pr.0] != p1[pr.1];
    }
  }

  // ---------------------------------------------------------------------
  // Spearman footrule

  /** The sum of |p1[c] - p2[c]| over the positions of p1. */
  function Footrule(p1: seq<int>, p2: seq<int>): (r: int)
    requires |p1| <= |p2|
    ensures r >= 0
  {
    if |p1| == 0 then 0
    else (if p1[0] < p2[0] then p2[0] - p1[0] else p1[0] - p2[0]) + Footrule(p1[1..], p2[1..])
  }

  /** `spearman_distance_between_potes`: the footrule over the positions of
      p1; a shorter p2 raises IndexError. */
  function Spearman(p1: seq<int>, p2: seq<int>): (r: Result<int>)
    ensures r.Err? <==> |p2| < |p1|
    ensures r.Err? ==> r.error == IndexError
    ensures r.Ok? ==> r.value >= 0
  {
    if |p2| < |p1| then Err(IndexError) else Ok(Footrule(p1, p2))
  }

  lemma {:induction false} FootruleZeroIff(p1: seq<int>, p2: seq<int>)
    requires |p1| <= |p2|
    ensures Footrule(p1, p2) == 0 <==> p1 == p2[..|p1|]
  {
    if |p1| > 0 {
      FootruleZeroIff(p1[1..], p2[1..]);
      assert p2[..|p1|] == [p2[0]] + p2[1..][..|p1| - 1];
      assert p1 == [p1[0]] + p1[1..];
    }
  }

  /** The integers of a pote read as reals. */
  function Reals(s: seq<int>): (r: seq<real>)
    ensures |r| == |s| && forall k :: 0 <= k < |s| ==> r[k] == s[k] as real
  {
    seq(|s|, k requires 0 <= k < |s| => s[k] as real)
  }

  /** The footrule is 0 exactly when the potes agree on the positions of p1. */
  lemma SpearmanZeroIff(p1: seq<int>, p2: seq<int>)
    ensures Spearman(p1, p2) == Ok(0) <==> |p1| <= |p2| && p1 == p2[..|p1|]
  {
    if |p1| <= |p2| {
      FootruleZeroIff(p1, p2);
    }
  }

  lemma {:induction false} FootruleIsSumOfGaps(p1: seq<int>, p2: seq<int>)
    requires |p1| == |p2|
    ensures Footrule(p1, p2) as real == SumOfGaps(Reals(p1), Reals(p2))
  {
    if |p1| > 0 {
      FootruleIsSumOfGaps(p1[1..], p2[1..]);
      assert Reals(p1)[1..] == Reals(p1[1..]);
      assert Reals(p2)[1..] == Reals(p2[1..]);
    }
  }

  /** For potes of one length the footrule is the L1 distance of the potes. */
  lemma SpearmanIsL1(p1: seq<int>, p2: seq<int>)
    requires |p1| == |p2|
    ensures Spearman(p1, p2).Ok? && L1(Reals(p1), Reals(p2)) == Ok(Spearman(p1, p2).value as real)
  {
    FootruleIsSumOfGaps(p1, p2);
  }
}
