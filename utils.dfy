/** Instance-id naming and list rotation (src/mapof/core/utils.py and its
    mapel-core copy, which agree on both). */
module Utils {
  import opened Wrappers
  import opened Text
  import opened NumberTheory

  // ---------------------------------------------------------------------
  // get_instance_id

  /** `get_instance_id`: the family id itself for a single-instance family,
      otherwise the family id, '_' and the instance's number. */
  function GetInstanceId(single: bool, familyId: string, j: int): (id: string)
    ensures single ==> id == familyId
    ensures !single ==> |id| > |familyId| + 1 && id[..|familyId|] == familyId && id[|familyId|] == '_'
  {
    if single then familyId else familyId + "_" + IntToString(j)
  }

  /** The number of a family member can be read back from its id, so the
      members of one family get distinct ids. */
  lemma InstanceIdNumber(familyId: string, j: int)
    ensures ParseInt(GetInstanceId(false, familyId, j)[|familyId| + 1..]) == Some(j)
  {
    assert GetInstanceId(false, familyId, j)[|familyId| + 1..] == IntToString(j);
    IntToStringParses(j);
  }

  /** Members j1 != j2 of one family get different ids. */
  lemma InstanceIdsDistinct(familyId: string, j1: int, j2: int)
    requires j1 != j2
    ensures GetInstanceId(false, familyId, j1) != GetInstanceId(false, familyId, j2)
  {
    InstanceIdNumber(familyId, j1);
    InstanceIdNumber(familyId, j2);
  }

  // ---------------------------------------------------------------------
  // rotate

  /** `rotate(vector, shift)`: the elements from position shift mod n onwards,
      then those before it. Python's % by len(vector) fails on an empty vector;
      for a positive length it agrees with Dafny's %, the result lying in 0..n-1
      for negative shifts too. */
  function Rotate<T>(v: seq<T>, shift: int): (r: Result<seq<T>>)
    ensures r.Err? <==> |v| == 0
    ensures r.Err? ==> r.error == ZeroDivisionError
    ensures r.Ok? ==> |r.value| == |v| && multiset(r.value) == multiset(v)
    ensures r.Ok? ==> forall i :: 0 <= i < |v| ==> r.value[i] == v[(i + shift) % |v|]
  {
    if |v| == 0 then Err(ZeroDivisionError)
    else
      var s := shift % |v|;
      assert v == v[..s] + v[s..];
      var r := v[s..] + v[..s];
      forall i | 0 <= i < |v|
        ensures r[i] == v[(i + shift) % |v|]
      {
        ModShifted(i, shift, |v|);
      }
      Ok(r)
  }

  /** (i + shift) mod n, for i < n, is i + (shift mod n) with at most one wrap. */
  lemma ModShifted(i: int, shift: int, n: int)
    requires 0 <= i < n
    ensures (i + shift) % n == if i + shift % n < n then i + shift % n else i + shift % n - n
  {
    var s := shift % n;
    assert shift == (shift / n) * n + s;
    var q := if i + s < n then shift / n else shift / n + 1;
    var m := if i + s < n then i + s else i + s - n;
    assert i + shift == n * q + m && 0 <= m < n;
    ModUnique(i + shift, n, q, m);
  }

  /** A shift by a multiple of the length (0 in particular) changes nothing. */
  lemma RotateByMultiple<T>(v: seq<T>, k: int)
    requires |v| > 0
    ensures Rotate(v, k * |v|) == Ok(v)
  {
    ModOfMultiple(k, |v|);
    assert (k * |v|) % |v| == 0;
    assert Rotate(v, k * |v|) == Ok(v[0..] + v[..0]);
    assert v[0..] + v[..0] == v;
  }

  /** Rotating back by the same shift restores the vector. */
  lemma RotateBack<T>(v: seq<T>, shift: int)
    requires |v| > 0
    ensures Rotate(Rotate(v, shift).value, -shift) == Ok(v)
  {
    var n := |v|;
    var r := Rotate(v, shift).value;
    var b := Rotate(r, -shift).value;
    forall i | 0 <= i < n
      ensures b[i] == v[i]
    {
      var j := (i - shift) % n;
      ShiftBack(i, shift, n);
      assert b[i] == r[j];
    }
    assert |b| == n;
    assert b == v;
  }

  /** Going back by shift and forward again lands where one started. */
  lemma ShiftBack(i: int, shift: int, n: int)
    requires 0 <= i < n
    ensures ((i - shift) % n + shift) % n == i
  {
    var j := (i - shift) % n;
    var q := (i - shift) / n;
    assert i - shift == n * q + j;
    assert j + shift == n * (-q) + i;
    ModUnique(j + shift, n, -q, i);
  }

  /** The cases the unit tests fix: shift 2 and shift 6 of [1, 2, 3, 4]. */
  lemma RotateExamples()
    ensures Rotate([1, 2, 3, 4], 2) == Ok([3, 4, 1, 2])
    ensures Rotate([1, 2, 3, 4], 6) == Ok([3, 4, 1, 2])
  {
    var v := [1, 2, 3, 4];
    ModUnique(2, 4, 0, 2);
    ModUnique(6, 4, 1, 2);
    assert Rotate(v, 2) == Ok(v[2..] + v[..2]);
    assert Rotate(v, 6) == Ok(v[2..] + v[..2]);
    assert v[2..] + v[..2] == [3, 4, 1, 2];
  }
}
