/** Python dicts whose iteration order matters (instances, families, feature
    columns): the list of their items in insertion order. Assigning to a present
    key replaces its value in place; a new key is appended at the end. */
module Dicts {
  import opened Wrappers

  /** The items of a dict, in insertion order. */
  type Dict<K(==), V> = seq<(K, V)>

  /** The keys, in iteration order. */
  function Keys<K(==), V>(d: Dict<K, V>): (ks: seq<K>)
    ensures |ks| == |d| && forall i :: 0 <= i < |d| ==> ks[i] == d[i].0
  {
    if d == [] then [] else [d[0].0] + Keys(d[1..])
  }

  /** No key occurs twice, as in every real dict. */
  predicate UniqueKeys<K(==), V>(d: Dict<K, V>) {
    forall i, j :: 0 <= i < j < |d| ==> d[i].0 != d[j].0
  }

  /** `d[k]`: the value stored under k, or KeyError. */
  function Get<K(==), V>(d: Dict<K, V>, k: K): (r: Result<V>)
    ensures r.Ok? <==> k in Keys(d)
    ensures r.Err? ==> r.error == KeyError
    ensures r.Ok? ==> (k, r.value) in d
  {
    if d == [] then Err(KeyError)
    else if d[0].0 == k then Ok(d[0].1)
    else
      assert Keys(d) == [d[0].0] + Keys(d[1..]);
      Get(d[1..], k)
  }

  /** `d[k] = v`. */
  function Set<K(==), V>(d: Dict<K, V>, k: K, v: V): (r: Dict<K, V>)
    ensures |r| == if k in Keys(d) then |d| else |d| + 1
  {
    if d == [] then [(k, v)]
    else if d[0].0 == k then [(k, v)] + d[1..]
    else
      assert Keys(d) == [d[0].0] + Keys(d[1..]);
      [d[0]] + Set(d[1..], k, v)
  }

  /** Assignment keeps the key order (a new key goes last), stores v under k and
      leaves every other key's value as it was. */
  lemma {:induction false} SetGet<K, V>(d: Dict<K, V>, k: K, v: V)
    ensures Keys(Set(d, k, v)) == if k in Keys(d) then Keys(d) else Keys(d) + [k]
    ensures Get(Set(d, k, v), k) == Ok(v)
    ensures forall k' :: k' != k ==> Get(Set(d, k, v), k') == Get(d, k')
  {
    if d != [] && d[0].0 != k {
      SetGet(d[1..], k, v);
      var r := Set(d, k, v);
      assert r[1..] == Set(d[1..], k, v);
      assert Keys(r) == [d[0].0] + Keys(r[1..]);
      assert Keys(d) == [d[0].0] + Keys(d[1..]);
    } else if d != [] {
      var r := Set(d, k, v);
      assert r[1..] == d[1..];
      assert Keys(r) == [k] + Keys(d[1..]);
      assert Keys(d) == [k] + Keys(d[1..]);
    }
  }

  /** Assignment keeps the keys unique. */
  lemma {:induction false} SetUnique<K, V>(d: Dict<K, V>, k: K, v: V)
    requires UniqueKeys(d)
    ensures UniqueKeys(Set(d, k, v))
  {
    SetGet(d, k, v);
    var r := Set(d, k, v);
    assert forall i :: 0 <= i < |d| ==> Keys(d)[i] == d[i].0;
    forall i, j | 0 <= i < j < |r|
      ensures r[i].0 != r[j].0
    {
      assert Keys(r)[i] == r[i].0 && Keys(r)[j] == r[j].0;
      if j < |d| {
        assert Keys(d)[i] == Keys(r)[i] && Keys(d)[j] == Keys(r)[j];
      } else {
        assert Keys(r)[j] == k && Keys(d)[i] == Keys(r)[i];
      }
    }
  }

  /** Every item after an assignment is the assigned one or was there before. */
  lemma {:induction false} SetItems<K, V>(d: Dict<K, V>, k: K, v: V)
    ensures forall x :: x in Set(d, k, v) ==> x == (k, v) || x in d
  {
    if d != [] && d[0].0 != k {
      SetItems(d[1..], k, v);
      assert Set(d, k, v) == [d[0]] + Set(d[1..], k, v);
      forall x | x in Set(d, k, v)
        ensures x == (k, v) || x in d
      {
        if x != d[0] {
          assert x in Set(d[1..], k, v);
          assert x == (k, v) || x in d[1..];
        }
      }
    } else if d != [] {
      forall x | x in Set(d, k, v)
        ensures x == (k, v) || x in d
      {
        if x != (k, v) {
          assert x in d[1..];
        }
      }
    }
  }

  /** Assigning to a new key appends the item. */
  lemma {:induction false} SetNew<K, V>(d: Dict<K, V>, k: K, v: V)
    requires k !in Keys(d)
    ensures Set(d, k, v) == d + [(k, v)]
  {
    if d != [] {
      assert Keys(d) == [d[0].0] + Keys(d[1..]);
      SetNew(d[1..], k, v);
      assert [d[0]] + (d[1..] + [(k, v)]) == d + [(k, v)];
    }
  }
}
