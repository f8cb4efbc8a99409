/** The dict-of-dicts keyed by instance id in which distances, times, standard
    deviations and matchings are kept (`table[id_1][id_2]`). The outer keys are
    kept as a set of rows, and the inner entries as one map keyed by the pair:
    `table[a][b]` exists iff (a, b) is an entry, and writing it needs row a. */
module NestedMaps {
  import opened Wrappers

  /** Instance ids are strings. */
  type Id = string

  /** `table`: its outer keys (`rows`) and its entries `table[a][b]`. */
  datatype Table<T> = Table(rows: set<Id>, entries: map<(Id, Id), T>)

  /** Every entry lies in an existing row, as in a real dict of dicts. */
  ghost predicate Consistent<T>(t: Table<T>) {
    forall p :: p in t.entries ==> p.0 in t.rows
  }

  /** `table[a][b]` if both keys are present. */
  function Lookup<T>(t: Table<T>, a: Id, b: Id): Option<T> {
    if (a, b) in t.entries then Some(t.entries[(a, b)]) else None
  }

  /** `table[a][b] = v`, which requires the row for a. */
  function Put<T>(t: Table<T>, a: Id, b: Id, v: T): (r: Table<T>)
    requires a in t.rows
    ensures r.rows == t.rows
  {
    Table(t.rows, t.entries[(a, b) := v])
  }

  /** `table[a][b] = v; table[b][a] = table[a][b]`. */
  function Mirror<T>(t: Table<T>, a: Id, b: Id, v: T): (r: Table<T>)
    requires a in t.rows && b in t.rows
    ensures r.rows == t.rows
  {
    Table(t.rows, t.entries[(a, b) := v][(b, a) := v])
  }

  /** A write sets exactly one entry and keeps the table a dict of dicts. */
  lemma PutLookup<T>(t: Table<T>, a: Id, b: Id, v: T)
    requires a in t.rows
    ensures Consistent(t) ==> Consistent(Put(t, a, b, v))
    ensures Lookup(Put(t, a, b, v), a, b) == Some(v)
    ensures forall x, y :: (x, y) != (a, b) ==> Lookup(Put(t, a, b, v), x, y) == Lookup(t, x, y)
  {
  }

  /** A mirrored write sets exactly the two entries (a, b) and (b, a). */
  lemma MirrorLookup<T>(t: Table<T>, a: Id, b: Id, v: T)
    requires a in t.rows && b in t.rows
    ensures Consistent(t) ==> Consistent(Mirror(t, a, b, v))
    ensures Lookup(Mirror(t, a, b, v), a, b) == Some(v) && Lookup(Mirror(t, a, b, v), b, a) == Some(v)
    ensures forall x, y :: (x, y) != (a, b) && (x, y) != (b, a) ==>
      Lookup(Mirror(t, a, b, v), x, y) == Lookup(t, x, y)
  {
  }

  /** A table with an empty row for every id: `{instance_id: {} for instance_id in ids}`. */
  function EmptyRows<T>(ids: seq<Id>): (t: Table<T>)
    ensures Consistent(t)
    ensures forall a :: a in t.rows <==> a in ids
    ensures forall a, b :: Lookup(t, a, b) == None
  {
    Table(set a | a in ids, map[])
  }

  /** Every stored entry has its mirror image with the same value. */
  ghost predicate Symmetric<T>(t: Table<T>) {
    forall a, b :: Lookup(t, a, b) == Lookup(t, b, a)
  }
}
