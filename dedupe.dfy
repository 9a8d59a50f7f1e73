/** De-duplication by id through an ECMAScript Map, as the gallery and the
    testimonials do with their fetched rows:
    the rows keyed by id in a Map, read back as an array of its values.
    The Map is modelled by its observable state (section 24.1 of ECMA-262):
    its keys in insertion order and the value each key currently holds. */
module Dedupe {
  import opened Wrappers

  datatype OrderedMap<K, V> = OrderedMap(keys: seq<K>, values: map<K, V>)

  predicate Distinct<K(==)>(s: seq<K>) {
    forall i, j :: 0 <= i < j < |s| ==> s[i] != s[j]
  }

  /** No key is listed twice, and the listed keys are exactly the mapped ones. */
  ghost predicate Valid<K(!new), V>(m: OrderedMap<K, V>) {
    Distinct(m.keys) && forall k :: k in m.values <==> k in m.keys
  }

  /** Map.prototype.set (section 24.1.3.9 of ECMA-262): a present key keeps
      its place and takes the new value; a new key goes to the end. */
  function Set<K(==,!new), V>(m: OrderedMap<K, V>, k: K, v: V): (r: OrderedMap<K, V>)
    requires Valid(m)
    ensures Valid(r)
    ensures k in r.values && r.values[k] == v
    ensures forall j :: j != k ==> (j in r.values <==> j in m.values)
    ensures forall j :: j != k && j in m.values ==> r.values[j] == m.values[j]
    ensures k in m.keys ==> r.keys == m.keys
    ensures k !in m.keys ==> r.keys == m.keys + [k]
  {
    if k in m.values then OrderedMap(m.keys, m.values[k := v])
    else OrderedMap(m.keys + [k], m.values[k := v])
  }

  /** The Map built from the (id, row) pairs: an empty Map, then one `set`
      per row, in row order. */
  function Build<K(==,!new), T>(rows: seq<T>, id: T -> K): (m: OrderedMap<K, T>)
    ensures Valid(m)
  {
    if rows == [] then OrderedMap([], map[])
    else Set(Build(rows[..|rows| - 1], id), id(rows[|rows| - 1]), rows[|rows| - 1])
  }

  /** The Map's values iterator drained into an array: the values in key order (section 24.1.3.11 of ECMA-262). */
  function Values<K(==,!new), V>(m: OrderedMap<K, V>): (vs: seq<V>)
    requires Valid(m)
    ensures |vs| == |m.keys|
    ensures forall i :: 0 <= i < |vs| ==> vs[i] == m.values[m.keys[i]]
  {
    seq(|m.keys|, i requires 0 <= i < |m.keys| => m.values[m.keys[i]])
  }

  function DedupeById<K(==,!new), T>(rows: seq<T>, id: T -> K): seq<T> {
    Values(Build(rows, id))
  }

  // ---------------------------------------------------------------------
  // Reference definitions
  // ---------------------------------------------------------------------

  /** The ids of the rows, in order. */
  function Ids<K, T>(rows: seq<T>, id: T -> K): (ids: seq<K>)
    ensures |ids| == |rows|
    ensures forall i :: 0 <= i < |rows| ==> ids[i] == id(rows[i])
  {
    seq(|rows|, i requires 0 <= i < |rows| => id(rows[i]))
  }

  /** The last row that carries id k, if any. */
  function LastWith<K(==), T>(rows: seq<T>, id: T -> K, k: K): Option<T> {
    if rows == [] then None
    else if id(rows[|rows| - 1]) == k then Some(rows[|rows| - 1])
    else LastWith(rows[..|rows| - 1], id, k)
  }

  /** The position of the first occurrence of k. */
  function FirstIndex<K(==)>(ids: seq<K>, k: K): (i: nat)
    requires k in ids
    ensures i < |ids| && ids[i] == k
    ensures forall j :: 0 <= j < i ==> ids[j] != k
  {
    if ids[0] == k then 0 else 1 + FirstIndex(ids[1..], k)
  }

  /** LastWith finds a row exactly when some row carries the id, and then it
      finds the row at the last such position. */
  lemma {:induction false} LastWithIsLast<K(!new), T>(rows: seq<T>, id: T -> K, k: K)
    ensures LastWith(rows, id, k).None? <==> k !in Ids(rows, id)
    ensures LastWith(rows, id, k).Some? ==>
      exists i :: 0 <= i < |rows| && id(rows[i]) == k && LastWith(rows, id, k).value == rows[i] &&
        forall j :: i < j < |rows| ==> id(rows[j]) != k
  {
    if rows != [] {
      var p := rows[..|rows| - 1];
      LastWithIsLast(p, id, k);
      assert Ids(rows, id) == Ids(p, id) + [id(rows[|rows| - 1])];
      if id(rows[|rows| - 1]) != k && LastWith(p, id, k).Some? {
        var i :| 0 <= i < |p| && id(p[i]) == k && LastWith(p, id, k).value == p[i] &&
          forall j :: i < j < |p| ==> id(p[j]) != k;
        assert rows[i] == p[i];
      }
    }
  }

  // ---------------------------------------------------------------------
  // What the Map holds after the rows are set
  // ---------------------------------------------------------------------

  lemma IdsSnoc<K, T>(rows: seq<T>, id: T -> K)
    requires rows != []
    ensures Ids(rows, id) == Ids(rows[..|rows| - 1], id) + [id(rows[|rows| - 1])]
  {
  }

  /** The Map's keys are the ids seen, each holding the last row with it. */
  lemma {:induction false} BuildHoldsLast<K(!new), T>(rows: seq<T>, id: T -> K)
    ensures forall k :: k in Build(rows, id).values <==> k in Ids(rows, id)
    ensures forall k :: k in Build(rows, id).values ==> LastWith(rows, id, k) == Some(Build(rows, id).values[k])
  {
    if rows != [] {
      BuildHoldsLast(rows[..|rows| - 1], id);
      IdsSnoc(rows, id);
    }
  }

  /** One more row: a seen id leaves the keys as they were, a new id is
      appended to them. */
  lemma KeysStep<K(!new), T>(rows: seq<T>, id: T -> K)
    requires rows != []
    ensures var p, x := rows[..|rows| - 1], id(rows[|rows| - 1]);
      Build(rows, id).keys == if x in Ids(p, id) then Build(p, id).keys else Build(p, id).keys + [x]
  {
    var p := rows[..|rows| - 1];
    assert forall k :: k in Build(p, id).values <==> k in Ids(p, id) by {
      BuildHoldsLast(p, id);
    }
  }

  /** Every key occurs among the ids, and the keys are listed in order of
      their first occurrence there. */
  predicate FirstOrdered<K(==)>(keys: seq<K>, ids: seq<K>) {
    (forall i :: 0 <= i < |keys| ==> keys[i] in ids) &&
    forall i, j :: 0 <= i < j < |keys| ==> FirstIndex(ids, keys[i]) < FirstIndex(ids, keys[j])
  }

  lemma FirstOrderedSnoc<K(!new)>(keys: seq<K>, ids: seq<K>, x: K)
    requires FirstOrdered(keys, ids)
    ensures FirstOrdered(keys, ids + [x])
  {
    forall i | 0 <= i < |keys| ensures keys[i] in ids + [x] && FirstIndex(ids + [x], keys[i]) == FirstIndex(ids, keys[i]) {
      FirstIndexSnoc(ids, x, keys[i]);
    }
  }

  lemma FirstOrderedNew<K(!new)>(keys: seq<K>, ids: seq<K>, x: K)
    requires FirstOrdered(keys, ids) && x !in ids
    ensures FirstOrdered(keys + [x], ids + [x])
  {
    FirstOrderedSnoc(keys, ids, x);
    FirstIndexNew(ids, x);
    var ks := keys + [x];
    forall i | 0 <= i < |keys| ensures ks[i] == keys[i] && FirstIndex(ids + [x], keys[i]) < |ids| {
      FirstIndexSnoc(ids, x, keys[i]);
    }
  }

  /** The Map's keys are in order of first occurrence among the ids. */
  lemma {:induction false} BuildFirstOrder<K(!new), T>(rows: seq<T>, id: T -> K)
    ensures FirstOrdered(Build(rows, id).keys, Ids(rows, id))
  {
    if rows != [] {
      var p, x := rows[..|rows| - 1], id(rows[|rows| - 1]);
      BuildFirstOrder(p, id);
      KeysStep(rows, id);
      IdsSnoc(rows, id);
      if x in Ids(p, id) {
        FirstOrderedSnoc(Build(p, id).keys, Ids(p, id), x);
      } else {
        FirstOrderedNew(Build(p, id).keys, Ids(p, id), x);
      }
    }
  }

  lemma {:induction false} FirstIndexSnoc<K(!new)>(s: seq<K>, x: K, k: K)
    requires k in s
    ensures k in s + [x] && FirstIndex(s + [x], k) == FirstIndex(s, k)
  {
    if s[0] != k {
      assert (s + [x])[1..] == s[1..] + [x];
      FirstIndexSnoc(s[1..], x, k);
    }
  }

  lemma FirstIndexNew<K(!new)>(s: seq<K>, x: K)
    requires x !in s
    ensures x in s + [x] && FirstIndex(s + [x], x) == |s|
  {
    assert forall j :: 0 <= j < |s| ==> (s + [x])[j] == s[j];
  }

  /** Appending an id keeps the ids distinct exactly when it is new. */
  lemma DistinctSnoc<K(!new)>(s: seq<K>, x: K)
    ensures Distinct(s + [x]) <==> Distinct(s) && x !in s
  {
    var t := s + [x];
    if Distinct(t) {
      forall i, j | 0 <= i < j < |s| ensures s[i] != s[j] { assert t[i] == s[i] && t[j] == s[j]; }
      forall i | 0 <= i < |s| ensures s[i] != x { assert t[i] == s[i] && t[|s|] == x; }
    }
    if Distinct(s) && x !in s {
      forall i, j | 0 <= i < j < |t| ensures t[i] != t[j] {
        if j < |s| { assert t[i] == s[i] && t[j] == s[j]; } else { assert t[i] == s[i]; }
      }
    }
  }

  /** The Map has at most one key per row, and exactly one per row when the
      ids are distinct; then its keys are the ids in order. */
  lemma {:induction false} BuildSize<K(!new), T>(rows: seq<T>, id: T -> K)
    ensures |Build(rows, id).keys| <= |rows|
    ensures |Build(rows, id).keys| == |rows| <==> Distinct(Ids(rows, id))
    ensures Distinct(Ids(rows, id)) ==> Build(rows, id).keys == Ids(rows, id)
  {
    if rows != [] {
      var p, x := rows[..|rows| - 1], id(rows[|rows| - 1]);
      BuildSize(p, id);
      KeysStep(rows, id);
      IdsSnoc(rows, id);
      DistinctSnoc(Ids(p, id), x);
    }
  }

  // ---------------------------------------------------------------------
  // Properties of DedupeById
  // ---------------------------------------------------------------------

  lemma ResultIds<K(!new), T>(rows: seq<T>, id: T -> K)
    ensures Ids(DedupeById(rows, id), id) == Build(rows, id).keys
  {
    var m := Build(rows, id);
    var r := DedupeById(rows, id);
    BuildHoldsLast(rows, id);
    forall i | 0 <= i < |r| ensures id(r[i]) == m.keys[i] {
      var k := m.keys[i];
      LastWithIsLast(rows, id, k);
    }
  }

  /** No two rows of the result share an id. */
  lemma DedupeUniqueIds<K(!new), T>(rows: seq<T>, id: T -> K)
    ensures Distinct(Ids(DedupeById(rows, id), id))
  {
    ResultIds(rows, id);
  }

  /** Every id of the input occurs in the result and no other. */
  lemma DedupeCoversIds<K(!new), T>(rows: seq<T>, id: T -> K)
    ensures forall k :: k in Ids(rows, id) <==> k in Ids(DedupeById(rows, id), id)
  {
    ResultIds(rows, id);
    BuildHoldsLast(rows, id);
  }

  /** The result is never longer than the input, and it is as long exactly
      when the input ids are already distinct. */
  lemma DedupeLength<K(!new), T>(rows: seq<T>, id: T -> K)
    ensures |DedupeById(rows, id)| <= |rows|
    ensures |DedupeById(rows, id)| == |rows| <==> Distinct(Ids(rows, id))
  {
    BuildSize(rows, id);
  }

  /** The row kept for each id is the last input row carrying it. */
  lemma DedupeKeepsLast<K(!new), T>(rows: seq<T>, id: T -> K)
    ensures forall i :: 0 <= i < |DedupeById(rows, id)| ==>
      LastWith(rows, id, id(DedupeById(rows, id)[i])) == Some(DedupeById(rows, id)[i])
  {
    ResultIds(rows, id);
    BuildHoldsLast(rows, id);
  }

  /** The result lists the ids in order of their first occurrence in the input. */
  lemma DedupeFirstOrder<K(!new), T>(rows: seq<T>, id: T -> K)
    ensures forall k :: k in Ids(DedupeById(rows, id), id) ==> k in Ids(rows, id)
    ensures forall i, j :: 0 <= i < j < |DedupeById(rows, id)| ==>
      FirstIndex(Ids(rows, id), id(DedupeById(rows, id)[i])) < FirstIndex(Ids(rows, id), id(DedupeById(rows, id)[j]))
  {
    ResultIds(rows, id);
    BuildFirstOrder(rows, id);
  }

  /** De-duplicating twice is de-duplicating once. */
  lemma DedupeIdempotent<K(!new), T>(rows: seq<T>, id: T -> K)
    ensures DedupeById(DedupeById(rows, id), id) == DedupeById(rows, id)
  {
    DedupeUniqueIds(rows, id);
    DistinctUnchanged(DedupeById(rows, id), id);
  }

  /** Rows whose ids are already distinct come back unchanged. */
  lemma DistinctUnchanged<K(!new), T>(rows: seq<T>, id: T -> K)
    ensures Distinct(Ids(rows, id)) ==> DedupeById(rows, id) == rows
  {
    if Distinct(Ids(rows, id)) {
      var r := DedupeById(rows, id);
      BuildSize(rows, id);
      BuildHoldsLast(rows, id);
      forall i | 0 <= i < |rows| ensures r[i] == rows[i] {
        LastWithDistinct(rows, id, i);
      }
    }
  }

  /** With distinct ids, the last row carrying a row's id is that row. */
  lemma {:induction false} LastWithDistinct<K(!new), T>(rows: seq<T>, id: T -> K, i: int)
    requires Distinct(Ids(rows, id)) && 0 <= i < |rows|
    ensures LastWith(rows, id, id(rows[i])) == Some(rows[i])
  {
    var n := |rows| - 1;
    if i < n {
      var p := rows[..n];
      IdsSnoc(rows, id);
      DistinctSnoc(Ids(p, id), id(rows[n]));
      assert Ids(rows, id)[i] == id(rows[i]) && Ids(rows, id)[n] == id(rows[n]);
      LastWithDistinct(p, id, i);
    }
  }
}
