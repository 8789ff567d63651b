/**
 A location-keyed map that iterates in ascending key order, as the pass's
 `std::map<size_t, GLSLVariable>` does. It is kept as an association list with
 strictly ascending keys; `ToMap` gives its meaning as a Dafny map.
 */
module LocationMap {

  datatype Entry<V> = Entry(key: nat, value: V)

  ghost predicate StrictlyAscending<V>(m: seq<Entry<V>>) {
    forall i, j :: 0 <= i < j < |m| ==> m[i].key < m[j].key
  }

  /** The abstract map an association list stands for. */
  function ToMap<V>(m: seq<Entry<V>>): map<nat, V> {
    if |m| == 0 then map[] else ToMap(m[1..])[m[0].key := m[0].value]
  }

  function KeySet<V>(m: seq<Entry<V>>): set<nat> {
    set i | 0 <= i < |m| :: m[i].key
  }

  /** The abstract map's keys are the keys of the entries. */
  lemma {:induction false} ToMapKeys<V>(m: seq<Entry<V>>)
    ensures ToMap(m).Keys == KeySet(m)
  {
    if |m| > 0 {
      ToMapKeys(m[1..]);
      forall x | x in KeySet(m)
        ensures x in {m[0].key} + KeySet(m[1..])
      {
        var i :| 0 <= i < |m| && m[i].key == x;
        if i > 0 {
          assert m[1..][i - 1].key == x;
        }
      }
    }
  }

  /** With distinct keys, every entry is what the abstract map holds at its key. */
  lemma {:induction false} ToMapAt<V>(m: seq<Entry<V>>, i: nat)
    requires StrictlyAscending(m)
    requires i < |m|
    ensures m[i].key in ToMap(m) && ToMap(m)[m[i].key] == m[i].value
  {
    if i > 0 {
      ToMapAt(m[1..], i - 1);
    }
  }

  /** `map[k] = v`: overwrites the entry at `k` or inserts a new one in key order. */
  function Put<V>(m: seq<Entry<V>>, k: nat, v: V): (r: seq<Entry<V>>)
    ensures |r| > 0 && (r[0].key == k || (|m| > 0 && r[0].key == m[0].key))
    ensures StrictlyAscending(m) ==> StrictlyAscending(r)
    ensures StrictlyAscending(m) ==> ToMap(r) == ToMap(m)[k := v]
  {
    if |m| == 0 then [Entry(k, v)]
    else if k < m[0].key then [Entry(k, v)] + m
    else if k == m[0].key then [Entry(k, v)] + m[1..]
    else
      var rest := Put(m[1..], k, v);
      assert ([m[0]] + rest)[1..] == rest;
      [m[0]] + rest
  }

  /** Storing at a key above every present key appends. */
  lemma {:induction false} PutAboveAppends<V>(m: seq<Entry<V>>, k: nat, v: V)
    requires StrictlyAscending(m)
    requires forall i :: 0 <= i < |m| ==> m[i].key < k
    ensures Put(m, k, v) == m + [Entry(k, v)]
  {
    if |m| > 0 {
      PutAboveAppends(m[1..], k, v);
      assert m == [m[0]] + m[1..];
    }
  }
}
