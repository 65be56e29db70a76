/** Python dictionaries with string keys, as ordered sequences of entries whose
    keys are distinct. Assigning `d[k] = v` replaces the value of an existing key
    where it stands and appends a new key at the end. */
module Dicts {

  function KeysOf<V>(entries: seq<(string, V)>): (ks: seq<string>)
    ensures |ks| == |entries|
    ensures forall k :: 0 <= k < |entries| ==> ks[k] == entries[k].0
  {
    seq(|entries|, k requires 0 <= k < |entries| => entries[k].0)
  }

  predicate DistinctKeys<V>(entries: seq<(string, V)>) {
    forall a, b :: 0 <= a < b < |entries| ==> entries[a].0 != entries[b].0
  }

  /** Where `key` stands. */
  function IndexOfKey<V>(entries: seq<(string, V)>, key: string): (i: nat)
    requires key in KeysOf(entries)
    ensures i < |entries| && entries[i].0 == key
  {
    if entries[|entries| - 1].0 == key then |entries| - 1
    else
      assert KeysOf(entries) == KeysOf(entries[..|entries| - 1]) + [entries[|entries| - 1].0];
      IndexOfKey(entries[..|entries| - 1], key)
  }

  /** `d[key] = value`. */
  function Put<V>(entries: seq<(string, V)>, key: string, value: V): (r: seq<(string, V)>)
    requires DistinctKeys(entries)
    ensures DistinctKeys(r)
    ensures key in KeysOf(entries) ==> KeysOf(r) == KeysOf(entries)
    ensures key !in KeysOf(entries) ==> KeysOf(r) == KeysOf(entries) + [key]
    ensures forall k :: k in KeysOf(r) <==> k in KeysOf(entries) || k == key
    ensures (key, value) in r
    ensures forall e :: e in r ==> e == (key, value) || (e in entries && e.0 != key)
    ensures forall e :: e in entries && e.0 != key ==> e in r
  {
    if key in KeysOf(entries) then
      var i := IndexOfKey(entries, key);
      var r := entries[i := (key, value)];
      assert KeysOf(r) == KeysOf(entries);
      assert forall e :: e in r ==> e == (key, value) || (e in entries && e.0 != key) by {
        forall e | e in r ensures e == (key, value) || (e in entries && e.0 != key) {
          var j :| 0 <= j < |r| && r[j] == e;
          if j != i { assert e == entries[j] && entries[j].0 != entries[i].0; }
        }
      }
      r
    else
      var r := entries + [(key, value)];
      assert KeysOf(r) == KeysOf(entries) + [key];
      r
  }

  /** Assigning a key keeps every key already there. */
  lemma {:induction false} PutKeeps<V>(entries: seq<(string, V)>, key: string, value: V, k: string)
    requires DistinctKeys(entries) && k in KeysOf(entries)
    ensures k in KeysOf(Put(entries, key, value))
  {
  }

  /** Assigning a new key appends it. */
  lemma {:induction false} PutNew<V>(entries: seq<(string, V)>, key: string, value: V)
    requires DistinctKeys(entries) && key !in KeysOf(entries)
    ensures Put(entries, key, value) == entries + [(key, value)]
  {
  }

  /** The entries `(keys[k], values[k])` for the first `n` positions. */
  function Zip<V>(keys: seq<string>, values: seq<V>, n: nat): (r: seq<(string, V)>)
    requires n <= |keys| && n <= |values|
    ensures |r| == n && forall k :: 0 <= k < n ==> r[k] == (keys[k], values[k])
  {
    seq(n, k requires 0 <= k < n => (keys[k], values[k]))
  }

  /** With distinct keys, assigning the `n`-th key after the first `n - 1`
      gives the first `n` entries. */
  lemma {:induction false} ZipStep<V>(keys: seq<string>, values: seq<V>, n: nat)
    requires 0 < n <= |keys| && n <= |values|
    requires forall a, b :: 0 <= a < b < |keys| ==> keys[a] != keys[b]
    ensures DistinctKeys(Zip(keys, values, n - 1))
    ensures Zip(keys, values, n) == Put(Zip(keys, values, n - 1), keys[n - 1], values[n - 1])
  {
    var r0 := Zip(keys, values, n - 1);
    assert keys[n - 1] !in KeysOf(r0);
    PutNew(r0, keys[n - 1], values[n - 1]);
    assert Zip(keys, values, n) == r0 + [(keys[n - 1], values[n - 1])];
  }

  /** `dict(pairs)`: each pair assigned in turn, so a repeated key keeps
      its first position and takes its last value. */
  function Collect<V>(pairs: seq<(string, V)>): (r: seq<(string, V)>)
    ensures DistinctKeys(r) && |r| <= |pairs|
  {
    if pairs == [] then []
    else
      var last := pairs[|pairs| - 1];
      Put(Collect(pairs[..|pairs| - 1]), last.0, last.1)
  }

  /** One more pair is one more assignment. */
  lemma {:induction false} CollectSnoc<V>(pairs: seq<(string, V)>, p: (string, V))
    ensures Collect(pairs + [p]) == Put(Collect(pairs), p.0, p.1)
  {
    assert (pairs + [p])[..|pairs|] == pairs;
  }

  /** Every item of the dictionary is one of the pairs. */
  lemma {:induction false} CollectFrom<V>(pairs: seq<(string, V)>)
    ensures forall e :: e in Collect(pairs) ==> e in pairs
  {
    if pairs != [] {
      var init := pairs[..|pairs| - 1];
      CollectFrom(init);
      assert forall e :: e in init ==> e in pairs;
    }
  }

  /** Every pair's key is in the dictionary. */
  lemma {:induction false} CollectKeys<V>(pairs: seq<(string, V)>, k: nat)
    requires k < |pairs|
    ensures pairs[k].0 in KeysOf(Collect(pairs))
  {
    var init := pairs[..|pairs| - 1];
    var last := pairs[|pairs| - 1];
    if k < |init| {
      assert init[k] == pairs[k];
      CollectKeys(init, k);
      PutKeeps(Collect(init), last.0, last.1, pairs[k].0);
    }
  }

  lemma {:induction false} CollectDistinct<V>(entries: seq<(string, V)>)
    requires DistinctKeys(entries)
    ensures Collect(entries) == entries
  {
    if entries != [] {
      var init := entries[..|entries| - 1];
      var last := entries[|entries| - 1];
      CollectDistinct(init);
      assert last.0 !in KeysOf(init);
      assert init + [last] == entries;
    }
  }
}
