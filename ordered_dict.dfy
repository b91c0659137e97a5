/**
 * Python dictionaries keep their keys in insertion order, and the code that
 * builds OHLCV mappings and call arguments depends on that order.  A `Dict`
 * is the list of a string-keyed dict's items in iteration order.
 */
module OrderedDicts {
  import opened Common

  type Dict<V> = seq<(string, V)>

  /** The keys in iteration order (`list(d)`). */
  function Keys<V>(d: Dict<V>): (ks: seq<string>)
    ensures |ks| == |d|
    ensures forall i :: 0 <= i < |d| ==> ks[i] == d[i].0
  {
    seq(|d|, i requires 0 <= i < |d| => d[i].0)
  }

  predicate Distinct(ks: seq<string>)
  {
    forall i, j :: 0 <= i < j < |ks| ==> ks[i] != ks[j]
  }

  /** The position of the first occurrence of `k`. */
  function IndexOf(ks: seq<string>, k: string): (i: nat)
    requires k in ks
    ensures i < |ks| && ks[i] == k
    ensures forall j :: 0 <= j < i ==> ks[j] != k
  {
    if ks[0] == k then 0 else 1 + IndexOf(ks[1..], k)
  }

  /** Appending a new key does not move the keys already present. */
  lemma IndexOfAppend(ks: seq<string>, x: string, k: string)
    requires k in ks
    ensures IndexOf(ks + [x], k) == IndexOf(ks, k)
  {
    var i, i' := IndexOf(ks, k), IndexOf(ks + [x], k);
    assert (ks + [x])[i] == k;
  }

  /** `d.get(k)`: the value stored under `k`, if any. */
  function Get<V>(d: Dict<V>, k: string): (r: Option<V>)
    ensures r.None? <==> k !in Keys(d)
    ensures r.Some? ==> (k, r.value) in d
    ensures Distinct(Keys(d)) ==> forall i :: 0 <= i < |d| && d[i].0 == k ==> r == Some(d[i].1)
  {
    if k in Keys(d) then Some(d[IndexOf(Keys(d), k)].1) else None
  }

  /** `d[k] = v`: replace the value of an existing key in place, or append a new item. */
  function Put<V>(d: Dict<V>, k: string, v: V): (r: Dict<V>)
    ensures Get(r, k) == Some(v)
    ensures forall j :: j != k ==> Get(r, j) == Get(d, j)
    ensures Keys(r) == if k in Keys(d) then Keys(d) else Keys(d) + [k]
    ensures Distinct(Keys(d)) ==> Distinct(Keys(r))
  {
    if k in Keys(d) then
      var r := d[IndexOf(Keys(d), k) := (k, v)];
      assert Keys(r) == Keys(d);
      r
    else
      var r := d + [(k, v)];
      assert Keys(r) == Keys(d) + [k];
      forall j | j != k && j in Keys(d)
        ensures Get(r, j) == Get(d, j)
      {
        IndexOfAppend(Keys(d), k, j);
      }
      r
  }

  /** The value of the last item with key `k`: what survives when the items are stored one after another. */
  function LastGet<V>(items: seq<(string, V)>, k: string): (r: Option<V>)
    ensures r.None? <==> k !in Keys(items)
  {
    if items == [] then None
    else
      var n := |items| - 1;
      assert Keys(items) == Keys(items[..n]) + [items[n].0];
      if items[n].0 == k then Some(items[n].1) else LastGet(items[..n], k)
  }

  /** Appending an item makes it the last one for its key and changes no other key's. */
  lemma LastGetSnoc<V>(items: seq<(string, V)>, key: string, v: V, k: string)
    ensures LastGet(items + [(key, v)], k) == if key == k then Some(v) else LastGet(items, k)
  {
    var xs := items + [(key, v)];
    assert xs[..|xs| - 1] == items;
  }

  /** The keys of `ks` that are not in `seen`, each once, in the order of their first occurrence. */
  function NewKeys(ks: seq<string>, seen: seq<string>): (r: seq<string>)
    ensures forall x :: x in r <==> x in ks && x !in seen
    ensures Distinct(r)
    decreases |ks|
  {
    if ks == [] then []
    else
      var n := |ks| - 1;
      var p := NewKeys(ks[..n], seen);
      assert forall x :: x in ks <==> x in ks[..n] || x == ks[n] by {
        assert ks == ks[..n] + [ks[n]];
      }
      if ks[n] in seen || ks[n] in p then p else p + [ks[n]]
  }

  /** Appending a key adds it at the end unless it is in `seen` or already there. */
  lemma NewKeysSnoc(ks: seq<string>, x: string, seen: seq<string>)
    ensures NewKeys(ks + [x], seen) ==
      if x in seen || x in NewKeys(ks, seen) then NewKeys(ks, seen) else NewKeys(ks, seen) + [x]
  {
    assert (ks + [x])[..|ks|] == ks;
  }

  /** Deduplicating first and then dropping `seen` is the same as doing both at once. */
  lemma {:induction false} NewKeysNested(ks: seq<string>, seen: seq<string>)
    ensures NewKeys(NewKeys(ks, []), seen) == NewKeys(ks, seen)
    decreases |ks|
  {
    if ks != [] {
      var n := |ks| - 1;
      var a, x := ks[..n], ks[n];
      assert ks == a + [x];
      var p := NewKeys(a, []);
      NewKeysSnoc(a, x, []);
      NewKeysSnoc(a, x, seen);
      NewKeysNested(a, seen);
      if x !in p {
        NewKeysSnoc(p, x, seen);
      }
    }
  }

  /**
   * Store the items into `d` one after another, as `d.update(items)` and a
   * dict display or comprehension over `items` do.
   */
  function Puts<V>(d: Dict<V>, items: seq<(string, V)>): (r: Dict<V>)
    ensures forall k :: Get(r, k) == if k in Keys(items) then LastGet(items, k) else Get(d, k)
    ensures |d| <= |r| && Keys(r)[..|d|] == Keys(d)
    ensures forall k :: k in Keys(r) <==> k in Keys(d) || k in Keys(items)
    ensures Distinct(Keys(d)) ==> Distinct(Keys(r))
    decreases |items|
  {
    if items == [] then d
    else
      var n := |items| - 1;
      assert Keys(items) == Keys(items[..n]) + [items[n].0];
      var p := Puts(d, items[..n]);
      var r := Put(p, items[n].0, items[n].1);
      assert Keys(r)[..|d|] == Keys(p)[..|d|];
      r
  }

  /** The keys after storing the items: those of `d`, then the new keys of the items in order of first occurrence. */
  lemma {:induction false} PutsKeys<V>(d: Dict<V>, items: seq<(string, V)>)
    ensures Keys(Puts(d, items)) == Keys(d) + NewKeys(Keys(items), Keys(d))
    decreases |items|
  {
    if items != [] {
      var n := |items| - 1;
      var k := items[n].0;
      assert Keys(items) == Keys(items[..n]) + [k];
      PutsKeys(d, items[..n]);
      NewKeysSnoc(Keys(items[..n]), k, Keys(d));
      var q := NewKeys(Keys(items[..n]), Keys(d));
      assert k in Keys(Puts(d, items[..n])) <==> k in Keys(d) || k in q;
    }
  }

  /** In a dict (no key twice) the last item with a key is its only one. */
  lemma {:induction false} LastGetOfDict<V>(d: Dict<V>, k: string)
    requires Distinct(Keys(d))
    ensures LastGet(d, k) == Get(d, k)
    decreases |d|
  {
    if d != [] {
      var n := |d| - 1;
      assert Keys(d) == Keys(d[..n]) + [d[n].0];
      assert Distinct(Keys(d[..n]));
      LastGetOfDict(d[..n], k);
      if d[n].0 == k {
        assert k !in Keys(d[..n]);
      }
    }
  }

  /** `{**a, **b}` and `a.update(b)` for a dict `b`: the keys of `b` take `b`'s values, every other key keeps `a`'s. */
  lemma MergeGet<V>(a: Dict<V>, b: Dict<V>, k: string)
    requires Distinct(Keys(b))
    ensures Get(Puts(a, b), k) == if k in Keys(b) then Get(b, k) else Get(a, k)
  {
    LastGetOfDict(b, k);
  }
}
