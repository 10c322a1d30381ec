/**
  Python dicts (here, those with string keys) keep their keys in insertion order: assigning to an existing key
  changes its value in place, assigning to a new key appends it. A dict is
  modelled here as its list of items.
*/
module OrderedDict {
  import opened Wrappers

  type Dict<V> = seq<(string, V)>

  /** The keys of a list of items, in order (`list(d.keys())`). */
  function Keys<V>(d: seq<(string, V)>): (ks: seq<string>)
    ensures |ks| == |d| && forall i :: 0 <= i < |d| ==> ks[i] == d[i].0
  {
    seq(|d|, i requires 0 <= i < |d| => d[i].0)
  }

  /** The keys of two lists of items, one after the other. */
  lemma KeysConcat<V>(a: seq<(string, V)>, b: seq<(string, V)>)
    ensures Keys(a + b) == Keys(a) + Keys(b)
  {
  }

  predicate Distinct(ks: seq<string>) {
    forall i, j :: 0 <= i < j < |ks| ==> ks[i] != ks[j]
  }

  /** `ks.index(k)`: the position of the first occurrence of `k`. */
  function IndexOf(ks: seq<string>, k: string): (i: nat)
    requires k in ks
    ensures i < |ks| && ks[i] == k && k !in ks[..i]
  {
    if ks[0] == k then 0 else 1 + IndexOf(ks[1..], k)
  }

  /** `d.get(k)`. */
  function Get<V>(d: Dict<V>, k: string): Option<V> {
    if k in Keys(d) then Some(d[IndexOf(Keys(d), k)].1) else None
  }

  /** Appending a key does not move the keys already there. */
  lemma {:induction false} IndexOfSnoc(ks: seq<string>, x: string, k: string)
    requires k in ks + [x]
    ensures IndexOf(ks + [x], k) == if k in ks then IndexOf(ks, k) else |ks|
  {
    if ks != [] && ks[0] != k {
      assert (ks + [x])[1..] == ks[1..] + [x];
      IndexOfSnoc(ks[1..], x, k);
    }
  }

  /** `d[k] = v`. */
  function Put<V>(d: Dict<V>, k: string, v: V): (r: Dict<V>)
    ensures Keys(r) == if k in Keys(d) then Keys(d) else Keys(d) + [k]
    ensures Get(r, k) == Some(v)
    ensures forall k' :: k' != k ==> Get(r, k') == Get(d, k')
  {
    if k in Keys(d) then
      var r := d[IndexOf(Keys(d), k) := (k, v)];
      assert Keys(r) == Keys(d);
      r
    else
      var r := d + [(k, v)];
      assert Keys(r) == Keys(d) + [k];
      assert forall k' | k' in Keys(r) :: IndexOf(Keys(r), k') == if k' in Keys(d) then IndexOf(Keys(d), k') else |d| by {
        forall k' | k' in Keys(r) ensures IndexOf(Keys(r), k') == if k' in Keys(d) then IndexOf(Keys(d), k') else |d| {
          IndexOfSnoc(Keys(d), k, k');
        }
      }
      r
  }

  /** `d.update(items)`: assign every item in turn. */
  function Update<V>(d: Dict<V>, items: seq<(string, V)>): Dict<V>
  {
    if items == [] then d
    else
      var last := items[|items| - 1];
      Put(Update(d, items[..|items| - 1]), last.0, last.1)
  }

  /** A dict built from items, as `dict(items)` or a dict comprehension builds it. */
  function FromItems<V>(items: seq<(string, V)>): Dict<V> {
    Update([], items)
  }

  /** The value of the last item with key `k`. */
  function LastValue<V>(items: seq<(string, V)>, k: string): (r: Option<V>)
    ensures r.None? <==> k !in Keys(items)
  {
    if items == [] then None
    else if items[|items| - 1].0 == k then Some(items[|items| - 1].1)
    else
      assert Keys(items) == Keys(items[..|items| - 1]) + [items[|items| - 1].0];
      LastValue(items[..|items| - 1], k)
  }

  /** The keys `ks` followed by the keys of `xs` not seen before, in first-seen order. */
  function AppendNew(ks: seq<string>, xs: seq<string>): seq<string>
  {
    if xs == [] then ks
    else
      var r := AppendNew(ks, xs[..|xs| - 1]);
      if xs[|xs| - 1] in r then r else r + [xs[|xs| - 1]]
  }

  lemma {:induction false} AppendNewMember(ks: seq<string>, xs: seq<string>, k: string)
    ensures k in AppendNew(ks, xs) <==> k in ks || k in xs
  {
    if xs != [] {
      AppendNewMember(ks, xs[..|xs| - 1], k);
      assert xs == xs[..|xs| - 1] + [xs[|xs| - 1]];
    }
  }

  lemma {:induction false} AppendNewDistinct(ks: seq<string>, xs: seq<string>)
    requires Distinct(ks)
    ensures Distinct(AppendNew(ks, xs))
  {
    if xs != [] {
      AppendNewDistinct(ks, xs[..|xs| - 1]);
    }
  }

  /** After `d.update(items)` the value of `k` is that of its last item, if it has one. */
  lemma {:induction false} GetUpdate<V>(d: Dict<V>, items: seq<(string, V)>, k: string)
    ensures Get(Update(d, items), k) == if k in Keys(items) then LastValue(items, k) else Get(d, k)
  {
    if items != [] {
      var init := items[..|items| - 1];
      assert Keys(items) == Keys(init) + [items[|items| - 1].0];
      GetUpdate(d, init, k);
    }
  }

  /** `d.update(items)` keeps the keys of `d` in place and appends the new ones in first-seen order. */
  lemma {:induction false} KeysUpdate<V>(d: Dict<V>, items: seq<(string, V)>)
    ensures Keys(Update(d, items)) == AppendNew(Keys(d), Keys(items))
  {
    if items != [] {
      var init := items[..|items| - 1];
      assert Keys(items)[..|items| - 1] == Keys(init);
      KeysUpdate(d, init);
    }
  }

  /** A dict never holds a key twice. */
  lemma DistinctUpdate<V>(d: Dict<V>, items: seq<(string, V)>)
    requires Distinct(Keys(d))
    ensures Distinct(Keys(Update(d, items)))
  {
    KeysUpdate(d, items);
    AppendNewDistinct(Keys(d), Keys(items));
  }

  lemma IndexOfDistinct(ks: seq<string>, i: nat)
    requires Distinct(ks) && i < |ks|
    ensures IndexOf(ks, ks[i]) == i
  {
  }

  /** Two dicts with the same keys in the same order and the same values are the same dict. */
  lemma DictExt<V>(a: Dict<V>, b: Dict<V>)
    requires Distinct(Keys(a)) && Keys(a) == Keys(b)
    requires forall k :: Get(a, k) == Get(b, k)
    ensures a == b
  {
    forall i | 0 <= i < |a| ensures a[i] == b[i] {
      var k := a[i].0;
      IndexOfDistinct(Keys(a), i);
      assert Get(a, k) == Some(a[i].1);
      assert Get(b, k) == Some(b[i].1);
    }
  }

  lemma {:induction false} AppendNewOfNew(ks: seq<string>, xs: seq<string>)
    ensures AppendNew(ks, AppendNew([], xs)) == AppendNew(ks, xs)
  {
    if xs != [] {
      var init, x := xs[..|xs| - 1], xs[|xs| - 1];
      var r := AppendNew([], init);
      AppendNewOfNew(ks, init);
      AppendNewMember([], init, x);
      AppendNewMember(ks, init, x);
      if x !in r {
        assert (r + [x])[..|r|] == r;
      }
    }
  }

  /** A dict whose keys are distinct: its last item for a key is its only one. */
  lemma {:induction false} LastValueDistinct<V>(d: Dict<V>, k: string)
    requires Distinct(Keys(d))
    ensures LastValue(d, k) == Get(d, k)
  {
    if d != [] {
      var init := d[..|d| - 1];
      assert Keys(d) == Keys(init) + [d[|d| - 1].0];
      LastValueDistinct(init, k);
      if k in Keys(init) {
        var i := IndexOf(Keys(init), k);
        assert Keys(d)[i] == k;
        IndexOfDistinct(Keys(d), i);
      } else if d[|d| - 1].0 == k {
        IndexOfDistinct(Keys(d), |d| - 1);
      }
    }
  }

  /** `d.update(dict(items))` is `d.update(items)`. */
  lemma UpdateFromItems<V>(d: Dict<V>, items: seq<(string, V)>)
    requires Distinct(Keys(d))
    ensures Update(d, FromItems(items)) == Update(d, items)
  {
    var e := FromItems(items);
    DistinctUpdate([], items);
    DistinctUpdate(d, e);
    DistinctUpdate(d, items);
    KeysUpdate(d, e);
    KeysUpdate([], items);
    KeysUpdate(d, items);
    AppendNewOfNew(Keys(d), Keys(items));
    forall k ensures Get(Update(d, e), k) == Get(Update(d, items), k) {
      GetUpdate(d, e, k);
      GetUpdate(d, items, k);
      GetUpdate([], items, k);
      LastValueDistinct(e, k);
      AppendNewMember([], Keys(items), k);
    }
    DictExt(Update(d, e), Update(d, items));
  }

  /** `d.update(items + [item])` assigns `item` last. */
  lemma UpdateSnoc<V>(d: Dict<V>, items: seq<(string, V)>, item: (string, V))
    ensures Update(d, items + [item]) == Put(Update(d, items), item.0, item.1)
  {
    var all := items + [item];
    assert all[..|all| - 1] == items;
  }

  /** Updating with two lists of items in turn is updating with their concatenation. */
  lemma {:induction false} UpdateConcat<V>(d: Dict<V>, xs: seq<(string, V)>, ys: seq<(string, V)>)
    ensures Update(Update(d, xs), ys) == Update(d, xs + ys)
  {
    if ys == [] {
      assert xs + ys == xs;
    } else {
      var init, last := ys[..|ys| - 1], ys[|ys| - 1];
      assert ys == init + [last];
      assert xs + ys == (xs + init) + [last];
      UpdateConcat(d, xs, init);
      UpdateSnoc(d, xs + init, last);
      UpdateSnoc(Update(d, xs), init, last);
    }
  }
}
