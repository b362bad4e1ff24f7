/** Stable sorting by a two-part integer key, as Python's list sort does it. */
module StableSorting {
  type Key = (int, int)

  predicate KeyLe(a: Key, b: Key) {
    a.0 < b.0 || (a.0 == b.0 && a.1 <= b.1)
  }

  ghost predicate SortedBy<T>(xs: seq<T>, key: T -> Key) {
    forall i, j :: 0 <= i <= j < |xs| ==> KeyLe(key(xs[i]), key(xs[j]))
  }

  /** Puts `x` behind everything that is not greater. */
  function Insert<T>(ys: seq<T>, x: T, key: T -> Key): (r: seq<T>)
    ensures |r| == |ys| + 1
  {
    if ys == [] then [x]
    else
      var n := |ys| - 1;
      if KeyLe(key(ys[n]), key(x)) then ys + [x] else Insert(ys[..n], x, key) + [ys[n]]
  }

  function StableSort<T>(xs: seq<T>, key: T -> Key): (r: seq<T>)
    ensures |r| == |xs|
  {
    if xs == [] then [] else Insert(StableSort(xs[..|xs| - 1], key), xs[|xs| - 1], key)
  }

  lemma {:induction false} InsertKeepsElements<T>(ys: seq<T>, x: T, key: T -> Key)
    ensures multiset(Insert(ys, x, key)) == multiset(ys) + multiset{x}
  {
    if ys != [] {
      var n := |ys| - 1;
      assert ys == ys[..n] + [ys[n]];
      InsertKeepsElements(ys[..n], x, key);
    }
  }

  lemma {:induction false} InsertIsSorted<T>(ys: seq<T>, x: T, key: T -> Key)
    requires SortedBy(ys, key)
    ensures SortedBy(Insert(ys, x, key), key)
    ensures multiset(Insert(ys, x, key)) == multiset(ys) + multiset{x}
  {
    InsertKeepsElements(ys, x, key);
    if ys != [] {
      var n := |ys| - 1;
      if !KeyLe(key(ys[n]), key(x)) {
        InsertIsSorted(ys[..n], x, key);
        var r := Insert(ys[..n], x, key);
        forall i | 0 <= i < |r|
          ensures KeyLe(key(r[i]), key(ys[n]))
        {
          InsertedFrom(ys[..n], x, key, r[i]);
        }
      }
    }
  }

  lemma InsertedFrom<T>(ys: seq<T>, x: T, key: T -> Key, y: T)
    requires y in Insert(ys, x, key)
    ensures y == x || y in ys
  {
    InsertKeepsElements(ys, x, key);
    assert y in multiset(Insert(ys, x, key));
  }

  lemma {:induction false} StableSortIsSorted<T>(xs: seq<T>, key: T -> Key)
    ensures SortedBy(StableSort(xs, key), key) && multiset(StableSort(xs, key)) == multiset(xs)
  {
    if xs != [] {
      StableSortIsSorted(xs[..|xs| - 1], key);
      InsertIsSorted(StableSort(xs[..|xs| - 1], key), xs[|xs| - 1], key);
      assert xs == xs[..|xs| - 1] + [xs[|xs| - 1]];
    }
  }

  /** The elements with key `k`, in order. */
  function WithKey<T>(xs: seq<T>, key: T -> Key, k: Key): seq<T> {
    if xs == [] then []
    else WithKey(xs[..|xs| - 1], key, k) + if key(xs[|xs| - 1]) == k then [xs[|xs| - 1]] else []
  }

  lemma {:induction false} InsertIsStable<T>(ys: seq<T>, x: T, key: T -> Key, k: Key)
    requires SortedBy(ys, key)
    ensures WithKey(Insert(ys, x, key), key, k) == WithKey(ys + [x], key, k)
  {
    assert (ys + [x])[..|ys|] == ys;
    if ys != [] {
      var n := |ys| - 1;
      if !KeyLe(key(ys[n]), key(x)) {
        InsertIsStable(ys[..n], x, key, k);
        assert (ys[..n] + [x])[..n] == ys[..n];
        var r := Insert(ys[..n], x, key);
        assert (r + [ys[n]])[..|r|] == r;
      }
    }
  }

  /** Elements with equal keys keep their order. */
  lemma {:induction false} StableSortIsStable<T>(xs: seq<T>, key: T -> Key, k: Key)
    ensures WithKey(StableSort(xs, key), key, k) == WithKey(xs, key, k)
  {
    if xs != [] {
      var init := xs[..|xs| - 1];
      StableSortIsStable(init, key, k);
      StableSortIsSorted(init, key);
      InsertIsStable(StableSort(init, key), xs[|xs| - 1], key, k);
      var s := StableSort(init, key);
      assert (s + [xs[|xs| - 1]])[..|s|] == s;
    }
  }

  lemma {:induction false} SortedStaysPut<T>(xs: seq<T>, key: T -> Key)
    requires SortedBy(xs, key)
    ensures StableSort(xs, key) == xs
  {
    if xs != [] {
      SortedStaysPut(xs[..|xs| - 1], key);
    }
  }
}
