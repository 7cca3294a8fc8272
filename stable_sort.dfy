/** Stable sorting by a numeric key. `Array.prototype.sort` is stable (since
    ECMAScript 2019); with a comparator that is a difference of keys, its result
    is the unique permutation of the input that is ordered by key and keeps the
    input order among equal keys. `SortBy` computes that list by insertion, and
    `StableSortUnique` shows that every stable sort gives the same list. */
module StableSort {

  predicate SortedByKey<T>(s: seq<T>, key: T -> real) {
    forall i, j | 0 <= i < j < |s| :: key(s[i]) <= key(s[j])
  }

  /** The elements of `s` whose key is `k`, in their order in `s`. */
  function WithKey<T>(s: seq<T>, key: T -> real, k: real): seq<T> {
    if s == [] then []
    else (if key(s[0]) == k then [s[0]] else []) + WithKey(s[1..], key, k)
  }

  /** A group holds elements of the list with that key, and the first element's
      group is not empty. */
  lemma {:induction false} WithKeyElements<T>(s: seq<T>, key: T -> real, k: real)
    ensures forall x :: x in WithKey(s, key, k) ==> x in s && key(x) == k
    ensures s != [] ==> s[0] in WithKey(s, key, key(s[0]))
  {
    if s != [] {
      WithKeyElements(s[1..], key, k);
    }
  }

  /** `r` is a stable sort of `s`: a permutation, ordered by key, and with every
      group of equal key in the order it has in `s`. */
  ghost predicate IsStableSortOf<T>(r: seq<T>, s: seq<T>, key: T -> real) {
    && multiset(r) == multiset(s)
    && SortedByKey(r, key)
    && forall k :: WithKey(r, key, k) == WithKey(s, key, k)
  }

  /** Puts `x` before the first element whose key is not below its own. */
  function Insert<T>(x: T, t: seq<T>, key: T -> real): seq<T> {
    if t == [] || key(x) <= key(t[0]) then [x] + t
    else [t[0]] + Insert(x, t[1..], key)
  }

  function SortBy<T>(s: seq<T>, key: T -> real): seq<T> {
    if s == [] then [] else Insert(s[0], SortBy(s[1..], key), key)
  }

  lemma {:induction false} InsertMultiset<T>(x: T, t: seq<T>, key: T -> real)
    ensures multiset(Insert(x, t, key)) == multiset(t) + multiset{x}
  {
    if t != [] && key(x) > key(t[0]) {
      InsertMultiset(x, t[1..], key);
      assert t == [t[0]] + t[1..];
    }
  }

  lemma {:induction false} InsertSorted<T>(x: T, t: seq<T>, key: T -> real)
    requires SortedByKey(t, key)
    ensures SortedByKey(Insert(x, t, key), key)
  {
    if t != [] && key(x) > key(t[0]) {
      InsertSorted(x, t[1..], key);
      InsertMultiset(x, t[1..], key);
      var r := Insert(x, t, key);
      forall j | 0 < j < |r| ensures key(r[0]) <= key(r[j]) {
        assert r[j] in multiset(Insert(x, t[1..], key));
        assert r[j] == x || r[j] in t[1..];
      }
    }
  }

  /** The group of a list that starts with `x`. */
  lemma WithKeyCons<T>(x: T, t: seq<T>, key: T -> real, k: real)
    ensures WithKey([x] + t, key, k) == (if key(x) == k then [x] else []) + WithKey(t, key, k)
  {
    assert ([x] + t)[0] == x;
    assert ([x] + t)[1..] == t;
  }

  lemma {:induction false} InsertWithKey<T>(x: T, t: seq<T>, key: T -> real, k: real)
    ensures WithKey(Insert(x, t, key), key, k) == (if key(x) == k then [x] else []) + WithKey(t, key, k)
  {
    if t == [] || key(x) <= key(t[0]) {
      WithKeyCons(x, t, key, k);
    } else {
      var hx: seq<T> := if key(x) == k then [x] else [];
      var h0: seq<T> := if key(t[0]) == k then [t[0]] else [];
      InsertWithKey(x, t[1..], key, k);
      WithKeyCons(t[0], Insert(x, t[1..], key), key, k);
      WithKeyCons(t[0], t[1..], key, k);
      assert t == [t[0]] + t[1..];
      assert hx == [] || h0 == [];
      calc {
        WithKey(Insert(x, t, key), key, k);
        h0 + (hx + WithKey(t[1..], key, k));
        { assert h0 + hx == hx + h0; }
        hx + (h0 + WithKey(t[1..], key, k));
        hx + WithKey(t, key, k);
      }
    }
  }

  /** The reference sort is a stable sort. */
  lemma {:induction false} SortByIsStableSort<T>(s: seq<T>, key: T -> real)
    ensures IsStableSortOf(SortBy(s, key), s, key)
  {
    if s != [] {
      SortByIsStableSort(s[1..], key);
      var t := SortBy(s[1..], key);
      InsertMultiset(s[0], t, key);
      InsertSorted(s[0], t, key);
      assert s == [s[0]] + s[1..];
      forall k ensures WithKey(SortBy(s, key), key, k) == WithKey(s, key, k) {
        InsertWithKey(s[0], t, key, k);
      }
    }
  }

  /** In a key-ordered list the first element has the least key. */
  lemma HeadHasLeastKey<T>(a: seq<T>, key: T -> real, x: T)
    requires SortedByKey(a, key) && x in a
    ensures key(a[0]) <= key(x)
  {
    var i :| 0 <= i < |a| && a[i] == x;
    assert i == 0 || key(a[0]) <= key(a[i]);
  }

  lemma HeadsEqual<T>(a: seq<T>, b: seq<T>, key: T -> real)
    requires a != [] && b != []
    requires SortedByKey(a, key) && SortedByKey(b, key)
    requires WithKey(a, key, key(a[0])) == WithKey(b, key, key(a[0]))
    requires WithKey(a, key, key(b[0])) == WithKey(b, key, key(b[0]))
    ensures a[0] == b[0]
  {
    WithKeyElements(a, key, key(b[0]));
    WithKeyElements(b, key, key(a[0]));
    HeadHasLeastKey(a, key, b[0]);
    HeadHasLeastKey(b, key, a[0]);
    assert WithKey(a, key, key(a[0]))[0] == a[0];
    assert WithKey(b, key, key(a[0]))[0] == b[0];
  }

  lemma TailGroup<T>(a: seq<T>, b: seq<T>, key: T -> real, k: real)
    requires a != [] && b != [] && a[0] == b[0]
    requires WithKey(a, key, k) == WithKey(b, key, k)
    ensures WithKey(a[1..], key, k) == WithKey(b[1..], key, k)
  {
    var ta, tb := WithKey(a[1..], key, k), WithKey(b[1..], key, k);
    var h := if key(a[0]) == k then [a[0]] else [];
    assert WithKey(a, key, k) == h + ta;
    assert WithKey(b, key, k) == h + tb;
    assert (h + ta)[|h|..] == ta;
    assert (h + tb)[|h|..] == tb;
  }

  /** Two key-ordered lists with the same groups of equal key are equal. */
  lemma {:induction false} SortedSameGroupsEqual<T>(a: seq<T>, b: seq<T>, key: T -> real)
    requires SortedByKey(a, key) && SortedByKey(b, key)
    requires forall k :: WithKey(a, key, k) == WithKey(b, key, k)
    ensures a == b
    decreases |a| + |b|
  {
    if a == [] || b == [] {
      if a != [] {
        WithKeyElements(a, key, key(a[0]));
      } else if b != [] {
        WithKeyElements(b, key, key(b[0]));
      }
    } else {
      HeadsEqual(a, b, key);
      forall k ensures WithKey(a[1..], key, k) == WithKey(b[1..], key, k) {
        TailGroup(a, b, key, k);
      }
      SortedSameGroupsEqual(a[1..], b[1..], key);
      assert a == [a[0]] + a[1..] && b == [b[0]] + b[1..];
    }
  }

  /** A stable sort is determined by its input: whichever stable algorithm the
      engine uses, its result is `SortBy`. */
  lemma StableSortUnique<T>(r: seq<T>, s: seq<T>, key: T -> real)
    requires IsStableSortOf(r, s, key)
    ensures r == SortBy(s, key)
  {
    SortByIsStableSort(s, key);
    SortedSameGroupsEqual(r, SortBy(s, key), key);
  }

  /** With a constant key the input order is kept. */
  lemma {:induction false} ConstantKeyKeepsOrder<T>(s: seq<T>, key: T -> real, c: real)
    requires forall x :: key(x) == c
    ensures SortBy(s, key) == s
  {
    if s != [] {
      ConstantKeyKeepsOrder(s[1..], key, c);
    }
  }

  /** Two elements are swapped exactly when the second has the smaller key. */
  lemma SortTwo<T>(x: T, y: T, key: T -> real)
    ensures SortBy([x, y], key) == if key(x) <= key(y) then [x, y] else [y, x]
  {
    assert [x, y][1..] == [y];
    assert [y][1..] == [];
    assert SortBy([y], key) == Insert(y, [], key) == [y];
    assert SortBy([x, y], key) == Insert(x, [y], key);
    if key(x) > key(y) {
      assert [y][1..] == [];
      assert Insert(x, [y], key) == [y] + Insert(x, [], key) == [y] + [x];
    }
  }
}
