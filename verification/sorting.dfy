/** Python's `sorted(xs, key=...)`: a stable sort by an integer key.
    Elements with equal keys keep their input order, which is what makes
    `Counter.most_common` break ties by first occurrence. */
module Sorting {

  predicate SortedByKey<T>(xs: seq<T>, key: T -> int) {
    forall i, j :: 0 <= i < j < |xs| ==> key(xs[i]) <= key(xs[j])
  }

  predicate NoDups<T(==)>(xs: seq<T>) {
    forall i, j :: 0 <= i < j < |xs| ==> xs[i] != xs[j]
  }

  /** `xs.index(x)`: the first position of `x`. */
  function IndexOf<T(==)>(xs: seq<T>, x: T): (i: nat)
    requires x in xs
    ensures i < |xs| && xs[i] == x && x !in xs[..i]
  {
    if xs[0] == x then 0
    else
      assert xs == [xs[0]] + xs[1..];
      1 + IndexOf(xs[1..], x)
  }

  /** Inserts `x` before the first element whose key is not smaller. */
  function Insert<T(!new)>(x: T, xs: seq<T>, key: T -> int): (r: seq<T>)
    ensures multiset(r) == multiset(xs) + multiset{x}
    ensures |r| == |xs| + 1
    ensures forall y :: y in r <==> y in xs || y == x
  {
    if xs == [] || key(x) <= key(xs[0]) then [x] + xs
    else
      assert xs == [xs[0]] + xs[1..];
      [xs[0]] + Insert(x, xs[1..], key)
  }

  function SortByKey<T(!new)>(xs: seq<T>, key: T -> int): (r: seq<T>)
    ensures multiset(r) == multiset(xs)
    ensures |r| == |xs|
    ensures forall y :: y in r <==> y in xs
  {
    if xs == [] then []
    else
      assert xs == [xs[0]] + xs[1..];
      Insert(xs[0], SortByKey(xs[1..], key), key)
  }

  predicate AllKeysAtLeast<T>(xs: seq<T>, key: T -> int, lo: int) {
    forall i :: 0 <= i < |xs| ==> lo <= key(xs[i])
  }

  lemma {:induction false} InsertKeysAtLeast<T(!new)>(x: T, xs: seq<T>, key: T -> int, lo: int)
    requires lo <= key(x) && AllKeysAtLeast(xs, key, lo)
    ensures AllKeysAtLeast(Insert(x, xs, key), key, lo)
  {
    if xs != [] && key(x) > key(xs[0]) {
      InsertKeysAtLeast(x, xs[1..], key, lo);
    }
  }

  lemma {:induction false} InsertSorted<T(!new)>(x: T, xs: seq<T>, key: T -> int)
    requires SortedByKey(xs, key)
    ensures SortedByKey(Insert(x, xs, key), key)
  {
    if xs != [] && key(x) > key(xs[0]) {
      InsertSorted(x, xs[1..], key);
      InsertKeysAtLeast(x, xs[1..], key, key(xs[0]));
    }
  }

  /** The result is ordered by key and is a permutation of the input. */
  lemma {:induction false} SortByKeySorted<T(!new)>(xs: seq<T>, key: T -> int)
    ensures SortedByKey(SortByKey(xs, key), key)
    ensures multiset(SortByKey(xs, key)) == multiset(xs)
  {
    if xs != [] {
      SortByKeySorted(xs[1..], key);
      InsertSorted(xs[0], SortByKey(xs[1..], key), key);
    }
  }

  lemma {:induction false} NoDupsHead<T>(xs: seq<T>)
    requires NoDups(xs) && xs != []
    ensures xs[0] !in xs[1..] && NoDups(xs[1..])
  {
    forall k | 0 <= k < |xs| - 1 ensures xs[1..][k] != xs[0] {
      assert xs[1..][k] == xs[k + 1];
    }
  }

  lemma {:induction false} IndexOfCons<T>(h: T, t: seq<T>, a: T)
    requires a in t && a != h
    ensures IndexOf([h] + t, a) == 1 + IndexOf(t, a)
  {
    assert ([h] + t)[1..] == t;
  }

  /** Inserting `x` does not change the relative order of other elements. */
  lemma {:induction false} InsertKeepsOrder<T(!new)>(x: T, xs: seq<T>, key: T -> int, a: T, b: T)
    requires a in xs && b in xs && a != x && b != x
    ensures IndexOf(Insert(x, xs, key), a) < IndexOf(Insert(x, xs, key), b) <==> IndexOf(xs, a) < IndexOf(xs, b)
  {
    if xs == [] || key(x) <= key(xs[0]) {
      IndexOfCons(x, xs, a);
      IndexOfCons(x, xs, b);
    } else {
      var t := xs[1..];
      assert xs == [xs[0]] + t;
      var rt := Insert(x, t, key);
      if a != xs[0] && b != xs[0] {
        InsertKeepsOrder(x, t, key, a, b);
        IndexOfCons(xs[0], rt, a);
        IndexOfCons(xs[0], rt, b);
        IndexOfCons(xs[0], t, a);
        IndexOfCons(xs[0], t, b);
      }
    }
  }

  /** `x` lands before every element whose key is not smaller than its own. */
  lemma {:induction false} InsertBefore<T(!new)>(x: T, xs: seq<T>, key: T -> int, b: T)
    requires x !in xs && b in xs && key(x) <= key(b)
    ensures IndexOf(Insert(x, xs, key), x) < IndexOf(Insert(x, xs, key), b)
  {
    if xs == [] || key(x) <= key(xs[0]) {
      IndexOfCons(x, xs, b);
    } else {
      var t := xs[1..];
      assert xs == [xs[0]] + t;
      var rt := Insert(x, t, key);
      InsertBefore(x, t, key, b);
      IndexOfCons(xs[0], rt, x);
      IndexOfCons(xs[0], rt, b);
    }
  }

  lemma {:induction false} InsertNoDups<T(!new)>(x: T, xs: seq<T>, key: T -> int)
    requires NoDups(xs) && x !in xs
    ensures NoDups(Insert(x, xs, key))
  {
    if xs != [] && key(x) > key(xs[0]) {
      var t := xs[1..];
      InsertNoDups(x, t, key);
      NoDupsHead(xs);
      var r := Insert(x, xs, key);
      assert r == [xs[0]] + Insert(x, t, key);
    }
  }

  lemma {:induction false} SortByKeyNoDups<T(!new)>(xs: seq<T>, key: T -> int)
    requires NoDups(xs)
    ensures NoDups(SortByKey(xs, key))
  {
    if xs != [] {
      var t := xs[1..];
      SortByKeyNoDups(t, key);
      NoDupsHead(xs);
      InsertNoDups(xs[0], SortByKey(t, key), key);
    }
  }

  /** Stability: two distinct elements with equal keys keep their relative
      order. */
  lemma {:induction false} SortByKeyStable<T(!new)>(xs: seq<T>, key: T -> int, a: T, b: T)
    requires NoDups(xs)
    requires a in xs && b in xs && key(a) == key(b)
    ensures IndexOf(SortByKey(xs, key), a) < IndexOf(SortByKey(xs, key), b) <==> IndexOf(xs, a) < IndexOf(xs, b)
  {
    if a != b {
      var t := xs[1..];
      assert xs == [xs[0]] + t;
      var st := SortByKey(t, key);
      NoDupsHead(xs);
      if a == xs[0] {
        InsertBefore(xs[0], st, key, b);
      } else if b == xs[0] {
        InsertBefore(xs[0], st, key, a);
      } else {
        SortByKeyStable(t, key, a, b);
        InsertKeepsOrder(xs[0], st, key, a, b);
        IndexOfCons(xs[0], t, a);
        IndexOfCons(xs[0], t, b);
      }
    }
  }
}
