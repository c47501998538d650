/** A stable sort by key, standing for the library sorts of the source. */
module Sorting {
  predicate SortedBy<T>(xs: seq<T>, key: T -> real) {
    |xs| <= 1 || (key(xs[0]) <= key(xs[1]) && SortedBy(xs[1..], key))
  }

  function Insert<T>(x: T, xs: seq<T>, key: T -> real): seq<T> {
    if xs == [] || key(x) <= key(xs[0]) then [x] + xs else [xs[0]] + Insert(x, xs[1..], key)
  }

  function SortBy<T>(xs: seq<T>, key: T -> real): seq<T> {
    if xs == [] then [] else Insert(xs[0], SortBy(xs[1..], key), key)
  }

  lemma {:induction false} InsertElements<T>(x: T, xs: seq<T>, key: T -> real)
    ensures multiset(Insert(x, xs, key)) == multiset{x} + multiset(xs)
  {
    if xs == [] || key(x) <= key(xs[0]) {
    } else {
      InsertElements(x, xs[1..], key);
      assert xs == [xs[0]] + xs[1..];
    }
  }

  lemma {:induction false} InsertOrder<T>(x: T, xs: seq<T>, key: T -> real)
    requires SortedBy(xs, key)
    ensures var ys := Insert(x, xs, key);
            ys != [] && SortedBy(ys, key) && (ys[0] == x || (xs != [] && ys[0] == xs[0]))
  {
    if xs == [] {
    } else if key(x) <= key(xs[0]) {
      assert ([x] + xs)[1..] == xs;
    } else {
      InsertOrder(x, xs[1..], key);
      assert ([xs[0]] + Insert(x, xs[1..], key))[1..] == Insert(x, xs[1..], key);
    }
  }

  lemma {:induction false} SortElements<T>(xs: seq<T>, key: T -> real)
    ensures multiset(SortBy(xs, key)) == multiset(xs)
  {
    if xs != [] {
      SortElements(xs[1..], key);
      InsertElements(xs[0], SortBy(xs[1..], key), key);
      assert xs == [xs[0]] + xs[1..];
    }
  }

  lemma {:induction false} SortOrder<T>(xs: seq<T>, key: T -> real)
    ensures SortedBy(SortBy(xs, key), key)
  {
    if xs != [] {
      SortOrder(xs[1..], key);
      InsertOrder(xs[0], SortBy(xs[1..], key), key);
    }
  }

  lemma SortLength<T>(xs: seq<T>, key: T -> real)
    ensures |SortBy(xs, key)| == |xs|
    ensures forall x :: x in SortBy(xs, key) <==> x in xs
  {
    SortElements(xs, key);
    assert |multiset(SortBy(xs, key))| == |multiset(xs)|;
    forall x ensures x in SortBy(xs, key) <==> x in xs {
      assert x in multiset(SortBy(xs, key)) <==> x in multiset(xs);
    }
  }

  lemma {:induction false} SortedAt<T>(xs: seq<T>, key: T -> real, i: nat, j: nat)
    requires SortedBy(xs, key) && i <= j < |xs|
    ensures key(xs[i]) <= key(xs[j])
  {
    if i > 0 {
      SortedAt(xs[1..], key, i - 1, j - 1);
    } else if j > 0 {
      SortedAt(xs[1..], key, 0, j - 1);
    }
  }

  /** Elements with equal keys are equal. */
  ghost predicate KeyDetermines<T(!new)>(xs: seq<T>, key: T -> real) {
    forall x, y :: x in xs && y in xs && key(x) == key(y) ==> x == y
  }

  lemma TailElements<T>(a: seq<T>)
    requires a != []
    ensures multiset(a[1..]) == multiset(a) - multiset{a[0]}
  {
    assert a == [a[0]] + a[1..];
  }

  lemma TailSorted<T>(a: seq<T>, key: T -> real)
    requires a != [] && SortedBy(a, key)
    ensures SortedBy(a[1..], key)
  {}

  lemma TailDetermines<T(!new)>(a: seq<T>, key: T -> real)
    requires a != [] && KeyDetermines(a, key)
    ensures KeyDetermines(a[1..], key)
  {}

  lemma ElementsDetermine<T(!new)>(a: seq<T>, b: seq<T>, key: T -> real)
    requires KeyDetermines(a, key) && multiset(a) == multiset(b)
    ensures KeyDetermines(b, key)
  {
    forall x | x in b ensures x in a { assert x in multiset(b); }
  }

  lemma SortedHeads<T(!new)>(a: seq<T>, b: seq<T>, key: T -> real)
    requires a != [] && b != [] && a[0] in b && b[0] in a
    requires SortedBy(a, key) && SortedBy(b, key) && KeyDetermines(a, key)
    ensures a[0] == b[0]
  {
    var i :| 0 <= i < |b| && b[i] == a[0];
    var j :| 0 <= j < |a| && a[j] == b[0];
    SortedAt(b, key, 0, i);
    SortedAt(a, key, 0, j);
  }

  /** A sorted arrangement is unique once the key determines the element. */
  lemma {:induction false} SortedIsUnique<T(!new)>(a: seq<T>, b: seq<T>, key: T -> real)
    requires multiset(a) == multiset(b)
    requires SortedBy(a, key) && SortedBy(b, key) && KeyDetermines(a, key)
    ensures a == b
  {
    hide SortedBy, KeyDetermines;
    assert |a| == |b| by { assert |multiset(a)| == |multiset(b)|; }
    if a != [] {
      assert a[0] in multiset(a) && b[0] in multiset(b);
      SortedHeads(a, b, key);
      TailElements(a);
      TailElements(b);
      TailSorted(a, key);
      TailSorted(b, key);
      TailDetermines(a, key);
      SortedIsUnique(a[1..], b[1..], key);
      assert a == [a[0]] + a[1..] && b == [b[0]] + b[1..];
    }
  }

  /** The order in which the elements arrive does not matter. */
  lemma SortForgetsOrder<T(!new)>(a: seq<T>, b: seq<T>, key: T -> real)
    requires multiset(a) == multiset(b) && KeyDetermines(a, key)
    ensures SortBy(a, key) == SortBy(b, key)
  {
    hide SortBy, SortedBy, KeyDetermines;
    SortElements(a, key);
    SortElements(b, key);
    SortOrder(a, key);
    SortOrder(b, key);
    ElementsDetermine(a, SortBy(a, key), key);
    SortedIsUnique(SortBy(a, key), SortBy(b, key), key);
  }

  function Count<T>(xs: seq<T>, p: T -> bool): (n: nat)
    ensures n <= |xs|
  {
    if xs == [] then 0 else (if p(xs[0]) then 1 else 0) + Count(xs[1..], p)
  }

  lemma {:induction false} CountSplits<T>(a: seq<T>, b: seq<T>, p: T -> bool)
    ensures Count(a + b, p) == Count(a, p) + Count(b, p)
  {
    if a == [] {
      assert a + b == b;
    } else {
      CountSplits(a[1..], b, p);
      assert (a + b)[1..] == a[1..] + b;
    }
  }

  lemma {:induction false} CountAll<T>(xs: seq<T>, p: T -> bool)
    requires forall i :: 0 <= i < |xs| ==> p(xs[i])
    ensures Count(xs, p) == |xs|
  {
    if xs != [] { CountAll(xs[1..], p); }
  }

  lemma {:induction false} CountNone<T>(xs: seq<T>, p: T -> bool)
    requires forall i :: 0 <= i < |xs| ==> !p(xs[i])
    ensures Count(xs, p) == 0
  {
    if xs != [] { CountNone(xs[1..], p); }
  }

  lemma {:induction false} CountOfInsert<T>(x: T, xs: seq<T>, key: T -> real, p: T -> bool)
    ensures Count(Insert(x, xs, key), p) == (if p(x) then 1 else 0) + Count(xs, p)
  {
    if xs == [] || key(x) <= key(xs[0]) {
      assert ([x] + xs)[1..] == xs;
    } else {
      CountOfInsert(x, xs[1..], key, p);
      assert ([xs[0]] + Insert(x, xs[1..], key))[1..] == Insert(x, xs[1..], key);
    }
  }

  lemma {:induction false} CountOfSort<T>(xs: seq<T>, key: T -> real, p: T -> bool)
    ensures Count(SortBy(xs, key), p) == Count(xs, p)
  {
    if xs != [] {
      CountOfSort(xs[1..], key, p);
      CountOfInsert(xs[0], SortBy(xs[1..], key), key, p);
    }
  }
}
