/** Sorting by a string key: sort.Strings and ORDER BY, compared code point by code point. */
module GoSort {

  predicate StrLe(a: string, b: string) {
    a == "" || (b != "" && (a[0] < b[0] || (a[0] == b[0] && StrLe(a[1..], b[1..]))))
  }

  /** One text differs from another for the first time at i, and is smaller there. */
  predicate SmallerAt(a: string, b: string, i: nat) {
    i < |a| && i < |b| && a[..i] == b[..i] && a[i] < b[i]
  }

  lemma {:induction false} HeadsDiffer(a: string, b: string)
    requires a != "" && b != "" && a[0] != b[0]
    ensures (exists i: nat :: SmallerAt(a, b, i)) <==> a[0] < b[0]
  {
    if a[0] < b[0] {
      assert SmallerAt(a, b, 0);
    }
    forall i: nat | i > 0
      ensures !SmallerAt(a, b, i)
    {
      if i <= |a| && i <= |b| {
        assert a[..i][0] == a[0] && b[..i][0] == b[0];
      }
    }
  }

  /** The order is that of a dictionary. */
  lemma {:induction false} StrLeIff(a: string, b: string)
    ensures StrLe(a, b) <==> a <= b || exists i: nat :: SmallerAt(a, b, i)
  {
    if a != "" && b != "" {
      StrLeIff(a[1..], b[1..]);
      assert a == [a[0]] + a[1..] && b == [b[0]] + b[1..];
      if a[0] == b[0] {
        assert a <= b <==> a[1..] <= b[1..];
        if i: nat :| SmallerAt(a[1..], b[1..], i) {
          assert a[..i + 1] == [a[0]] + a[1..][..i] && b[..i + 1] == [b[0]] + b[1..][..i];
          assert SmallerAt(a, b, i + 1);
        }
        if i: nat :| SmallerAt(a, b, i) {
          assert a[1..][..i - 1] == a[..i][1..] && b[1..][..i - 1] == b[..i][1..];
          assert SmallerAt(a[1..], b[1..], i - 1);
        }
      } else {
        HeadsDiffer(a, b);
      }
    }
  }

  lemma {:induction false} StrLeTotal(a: string, b: string)
    ensures StrLe(a, b) || StrLe(b, a)
  {
    if a != "" && b != "" && a[0] == b[0] {
      StrLeTotal(a[1..], b[1..]);
    }
  }

  lemma {:induction false} StrLeTrans(a: string, b: string, c: string)
    requires StrLe(a, b) && StrLe(b, c)
    ensures StrLe(a, c)
  {
    if a != "" && b != "" && c != "" && a[0] == b[0] == c[0] {
      StrLeTrans(a[1..], b[1..], c[1..]);
    }
  }

  predicate Sorted<T>(xs: seq<T>, key: T -> string) {
    forall i, j :: 0 <= i < j < |xs| ==> StrLe(key(xs[i]), key(xs[j]))
  }

  function Insert<T>(x: T, xs: seq<T>, key: T -> string): seq<T> {
    if xs == [] then [x]
    else if StrLe(key(x), key(xs[0])) then [x] + xs
    else [xs[0]] + Insert(x, xs[1..], key)
  }

  function SortBy<T>(xs: seq<T>, key: T -> string): seq<T> {
    if xs == [] then [] else Insert(xs[0], SortBy(xs[1..], key), key)
  }

  lemma {:induction false} InsertSorted<T>(x: T, xs: seq<T>, key: T -> string)
    requires Sorted(xs, key)
    ensures Sorted(Insert(x, xs, key), key)
    ensures multiset(Insert(x, xs, key)) == multiset{x} + multiset(xs)
  {
    if xs == [] {
    } else if StrLe(key(x), key(xs[0])) {
      forall j | 0 <= j < |xs|
        ensures StrLe(key(x), key(xs[j]))
      {
        if j > 0 {
          StrLeTrans(key(x), key(xs[0]), key(xs[j]));
        }
      }
    } else {
      assert xs == [xs[0]] + xs[1..];
      InsertSorted(x, xs[1..], key);
      StrLeTotal(key(x), key(xs[0]));
      var r := Insert(x, xs[1..], key);
      forall j | 0 <= j < |r|
        ensures StrLe(key(xs[0]), key(r[j]))
      {
        assert r[j] in multiset(r);
        assert r[j] == x || r[j] in xs[1..];
      }
    }
  }

  /** The result is sorted and has the same elements, each as often. */
  lemma {:induction false} SortedPermutation<T>(xs: seq<T>, key: T -> string)
    ensures Sorted(SortBy(xs, key), key) && multiset(SortBy(xs, key)) == multiset(xs)
  {
    if xs != [] {
      SortedPermutation(xs[1..], key);
      InsertSorted(xs[0], SortBy(xs[1..], key), key);
      assert xs == [xs[0]] + xs[1..];
    }
  }

  lemma {:induction false} SortedMembers<T>(xs: seq<T>, key: T -> string)
    ensures forall x :: x in SortBy(xs, key) <==> x in xs
  {
    SortedPermutation(xs, key);
    assert forall x :: x in SortBy(xs, key) <==> x in multiset(SortBy(xs, key));
    assert forall x :: x in xs <==> x in multiset(xs);
  }

  predicate Distinct<T(==)>(xs: seq<T>) {
    forall i, j :: 0 <= i < j < |xs| ==> xs[i] != xs[j]
  }

  lemma {:induction false} DistinctCount<T>(xs: seq<T>)
    requires Distinct(xs)
    ensures forall x :: multiset(xs)[x] <= 1
  {
    if xs != [] {
      assert xs == [xs[0]] + xs[1..];
      DistinctCount(xs[1..]);
      assert xs[0] !in xs[1..];
    }
  }

  lemma {:induction false} CountDistinct<T>(xs: seq<T>)
    requires forall x :: multiset(xs)[x] <= 1
    ensures Distinct(xs)
  {
    forall i, j | 0 <= i < j < |xs|
      ensures xs[i] != xs[j]
    {
      var rest := xs[..j] + xs[j + 1..];
      assert xs == xs[..j] + [xs[j]] + xs[j + 1..];
      assert rest[i] == xs[i];
      assert multiset(xs) == multiset(rest) + multiset{xs[j]};
      assert multiset(rest)[xs[i]] >= 1 by {
        assert rest[i] in rest;
      }
      assert multiset(xs)[xs[i]] <= 1;
    }
  }

  /** Sorting keeps distinct elements distinct. */
  lemma {:induction false} SortedDistinct<T>(xs: seq<T>, key: T -> string)
    requires Distinct(xs)
    ensures Distinct(SortBy(xs, key))
  {
    DistinctCount(xs);
    SortedPermutation(xs, key);
    CountDistinct(SortBy(xs, key));
  }
}
