/** Comparison sorting as the program uses it: a key order handed to the library sort of
    Python (`sorted`) or Go (`sort.SliceStable`), and what that sort promises. */
module Sorting {

  /** A strict weak order: what a library sort needs from its comparison. */
  ghost predicate StrictWeak<T(!new)>(less: (T, T) -> bool) {
    && (forall a :: !less(a, a))
    && (forall a, b, c :: less(a, b) && less(b, c) ==> less(a, c))
    && (forall a, b, c :: less(a, c) ==> less(a, b) || less(b, c))
  }

  /** No two different elements of `s` tie. */
  ghost predicate Decides<T>(less: (T, T) -> bool, s: seq<T>) {
    forall x, y | x in s && y in s :: x == y || less(x, y) || less(y, x)
  }

  ghost predicate Sorted<T>(less: (T, T) -> bool, s: seq<T>) {
    forall i, j | 0 <= i < j < |s| :: !less(s[j], s[i])
  }

  function Insert<T(!new)>(less: (T, T) -> bool, x: T, s: seq<T>): (r: seq<T>)
    ensures multiset(r) == multiset{x} + multiset(s)
  {
    if s == [] then [x]
    else if less(s[0], x) then
      assert s == [s[0]] + s[1..];
      [s[0]] + Insert(less, x, s[1..])
    else [x] + s
  }

  /** A stable sort; the clients below rely only on `SortSorts` and the contract. */
  function Sort<T(!new)>(less: (T, T) -> bool, s: seq<T>): (r: seq<T>)
    ensures multiset(r) == multiset(s)
    ensures |r| == |s|
    ensures forall x :: x in r <==> x in s
  {
    if s == [] then []
    else
      assert s == [s[0]] + s[1..];
      var r := Insert(less, s[0], Sort(less, s[1..]));
      SameElements(r, s);
      r
  }

  lemma SameElements<T(!new)>(a: seq<T>, b: seq<T>)
    requires multiset(a) == multiset(b)
    ensures |a| == |b|
    ensures forall x :: x in a <==> x in b
  {
    assert |multiset(a)| == |a| && |multiset(b)| == |b|;
    forall x ensures x in a <==> x in b {
      assert x in a <==> x in multiset(a);
      assert x in b <==> x in multiset(b);
    }
  }

  lemma {:induction false} InsertSorts<T(!new)>(less: (T, T) -> bool, x: T, s: seq<T>)
    requires StrictWeak(less) && Sorted(less, s)
    ensures Sorted(less, Insert(less, x, s))
  {
    if s != [] && less(s[0], x) {
      InsertSorts(less, x, s[1..]);
      var t := Insert(less, x, s[1..]);
      assert multiset(t) == multiset{x} + multiset(s[1..]);
      forall y | y in t ensures !less(y, s[0]) {
        assert y in multiset(t);
        if y != x {
          assert y in multiset(s[1..]);
          var k :| 0 <= k < |s[1..]| && s[1..][k] == y;
          assert !less(s[k + 1], s[0]);
        }
      }
    }
  }

  lemma {:induction false} SortSorts<T(!new)>(less: (T, T) -> bool, s: seq<T>)
    requires StrictWeak(less)
    ensures Sorted(less, Sort(less, s))
  {
    if s == [] {
    } else {
      SortSorts(less, s[1..]);
      InsertSorts(less, s[0], Sort(less, s[1..]));
    }
  }

  lemma FirstIsForced<T(!new)>(less: (T, T) -> bool, a: seq<T>, b: seq<T>)
    requires Decides(less, a) && a != [] && b != []
    requires Sorted(less, a) && Sorted(less, b) && multiset(a) == multiset(b)
    ensures a[0] == b[0]
  {
    SameElements(a, b);
    assert a[0] in b && b[0] in a;
    var i :| 0 <= i < |a| && a[i] == b[0];
    var j :| 0 <= j < |b| && b[j] == a[0];
    assert i > 0 ==> !less(a[i], a[0]);
    assert j > 0 ==> !less(b[j], b[0]);
  }

  lemma RestsAgree<T(!new)>(a: seq<T>, b: seq<T>)
    requires a != [] && b != [] && a[0] == b[0] && multiset(a) == multiset(b)
    ensures multiset(a[1..]) == multiset(b[1..])
  {
    assert a == [a[0]] + a[1..] && b == [b[0]] + b[1..];
    assert multiset(a[1..]) == multiset(a) - multiset{a[0]};
    assert multiset(b[1..]) == multiset(b) - multiset{b[0]};
  }

  lemma RestIsSorted<T(!new)>(less: (T, T) -> bool, a: seq<T>)
    requires a != [] && Sorted(less, a)
    ensures Sorted(less, a[1..])
    ensures Decides(less, a) ==> Decides(less, a[1..])
  {
  }

  /** When nothing ties, the sorted arrangement is unique. */
  lemma {:induction false} SortedIsUnique<T(!new)>(less: (T, T) -> bool, a: seq<T>, b: seq<T>)
    requires Decides(less, a)
    requires Sorted(less, a) && Sorted(less, b) && multiset(a) == multiset(b)
    ensures a == b
  {
    assert |multiset(a)| == |a| && |multiset(b)| == |b|;
    if a == [] {
    } else {
      FirstIsForced(less, a, b);
      RestsAgree(a, b);
      RestIsSorted(less, a);
      RestIsSorted(less, b);
      SortedIsUnique(less, a[1..], b[1..]);
      assert a == [a[0]] + a[1..] && b == [b[0]] + b[1..];
    }
  }

  /** The input order of a list without ties does not show in its sorted form. */
  lemma SortIgnoresOrder<T(!new)>(less: (T, T) -> bool, a: seq<T>, b: seq<T>)
    requires StrictWeak(less) && Decides(less, a)
    requires multiset(a) == multiset(b)
    ensures Sort(less, a) == Sort(less, b)
  {
    SortSorts(less, a);
    SortSorts(less, b);
    SortedIsUnique(less, Sort(less, a), Sort(less, b));
  }

  /** No two positions of `s` carry the same key. */
  ghost predicate DistinctKeys<T, K>(key: T -> K, s: seq<T>) {
    forall i, j | 0 <= i < j < |s| :: key(s[i]) != key(s[j])
  }

  lemma TwicePresent<T(!new)>(s: seq<T>, i: nat, j: nat)
    requires i < j < |s| && s[i] == s[j]
    ensures multiset(s)[s[i]] >= 2
  {
    assert s == s[..i] + [s[i]] + s[i + 1..j] + [s[j]] + s[j + 1..];
  }

  lemma {:induction false} OccursTwice<T(!new)>(s: seq<T>, x: T) returns (i: nat, j: nat)
    requires multiset(s)[x] >= 2
    ensures i < j < |s| && s[i] == x == s[j]
  {
    assert s == [s[0]] + s[1..];
    if s[0] == x {
      assert x in multiset(s[1..]);
      var k :| 0 <= k < |s[1..]| && s[1..][k] == x;
      i, j := 0, k + 1;
    } else {
      i, j := OccursTwice(s[1..], x);
      i, j := i + 1, j + 1;
    }
  }

  lemma DistinctKeysIgnoreOrder<T(!new), K>(key: T -> K, a: seq<T>, b: seq<T>)
    requires multiset(a) == multiset(b) && DistinctKeys(key, a)
    ensures DistinctKeys(key, b)
  {
    SameElements(a, b);
    forall i, j | 0 <= i < j < |b| ensures key(b[i]) != key(b[j]) {
      assert b[i] in a && b[j] in a;
      if b[i] == b[j] {
        TwicePresent(b, i, j);
        var m, n := OccursTwice(a, b[i]);
      }
    }
  }

  // ---------------------------------------------------------------- one element changes

  function WithoutAt<T>(s: seq<T>, i: nat): (r: seq<T>)
    requires i < |s|
    ensures |r| == |s| - 1
  {
    s[..i] + s[i + 1..]
  }

  lemma WithoutOne<T(!new)>(less: (T, T) -> bool, s: seq<T>, i: nat)
    requires i < |s| && Sorted(less, s) && Decides(less, s)
    ensures Sorted(less, WithoutAt(s, i)) && Decides(less, WithoutAt(s, i))
    ensures multiset(WithoutAt(s, i)) == multiset(s) - multiset{s[i]}
  {
    assert s == s[..i] + [s[i]] + s[i + 1..];
    var r := WithoutAt(s, i);
    forall k | 0 <= k < |r| ensures r[k] == s[if k < i then k else k + 1] {
    }
    forall x | x in r ensures x in s {
      var k :| 0 <= k < |r| && r[k] == x;
    }
  }

  lemma WithoutsAgree<T(!new)>(less: (T, T) -> bool, a: seq<T>, i: nat, b: seq<T>, j: nat)
    requires Sorted(less, a) && Decides(less, a) && Sorted(less, b) && Decides(less, b)
    requires i < |a| && j < |b| && multiset(b) == multiset(a) - multiset{a[i]} + multiset{b[j]}
    ensures WithoutAt(a, i) == WithoutAt(b, j)
  {
    WithoutOne(less, a, i);
    WithoutOne(less, b, j);
    SortedIsUnique(less, WithoutAt(a, i), WithoutAt(b, j));
  }

  lemma MovedPast<T(!new)>(a: seq<T>, i: nat, b: seq<T>, j: nat)
    requires i < j < |b| && i < |a| && WithoutAt(a, i) == WithoutAt(b, j)
    ensures i + 1 < |a| && a[i + 1] == b[i]
  {
    assert WithoutAt(a, i)[i] == WithoutAt(b, j)[i];
  }

  lemma NextIsLess<T(!new)>(less: (T, T) -> bool, a: seq<T>, i: nat)
    requires Sorted(less, a) && Decides(less, a) && i + 1 < |a| && a[i] != a[i + 1]
    ensures less(a[i], a[i + 1])
  {
    assert a[i] in a && a[i + 1] in a;
  }

  /** An element that gives way to one which comes before whatever it came before does not move
      later in the sorted list. */
  lemma BetterKeepsPlace<T(!new)>(less: (T, T) -> bool, a: seq<T>, i: nat, b: seq<T>, j: nat)
    requires Sorted(less, a) && Decides(less, a) && Sorted(less, b) && Decides(less, b)
    requires i < |a| && j < |b| && multiset(b) == multiset(a) - multiset{a[i]} + multiset{b[j]}
    requires forall x | x in a && less(a[i], x) :: less(b[j], x)
    requires forall x, y | 0 <= x < y < |a| :: a[x] != a[y]
    ensures j <= i
  {
    WithoutsAgree(less, a, i, b, j);
    if i < j {
      MovedPast(a, i, b, j);
      NextIsLess(less, a, i);
    }
  }
}
