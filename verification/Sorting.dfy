/**
 Sorting by an order: it permutes, keeps keys distinct, and by a strict order of comparable elements it orders, in one
 way.
 */
module Sorting {
  function Insert<T>(less: (T, T) -> bool, x: T, s: seq<T>): seq<T> {
    if s == [] || less(x, s[0]) then [x] + s else [s[0]] + Insert(less, x, s[1..])
  }

  function Sorted<T>(less: (T, T) -> bool, s: seq<T>): seq<T> {
    if s == [] then [] else Insert(less, s[0], Sorted(less, s[1..]))
  }

  lemma {:induction false} InsertKeeps<T>(less: (T, T) -> bool, x: T, s: seq<T>)
    ensures multiset(Insert(less, x, s)) == multiset(s) + multiset{x}
  {
    if s == [] || less(x, s[0]) {
    } else {
      InsertKeeps(less, x, s[1..]);
      assert s == [s[0]] + s[1..];
    }
  }

  /** Sorting changes the order only. */
  lemma {:induction false} SortedKeeps<T>(less: (T, T) -> bool, s: seq<T>)
    ensures multiset(Sorted(less, s)) == multiset(s)
  {
    if s != [] {
      SortedKeeps(less, s[1..]);
      InsertKeeps(less, s[0], Sorted(less, s[1..]));
      assert s == [s[0]] + s[1..];
    }
  }

  lemma SameElements<T>(less: (T, T) -> bool, s: seq<T>)
    ensures |Sorted(less, s)| == |s|
    ensures forall x :: x in Sorted(less, s) <==> x in s
  {
    SortedKeeps(less, s);
    assert |multiset(Sorted(less, s))| == |multiset(s)|;
    forall x ensures x in Sorted(less, s) <==> x in s {
      assert x in multiset(Sorted(less, s)) <==> x in multiset(s);
    }
  }

  ghost predicate DistinctBy<T, K>(key: T -> K, s: seq<T>) {
    forall i, j | 0 <= i < j < |s| :: key(s[i]) != key(s[j])
  }

  /** Distinct keys stay distinct in any order. */
  lemma SortedDistinct<T, K>(less: (T, T) -> bool, key: T -> K, s: seq<T>)
    requires DistinctBy(key, s)
    ensures DistinctBy(key, Sorted(less, s))
  {
    SortedKeeps(less, s);
    var t := Sorted(less, s);
    forall i, j | 0 <= i < j < |t| ensures key(t[i]) != key(t[j]) {
      if key(t[i]) == key(t[j]) {
        assert t[i] in multiset(t) && t[j] in multiset(t) && multiset(t) == multiset(s);
        assert t[i] in s && t[j] in s;
        var k :| 0 <= k < |s| && s[k] == t[i];
        var l :| 0 <= l < |s| && s[l] == t[j];
        assert k == l;
        TwiceInSeq(t, i, j);
        OnceByKey(key, s, k);
      }
    }
  }

  lemma TwiceInSeq<T>(t: seq<T>, i: nat, j: nat)
    requires i < j < |t| && t[i] == t[j]
    ensures multiset(t)[t[i]] >= 2
  {
    assert t == t[..j] + [t[j]] + t[j + 1..];
    assert t[i] in t[..j];
  }

  lemma OnceByKey<T, K>(key: T -> K, s: seq<T>, k: nat)
    requires DistinctBy(key, s) && k < |s|
    ensures multiset(s)[s[k]] == 1
  {
    assert s == s[..k] + [s[k]] + s[k + 1..];
    assert s[k] !in s[..k] && s[k] !in s[k + 1..];
  }

  ghost predicate StrictOrder<T(!new)>(less: (T, T) -> bool) {
    && (forall x :: !less(x, x))
    && (forall x, y, z :: less(x, y) && less(y, z) ==> less(x, z))
  }

  ghost predicate Ordered<T>(less: (T, T) -> bool, s: seq<T>) {
    forall i, j | 0 <= i < j < |s| :: less(s[i], s[j])
  }

  ghost predicate Comparable<T>(less: (T, T) -> bool, s: seq<T>) {
    forall i, j | 0 <= i < j < |s| :: less(s[i], s[j]) || less(s[j], s[i])
  }

  lemma {:induction false} InsertOrdered<T(!new)>(less: (T, T) -> bool, x: T, s: seq<T>)
    requires StrictOrder(less) && Ordered(less, s) && forall y | y in s :: less(x, y) || less(y, x)
    ensures Ordered(less, Insert(less, x, s))
  {
    if s != [] && !less(x, s[0]) {
      InsertOrdered(less, x, s[1..]);
      InsertKeeps(less, x, s[1..]);
      var t := Insert(less, x, s[1..]);
      forall j | 0 <= j < |t| ensures less(s[0], t[j]) {
        assert t[j] in multiset(t);
        assert t[j] == x || t[j] in s[1..];
      }
    }
  }

  lemma {:induction false} SortedOrdered<T(!new)>(less: (T, T) -> bool, s: seq<T>)
    requires StrictOrder(less) && Comparable(less, s)
    ensures Ordered(less, Sorted(less, s))
  {
    if s != [] {
      SortedOrdered(less, s[1..]);
      SameElements(less, s[1..]);
      InsertOrdered(less, s[0], Sorted(less, s[1..]));
    }
  }

  /** The elements and a strict order determine an ordered sequence. */
  lemma {:induction false} OneOrder<T(!new)>(less: (T, T) -> bool, a: seq<T>, b: seq<T>)
    requires StrictOrder(less) && Ordered(less, a) && Ordered(less, b)
    requires forall x :: x in a <==> x in b
    ensures a == b
  {
    if a == [] {
      if b != [] {
        HasElement(b);
      }
    } else {
      assert a[0] in b;
      assert b[0] in a;
      SameLeast(less, a, b);
      forall x ensures x in a[1..] <==> x in b[1..] {
        TailWithout(less, a, x);
        TailWithout(less, b, x);
      }
      OneOrder(less, a[1..], b[1..]);
    }
  }

  lemma HasElement<T>(s: seq<T>)
    requires s != []
    ensures exists x :: x in s
  {
    assert s[0] in s;
  }

  lemma SameLeast<T(!new)>(less: (T, T) -> bool, a: seq<T>, b: seq<T>)
    requires StrictOrder(less) && Ordered(less, a) && Ordered(less, b) && a != [] && b != []
    requires a[0] in b && b[0] in a
    ensures a[0] == b[0]
  {
    var k :| 0 <= k < |b| && b[k] == a[0];
    var m :| 0 <= m < |a| && a[m] == b[0];
    var x, y := a[0], b[0];
    assert !(less(x, y) && less(y, x));
  }

  lemma TailWithout<T(!new)>(less: (T, T) -> bool, s: seq<T>, x: T)
    requires StrictOrder(less) && Ordered(less, s) && s != []
    ensures x in s[1..] <==> x in s && x != s[0]
  {
    if x in s[1..] {
      var k :| 0 <= k < |s[1..]| && s[1..][k] == x;
      assert s[k + 1] == x && less(s[0], x);
    }
    assert s == [s[0]] + s[1..];
  }
}
