/** Sorting by a name, bytewise, the way paths and strings compare in Rust.

    The sort is a stable insertion sort. What matters of it is that it permutes, that it sorts,
    and that distinct names leave it only one result, so that a listing's own order is forgotten
    by it. */
module Sorting {

  /** A name as its bytes. */
  type Name = seq<nat>

  predicate AtMost(a: Name, b: Name) {
    a == [] || (b != [] && (a[0] < b[0] || (a[0] == b[0] && AtMost(a[1..], b[1..]))))
  }

  lemma {:induction false} AtMostIsTotal(a: Name, b: Name)
    ensures AtMost(a, b) || AtMost(b, a)
  {
    if a != [] && b != [] && a[0] == b[0] {
      AtMostIsTotal(a[1..], b[1..]);
    }
  }

  lemma {:induction false} AtMostIsAntisymmetric(a: Name, b: Name)
    requires AtMost(a, b) && AtMost(b, a)
    ensures a == b
  {
    if a != [] && b != [] {
      AtMostIsAntisymmetric(a[1..], b[1..]);
      assert a == [a[0]] + a[1..] && b == [b[0]] + b[1..];
    }
  }

  lemma {:induction false} AtMostIsTransitive(a: Name, b: Name, c: Name)
    requires AtMost(a, b) && AtMost(b, c)
    ensures AtMost(a, c)
  {
    if a != [] && b != [] && a[0] == b[0] == c[0] {
      AtMostIsTransitive(a[1..], b[1..], c[1..]);
    }
  }

  // ----------------------------------------------------------------------- sorting

  function Insert<T>(x: T, s: seq<T>, key: T -> Name): seq<T> {
    if s == [] then [x]
    else if AtMost(key(x), key(s[0])) then [x] + s
    else [s[0]] + Insert(x, s[1..], key)
  }

  /** A stable sort by `key`. */
  function Sort<T>(s: seq<T>, key: T -> Name): seq<T> {
    if s == [] then [] else Insert(s[0], Sort(s[1..], key), key)
  }

  predicate IsSorted<T>(s: seq<T>, key: T -> Name) {
    forall i, j :: 0 <= i < j < |s| ==> AtMost(key(s[i]), key(s[j]))
  }

  predicate DistinctKeys<T>(s: seq<T>, key: T -> Name) {
    forall i, j :: 0 <= i < j < |s| ==> key(s[i]) != key(s[j])
  }

  lemma TailKeeps<T>(s: seq<T>, key: T -> Name)
    requires s != [] && IsSorted(s, key)
    ensures IsSorted(s[1..], key)
    ensures DistinctKeys(s, key) ==> DistinctKeys(s[1..], key)
    ensures multiset(s[1..]) == multiset(s) - multiset{s[0]}
  {
    assert s == [s[0]] + s[1..];
    assert forall i :: 0 <= i < |s[1..]| ==> s[1..][i] == s[i + 1];
  }

  lemma Prepend<T>(x: T, s: seq<T>, key: T -> Name)
    requires IsSorted(s, key) && forall i :: 0 <= i < |s| ==> AtMost(key(x), key(s[i]))
    ensures IsSorted([x] + s, key)
  {}

  lemma {:induction false} InsertPermutes<T>(x: T, s: seq<T>, key: T -> Name)
    ensures multiset(Insert(x, s, key)) == multiset(s) + multiset{x}
  {
    if s != [] && !AtMost(key(x), key(s[0])) {
      InsertPermutes(x, s[1..], key);
      assert s == [s[0]] + s[1..];
    }
  }

  lemma {:induction false} InsertKeeps<T>(x: T, s: seq<T>, key: T -> Name)
    requires IsSorted(s, key)
    ensures IsSorted(Insert(x, s, key), key)
  {
    if s != [] && AtMost(key(x), key(s[0])) {
      forall i | 0 <= i < |s|
        ensures AtMost(key(x), key(s[i]))
      {
        if i > 0 {
          AtMostIsTransitive(key(x), key(s[0]), key(s[i]));
        }
      }
      Prepend(x, s, key);
    } else if s != [] {
      var rest := Insert(x, s[1..], key);
      AtMostIsTotal(key(x), key(s[0]));
      TailKeeps(s, key);
      InsertKeeps(x, s[1..], key);
      InsertPermutes(x, s[1..], key);
      HeadStaysLeast(x, s, rest, key);
      Prepend(s[0], rest, key);
    }
  }

  lemma HeadStaysLeast<T>(x: T, s: seq<T>, rest: seq<T>, key: T -> Name)
    requires s != [] && IsSorted(s, key) && AtMost(key(s[0]), key(x))
    requires multiset(rest) == multiset(s[1..]) + multiset{x}
    ensures forall i :: 0 <= i < |rest| ==> AtMost(key(s[0]), key(rest[i]))
  {
    forall i | 0 <= i < |rest|
      ensures AtMost(key(s[0]), key(rest[i]))
    {
      assert rest[i] in multiset(rest);
      if rest[i] != x {
        assert rest[i] in multiset(s[1..]);
        var k := IndexOf(s[1..], rest[i]);
        assert s[k + 1] == rest[i];
      }
    }
  }

  lemma SameElements<T>(a: seq<T>, b: seq<T>)
    requires multiset(a) == multiset(b)
    ensures |a| == |b|
    ensures forall x :: x in a <==> x in b
  {
    assert |a| == |multiset(a)| && |b| == |multiset(b)|;
    assert forall x :: x in a <==> x in multiset(a);
  }

  lemma {:induction false} SortKeeps<T>(s: seq<T>, key: T -> Name)
    ensures multiset(Sort(s, key)) == multiset(s) && IsSorted(Sort(s, key), key)
    ensures |Sort(s, key)| == |s|
    ensures forall x :: x in Sort(s, key) <==> x in s
  {
    if s != [] {
      SortKeeps(s[1..], key);
      InsertPermutes(s[0], Sort(s[1..], key), key);
      InsertKeeps(s[0], Sort(s[1..], key), key);
      assert s == [s[0]] + s[1..];
    }
    SameElements(Sort(s, key), s);
  }

  lemma HeadsAgree<T>(a: seq<T>, b: seq<T>, key: T -> Name)
    requires multiset(a) == multiset(b) && IsSorted(a, key) && IsSorted(b, key) && DistinctKeys(a, key)
    requires a != [] && b != []
    ensures a[0] == b[0]
  {
    assert a[0] in multiset(b) && b[0] in multiset(a);
    var i := IndexOf(a, b[0]);
    var j := IndexOf(b, a[0]);
    if i > 0 && j > 0 {
      AtMostIsAntisymmetric(key(a[0]), key(b[0]));
    }
  }

  lemma SameHeadAndTail<T>(a: seq<T>, b: seq<T>)
    requires a != [] && b != [] && a[0] == b[0] && a[1..] == b[1..]
    ensures a == b
  {
    assert a == [a[0]] + a[1..] && b == [b[0]] + b[1..];
  }

  /** Names that differ leave a sorted listing no choice. */
  lemma {:induction false} SortedIsUnique<T>(a: seq<T>, b: seq<T>, key: T -> Name)
    requires multiset(a) == multiset(b) && IsSorted(a, key) && IsSorted(b, key) && DistinctKeys(a, key)
    ensures a == b
  {
    assert |a| == |multiset(a)| == |multiset(b)| == |b|;
    if a != [] {
      HeadsAgree(a, b, key);
      TailKeeps(a, key);
      TailKeeps(b, key);
      SortedIsUnique(a[1..], b[1..], key);
      SameHeadAndTail(a, b);
    }
  }

  lemma {:induction false} DistinctInAnyOrder<T>(a: seq<T>, b: seq<T>, key: T -> Name)
    requires multiset(a) == multiset(b) && DistinctKeys(a, key)
    ensures DistinctKeys(b, key)
  {
    forall i, j | 0 <= i < j < |b|
      ensures key(b[i]) != key(b[j])
    {
      if b[i] == b[j] {
        RepeatedTwice(b, i, j);
        var k := IndexOf(a, b[i]);
        OnceIfDistinct(a, key, k);
      } else {
        assert b[i] in multiset(a) && b[j] in multiset(a);
        var k := IndexOf(a, b[i]);
        var l := IndexOf(a, b[j]);
        assert k < l || l < k;
      }
    }
  }

  lemma IndexOf<T>(s: seq<T>, x: T) returns (k: nat)
    requires x in multiset(s)
    ensures k < |s| && s[k] == x
  {
    k :| 0 <= k < |s| && s[k] == x;
  }

  lemma RepeatedTwice<T>(s: seq<T>, i: nat, j: nat)
    requires i < j < |s| && s[i] == s[j]
    ensures multiset(s)[s[i]] >= 2
  {
    assert s == s[..j] + [s[j]] + s[j + 1..];
    assert s[i] in s[..j];
  }

  lemma OnceIfDistinct<T>(s: seq<T>, key: T -> Name, k: nat)
    requires k < |s| && DistinctKeys(s, key)
    ensures multiset(s)[s[k]] == 1
  {
    assert s == s[..k] + [s[k]] + s[k + 1..];
    assert s[k] !in s[..k] && s[k] !in s[k + 1..];
  }

  /** Any order of the same distinctly named things sorts to the same list. */
  lemma SortForgetsOrder<T>(a: seq<T>, b: seq<T>, key: T -> Name)
    requires multiset(a) == multiset(b) && DistinctKeys(a, key)
    ensures Sort(a, key) == Sort(b, key)
  {
    SortKeeps(a, key);
    SortKeeps(b, key);
    DistinctInAnyOrder(a, Sort(a, key), key);
    SortedIsUnique(Sort(a, key), Sort(b, key), key);
  }
}
