/**
 * Python's stable sort (list.sort / sorted) by a key, where the key is
 * compared as a pair, the way Python compares tuples.
 */
module Sorting {
  predicate KeyLe(a: (real, real), b: (real, real)) { a.0 < b.0 || (a.0 == b.0 && a.1 <= b.1) }

  predicate KeyLt(a: (real, real), b: (real, real)) { !KeyLe(b, a) }

  predicate SortedBy<T>(s: seq<T>, key: T -> (real, real)) {
    forall i, j :: 0 <= i < j < |s| ==> KeyLe(key(s[i]), key(s[j]))
  }

  /** Inserts x before the first element whose key is strictly greater. */
  function Insert<T>(x: T, s: seq<T>, key: T -> (real, real)): seq<T> {
    if s == [] then [x]
    else if KeyLt(key(x), key(s[0])) then [x] + s
    else [s[0]] + Insert(x, s[1..], key)
  }

  /** Insertion sort; equal keys keep their input order. */
  function SortBy<T>(s: seq<T>, key: T -> (real, real)): seq<T> {
    if s == [] then [] else Insert(s[|s| - 1], SortBy(s[..|s| - 1], key), key)
  }

  /** The elements of s whose key is k, in order. */
  function KeyFilter<T>(s: seq<T>, key: T -> (real, real), k: (real, real)): seq<T> {
    if s == [] then [] else (if key(s[0]) == k then [s[0]] else []) + KeyFilter(s[1..], key, k)
  }

  lemma {:induction false} InsertProperties<T>(x: T, s: seq<T>, key: T -> (real, real))
    requires SortedBy(s, key)
    ensures SortedBy(Insert(x, s, key), key)
    ensures multiset(Insert(x, s, key)) == multiset(s) + multiset{x}
    decreases |s|
  {
    if s == [] {
    } else if KeyLt(key(x), key(s[0])) {
    } else {
      InsertProperties(x, s[1..], key);
      var t := Insert(x, s[1..], key);
      assert s == [s[0]] + s[1..];
      forall j | 0 <= j < |t| ensures KeyLe(key(s[0]), key(t[j])) {
        assert t[j] in multiset(t);
        assert t[j] == x || t[j] in s[1..];
      }
    }
  }

  /** SortBy returns its input, reordered, with keys in ascending order. */
  lemma {:induction false} SortByProperties<T>(s: seq<T>, key: T -> (real, real))
    ensures SortedBy(SortBy(s, key), key)
    ensures multiset(SortBy(s, key)) == multiset(s)
    ensures |SortBy(s, key)| == |s|
  {
    if s != [] {
      SortByProperties(s[..|s| - 1], key);
      InsertProperties(s[|s| - 1], SortBy(s[..|s| - 1], key), key);
      assert s == s[..|s| - 1] + [s[|s| - 1]];
      assert |SortBy(s, key)| == |multiset(SortBy(s, key))|;
    }
  }

  /** Sorting keeps exactly the elements it was given. */
  lemma SortMembers<T>(s: seq<T>, key: T -> (real, real))
    ensures forall x :: x in SortBy(s, key) <==> x in s
  {
    SortByProperties(s, key);
    forall x ensures x in SortBy(s, key) <==> x in s {
      assert x in SortBy(s, key) <==> x in multiset(SortBy(s, key));
      assert x in s <==> x in multiset(s);
    }
  }

  lemma {:induction false} KeyFilterConcat<T>(a: seq<T>, b: seq<T>, key: T -> (real, real), k: (real, real))
    ensures KeyFilter(a + b, key, k) == KeyFilter(a, key, k) + KeyFilter(b, key, k)
    decreases |a|
  {
    if a == [] {
      assert a + b == b;
    } else {
      assert (a + b)[1..] == a[1..] + b;
      assert (a + b)[0] == a[0];
      KeyFilterConcat(a[1..], b, key, k);
    }
  }

  lemma {:induction false} KeyFilterAbove<T>(s: seq<T>, key: T -> (real, real), k: (real, real))
    requires forall i :: 0 <= i < |s| ==> KeyLt(k, key(s[i]))
    ensures KeyFilter(s, key, k) == []
    decreases |s|
  {
    if s != [] {
      KeyFilterAbove(s[1..], key, k);
    }
  }

  lemma {:induction false} InsertStable<T>(x: T, s: seq<T>, key: T -> (real, real), k: (real, real))
    requires SortedBy(s, key)
    ensures KeyFilter(Insert(x, s, key), key, k)
         == KeyFilter(s, key, k) + (if key(x) == k then [x] else [])
    decreases |s|
  {
    if s == [] {
    } else if KeyLt(key(x), key(s[0])) {
      if key(x) == k {
        KeyFilterAbove(s, key, k);
      }
    } else {
      InsertStable(x, s[1..], key, k);
    }
  }

  /** Stability: for every key, the elements with that key keep their input order. */
  lemma {:induction false} SortByStable<T>(s: seq<T>, key: T -> (real, real), k: (real, real))
    ensures KeyFilter(SortBy(s, key), key, k) == KeyFilter(s, key, k)
  {
    if s != [] {
      var init, last := s[..|s| - 1], s[|s| - 1];
      SortByStable(init, key, k);
      SortByProperties(init, key);
      InsertStable(last, SortBy(init, key), key, k);
      assert s == init + [last];
      KeyFilterConcat(init, [last], key, k);
    }
  }
}
