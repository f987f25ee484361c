/** Python's list.sort / sorted with a key: a stable sort, written as an
    insertion sort over a lexicographic key of at most three integers. */
module Sorting {

  /** A sort key; tuples with fewer parts pad with zeros. */
  datatype SortKey = SortKey(a: int, b: int, c: int)

  /** Lexicographic order on keys, as Python compares tuples. */
  predicate KeyLe(k1: SortKey, k2: SortKey)
  {
    k1.a < k2.a || (k1.a == k2.a && (k1.b < k2.b || (k1.b == k2.b && k1.c <= k2.c)))
  }

  /** Keys never decrease along s. */
  ghost predicate SortedBy<T>(s: seq<T>, key: T -> SortKey)
  {
    forall i, j :: 0 <= i < j < |s| ==> KeyLe(key(s[i]), key(s[j]))
  }

  /** Putting h in front of a sorted sequence whose keys are all at least h's keeps it sorted. */
  lemma SortedCons<T>(h: T, t: seq<T>, key: T -> SortKey)
    requires SortedBy(t, key)
    requires forall i :: 0 <= i < |t| ==> KeyLe(key(h), key(t[i]))
    ensures SortedBy([h] + t, key)
  {
    var r := [h] + t;
    forall i, j | 0 <= i < j < |r| ensures KeyLe(key(r[i]), key(r[j])) {
      if i > 0 {
        assert r[i] == t[i - 1] && r[j] == t[j - 1];
      }
    }
  }

  /** Insert x into t after every leading element whose key is not larger (keeps stability). */
  function Insert<T>(t: seq<T>, x: T, key: T -> SortKey): (r: seq<T>)
    ensures |r| == |t| + 1
  {
    if t == [] then [x]
    else if !KeyLe(key(t[0]), key(x)) then [x] + t
    else [t[0]] + Insert(t[1..], x, key)
  }

  /** Insert puts x or t's first element in front. */
  lemma {:induction false} InsertHead<T>(t: seq<T>, x: T, key: T -> SortKey)
    ensures Insert(t, x, key)[0] == x || (|t| > 0 && Insert(t, x, key)[0] == t[0])
  {
  }

  /** Insert adds exactly x. */
  lemma {:induction false} InsertPermutes<T>(t: seq<T>, x: T, key: T -> SortKey)
    ensures multiset(Insert(t, x, key)) == multiset(t) + multiset{x}
  {
    if t != [] && KeyLe(key(t[0]), key(x)) {
      InsertPermutes(t[1..], x, key);
      assert t == [t[0]] + t[1..];
    }
  }

  /** Inserting into a sorted sequence keeps it sorted. */
  lemma {:induction false} InsertSorted<T>(t: seq<T>, x: T, key: T -> SortKey)
    requires SortedBy(t, key)
    ensures SortedBy(Insert(t, x, key), key)
  {
    if t == [] {
    } else if !KeyLe(key(t[0]), key(x)) {
      SortedCons(x, t, key);
    } else {
      var rest := Insert(t[1..], x, key);
      InsertSorted(t[1..], x, key);
      InsertHead(t[1..], x, key);
      assert KeyLe(key(t[0]), key(rest[0])) by {
        if rest[0] != x {
          assert rest[0] == t[1];
        }
      }
      SortedCons(t[0], rest, key);
    }
  }

  /** sorted(s, key=key): the stable insertion sort of s. */
  function SortBy<T>(s: seq<T>, key: T -> SortKey): (r: seq<T>)
    ensures |r| == |s|
  {
    if s == [] then [] else Insert(SortBy(s[..|s| - 1], key), s[|s| - 1], key)
  }

  /** The result of SortBy is sorted and a permutation of its input. */
  lemma {:induction false} SortBySpec<T>(s: seq<T>, key: T -> SortKey)
    ensures SortedBy(SortBy(s, key), key)
    ensures multiset(SortBy(s, key)) == multiset(s)
  {
    if s != [] {
      SortBySpec(s[..|s| - 1], key);
      InsertSorted(SortBy(s[..|s| - 1], key), s[|s| - 1], key);
      InsertPermutes(SortBy(s[..|s| - 1], key), s[|s| - 1], key);
      assert s == s[..|s| - 1] + [s[|s| - 1]];
    }
  }

  /** The elements of s whose key is k, in their order in s. */
  function WithKey<T>(s: seq<T>, key: T -> SortKey, k: SortKey): (r: seq<T>)
    ensures |r| <= |s|
    ensures forall i :: 0 <= i < |r| ==> key(r[i]) == k
  {
    if s == [] then [] else (if key(s[0]) == k then [s[0]] else []) + WithKey(s[1..], key, k)
  }

  /** Selecting by key distributes over concatenation. */
  lemma {:induction false} WithKeyAppend<T>(a: seq<T>, b: seq<T>, key: T -> SortKey, k: SortKey)
    ensures WithKey(a + b, key, k) == WithKey(a, key, k) + WithKey(b, key, k)
  {
    if a == [] {
      assert a + b == b;
    } else {
      var h := if key(a[0]) == k then [a[0]] else [];
      assert (a + b)[0] == a[0] && (a + b)[1..] == a[1..] + b;
      calc {
        WithKey(a + b, key, k);
        h + WithKey(a[1..] + b, key, k);
        { WithKeyAppend(a[1..], b, key, k); }
        h + (WithKey(a[1..], key, k) + WithKey(b, key, k));
        (h + WithKey(a[1..], key, k)) + WithKey(b, key, k);
        WithKey(a, key, k) + WithKey(b, key, k);
      }
    }
  }

  /** No element with key k, nothing selected. */
  lemma {:induction false} NoneWithKey<T>(s: seq<T>, key: T -> SortKey, k: SortKey)
    requires forall i :: 0 <= i < |s| ==> key(s[i]) != k
    ensures WithKey(s, key, k) == []
  {
    if s != [] {
      NoneWithKey(s[1..], key, k);
    }
  }

  /** Insert places x after every element of t with the same key. */
  lemma {:induction false} InsertWithKey<T>(t: seq<T>, x: T, key: T -> SortKey, k: SortKey)
    requires SortedBy(t, key)
    ensures WithKey(Insert(t, x, key), key, k) == WithKey(t, key, k) + (if key(x) == k then [x] else [])
  {
    if t == [] {
    } else if !KeyLe(key(t[0]), key(x)) {
      assert Insert(t, x, key) == [x] + t;
      assert ([x] + t)[1..] == t;
      if key(x) == k {
        forall i | 0 <= i < |t| ensures key(t[i]) != k {
          if i > 0 {
            assert KeyLe(key(t[0]), key(t[i]));
          }
        }
        NoneWithKey(t, key, k);
      }
    } else {
      assert SortedBy(t[1..], key) by {
        forall i, j | 0 <= i < j < |t[1..]| ensures KeyLe(key(t[1..][i]), key(t[1..][j])) {
          assert t[1..][i] == t[i + 1] && t[1..][j] == t[j + 1];
        }
      }
      InsertWithKey(t[1..], x, key, k);
      var r := Insert(t, x, key);
      assert r == [t[0]] + Insert(t[1..], x, key);
      assert r[1..] == Insert(t[1..], x, key);
    }
  }

  /** SortBy is stable: the elements sharing any one key keep their input order. */
  lemma {:induction false} SortByStable<T>(s: seq<T>, key: T -> SortKey, k: SortKey)
    ensures WithKey(SortBy(s, key), key, k) == WithKey(s, key, k)
  {
    if s != [] {
      var init, last := s[..|s| - 1], s[|s| - 1];
      SortByStable(init, key, k);
      SortBySpec(init, key);
      InsertWithKey(SortBy(init, key), last, key, k);
      WithKeyAppend(init, [last], key, k);
      assert s == init + [last];
      assert WithKey([last], key, k) == if key(last) == k then [last] else [] by {
        assert [last][1..] == [];
      }
    }
  }
}
