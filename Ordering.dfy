/** Python's `sorted(xs, key=...)` and `list.sort(key=...)` as used by
    svg_parser.py: a stable sort by a key. The keys used there are pairs
    compared lexicographically (the first point `(x, y)` of a subpath) and a
    negated length (`-len(s)`, longest first), so keys are modelled as pairs
    of reals. The sort is written as an insertion sort; what the lemmas pin
    down (ordered, a permutation, stable) determines the result uniquely. */
module Ordering {

  datatype Key = Key(major: real, minor: real)

  /** Lexicographic order on keys, as Python compares tuples. */
  predicate KeyLe(a: Key, b: Key)
  {
    a.major < b.major || (a.major == b.major && a.minor <= b.minor)
  }

  /** Inserts x in front of the first element whose key is not smaller, so
      that x comes before the elements of equal key that follow it. */
  function Insert<T>(x: T, s: seq<T>, key: T -> Key): (r: seq<T>)
    ensures |r| == |s| + 1
    ensures multiset(r) == multiset(s) + multiset{x}
  {
    if s == [] || KeyLe(key(x), key(s[0])) then [x] + s
    else
      assert s == [s[0]] + s[1..];
      [s[0]] + Insert(x, s[1..], key)
  }

  /** The stable sort: each element is inserted, from the back of the list
      forwards, into the sorted rest. */
  function SortBy<T>(s: seq<T>, key: T -> Key): (r: seq<T>)
    ensures multiset(r) == multiset(s)
    ensures |r| == |s|
  {
    if s == [] then []
    else
      assert s == [s[0]] + s[1..];
      Insert(s[0], SortBy(s[1..], key), key)
  }

  predicate SortedBy<T>(s: seq<T>, key: T -> Key)
  {
    forall i, j :: 0 <= i < j < |s| ==> KeyLe(key(s[i]), key(s[j]))
  }

  lemma {:induction false} InsertKeepsSorted<T>(x: T, s: seq<T>, key: T -> Key)
    requires SortedBy(s, key)
    ensures SortedBy(Insert(x, s, key), key)
    decreases |s|
  {
    if s == [] || KeyLe(key(x), key(s[0])) {
    } else {
      InsertKeepsSorted(x, s[1..], key);
      var r := Insert(x, s, key);
      var rest := Insert(x, s[1..], key);
      assert r == [s[0]] + rest;
      assert multiset(rest) == multiset(s[1..]) + multiset{x};
      forall j | 1 <= j < |r|
        ensures KeyLe(key(s[0]), key(r[j]))
      {
        assert r[j] == rest[j - 1];
        assert rest[j - 1] in multiset(rest);
        if rest[j - 1] != x {
          assert rest[j - 1] in multiset(s[1..]);
          var k :| 0 <= k < |s[1..]| && s[1..][k] == rest[j - 1];
          assert s[1..][k] == s[k + 1];
        }
      }
    }
  }

  /** The sort's result is ordered by key. */
  lemma {:induction false} SortByIsSorted<T>(s: seq<T>, key: T -> Key)
    ensures SortedBy(SortBy(s, key), key)
    decreases |s|
  {
    if s != [] {
      SortByIsSorted(s[1..], key);
      InsertKeepsSorted(s[0], SortBy(s[1..], key), key);
    }
  }

  /** The elements whose key is k, in their original order. */
  function WithKey<T>(s: seq<T>, key: T -> Key, k: Key): (r: seq<T>)
    ensures |r| <= |s|
  {
    if s == [] then []
    else (if key(s[0]) == k then [s[0]] else []) + WithKey(s[1..], key, k)
  }

  lemma WithKeyConcat<T>(a: seq<T>, b: seq<T>, key: T -> Key, k: Key)
    ensures WithKey(a + b, key, k) == WithKey(a, key, k) + WithKey(b, key, k)
  {
    if a == [] {
      assert a + b == b;
    } else {
      assert (a + b)[0] == a[0] && (a + b)[1..] == a[1..] + b;
      WithKeyConcat(a[1..], b, key, k);
    }
  }

  /** Inserting x places it after exactly the elements of smaller key; since
      the list is sorted, none of those share x's key. */
  lemma {:induction false} InsertIsStable<T>(x: T, s: seq<T>, key: T -> Key, k: Key)
    requires SortedBy(s, key)
    ensures WithKey(Insert(x, s, key), key, k) == WithKey([x], key, k) + WithKey(s, key, k)
    decreases |s|
  {
    if s == [] || KeyLe(key(x), key(s[0])) {
      WithKeyConcat([x], s, key, k);
    } else {
      assert s == [s[0]] + s[1..];
      InsertIsStable(x, s[1..], key, k);
      WithKeyConcat([s[0]], Insert(x, s[1..], key), key, k);
      WithKeyConcat([s[0]], s[1..], key, k);
      if key(x) == k {
        assert key(s[0]) != k;
      }
    }
  }

  /** Stability: for every key, the elements with that key keep their
      relative order. */
  lemma {:induction false} SortByIsStable<T>(s: seq<T>, key: T -> Key, k: Key)
    ensures WithKey(SortBy(s, key), key, k) == WithKey(s, key, k)
    decreases |s|
  {
    if s != [] {
      SortByIsStable(s[1..], key, k);
      SortByIsSorted(s[1..], key);
      InsertIsStable(s[0], SortBy(s[1..], key), key, k);
      assert s == [s[0]] + s[1..];
      WithKeyConcat([s[0]], s[1..], key, k);
    }
  }
}
