/** The stable list sorts the core relies on (Java's `List.sort`, JavaScript's
    `Array.prototype.sort`), specified by a key that orders lexicographically: a stable
    insertion sort, sorted, a permutation of its input, and keeping the input order of
    elements with equal keys. */
module Sorting {

  /** A sort key compared lexicographically, `major` first. */
  datatype Key = Key(major: int, minor: int)

  predicate KeyLe(a: Key, b: Key)
  {
    a.major < b.major || (a.major == b.major && a.minor <= b.minor)
  }

  predicate SortedBy<T>(s: seq<T>, key: T -> Key)
  {
    forall i, j :: 0 <= i < j < |s| ==> KeyLe(key(s[i]), key(s[j]))
  }

  /** `x` placed before the first element whose key is not smaller than its own. */
  function Insert<T>(x: T, s: seq<T>, key: T -> Key): (r: seq<T>)
    ensures |r| == |s| + 1
  {
    if s == [] || KeyLe(key(x), key(s[0])) then [x] + s
    else [s[0]] + Insert(x, s[1..], key)
  }

  /** Stable insertion sort: the head is inserted into the sorted tail ahead of its equals. */
  function SortBy<T>(s: seq<T>, key: T -> Key): (r: seq<T>)
    ensures |r| == |s|
  {
    if s == [] then [] else Insert(s[0], SortBy(s[1..], key), key)
  }

  /** The elements of `s` with key `k`, in order. */
  function WithKey<T>(s: seq<T>, key: T -> Key, k: Key): seq<T>
  {
    if s == [] then [] else (if key(s[0]) == k then [s[0]] else []) + WithKey(s[1..], key, k)
  }

  lemma {:induction false} InsertPermutes<T>(x: T, s: seq<T>, key: T -> Key)
    ensures multiset(Insert(x, s, key)) == multiset(s) + multiset{x}
  {
    if s != [] && !KeyLe(key(x), key(s[0])) {
      InsertPermutes(x, s[1..], key);
      assert s == [s[0]] + s[1..];
    }
  }

  lemma {:induction false} InsertSorted<T>(x: T, s: seq<T>, key: T -> Key)
    requires SortedBy(s, key)
    ensures SortedBy(Insert(x, s, key), key)
    ensures forall i :: 0 <= i < |Insert(x, s, key)| ==>
              Insert(x, s, key)[i] == x || exists j :: 0 <= j < |s| && Insert(x, s, key)[i] == s[j]
  {
    if s != [] && !KeyLe(key(x), key(s[0])) {
      InsertSorted(x, s[1..], key);
      var t := Insert(x, s[1..], key);
      forall i | 0 <= i < |t|
        ensures KeyLe(key(s[0]), key(t[i]))
      {
        if t[i] != x {
          var j :| 0 <= j < |s[1..]| && t[i] == s[1..][j];
          assert t[i] == s[j + 1];
        }
      }
      forall i | 0 <= i < |[s[0]] + t|
        ensures ([s[0]] + t)[i] == x || exists j :: 0 <= j < |s| && ([s[0]] + t)[i] == s[j]
      {
        if i > 0 && t[i - 1] != x {
          var j :| 0 <= j < |s[1..]| && t[i - 1] == s[1..][j];
          assert ([s[0]] + t)[i] == s[j + 1];
        } else if i == 0 {
          assert ([s[0]] + t)[i] == s[0];
        }
      }
    }
  }

  /** The sort yields a sorted sequence. */
  lemma {:induction false} SortBySorted<T>(s: seq<T>, key: T -> Key)
    ensures SortedBy(SortBy(s, key), key)
  {
    if s != [] {
      SortBySorted(s[1..], key);
      InsertSorted(s[0], SortBy(s[1..], key), key);
    }
  }

  /** The sort is a permutation of its input. */
  lemma {:induction false} SortByPermutes<T>(s: seq<T>, key: T -> Key)
    ensures multiset(SortBy(s, key)) == multiset(s)
  {
    if s != [] {
      SortByPermutes(s[1..], key);
      InsertPermutes(s[0], SortBy(s[1..], key), key);
      assert s == [s[0]] + s[1..];
    }
  }

  lemma {:induction false} WithKeyAppend<T>(a: seq<T>, b: seq<T>, key: T -> Key, k: Key)
    ensures WithKey(a + b, key, k) == WithKey(a, key, k) + WithKey(b, key, k)
  {
    if a != [] {
      WithKeyAppend(a[1..], b, key, k);
      assert (a + b)[1..] == a[1..] + b;
    } else {
      assert a + b == b;
    }
  }

  /** Inserting `x` puts it ahead of every element with its own key. */
  lemma {:induction false} InsertWithKey<T>(x: T, s: seq<T>, key: T -> Key, k: Key)
    requires SortedBy(s, key)
    ensures WithKey(Insert(x, s, key), key, k) == (if key(x) == k then [x] else []) + WithKey(s, key, k)
  {
    if s == [] || KeyLe(key(x), key(s[0])) {
      WithKeyAppend([x], s, key, k);
    } else {
      InsertWithKey(x, s[1..], key, k);
      WithKeyAppend([s[0]], Insert(x, s[1..], key), key, k);
      if key(x) == k {
        // the tail is sorted after s[0], whose key is below x's, so nothing before x has key k
        assert key(s[0]) != k;
      }
    }
  }

  /** Stability: elements with equal keys keep their input order. */
  lemma {:induction false} SortByStable<T>(s: seq<T>, key: T -> Key, k: Key)
    ensures WithKey(SortBy(s, key), key, k) == WithKey(s, key, k)
  {
    if s != [] {
      SortByStable(s[1..], key, k);
      SortBySorted(s[1..], key);
      InsertWithKey(s[0], SortBy(s[1..], key), key, k);
    }
  }
}
