/**
 * Stable sorting by an integer key, as Rust's `slice::sort_by_key` and
 * `slice::sort_by` do: the result is ordered by key, is a permutation of the
 * input, and keeps the input order among elements with equal keys.
 */
module Ordering {

  /** Keys never decrease along `s`. */
  ghost predicate SortedBy<T>(s: seq<T>, key: T -> int)
  {
    forall i, j :: 0 <= i < j < |s| ==> key(s[i]) <= key(s[j])
  }

  /** The elements of `s` whose key is `k`, in their order in `s`. */
  function WithKey<T>(s: seq<T>, key: T -> int, k: int): (r: seq<T>)
    ensures |r| <= |s|
  {
    if s == [] then []
    else (if key(s[0]) == k then [s[0]] else []) + WithKey(s[1..], key, k)
  }

  /** Insert `x` after every element whose key is at most its own. */
  function Insert<T>(s: seq<T>, x: T, key: T -> int): (r: seq<T>)
    ensures |r| == |s| + 1
  {
    if s == [] || key(x) < key(s[0]) then [x] + s
    else [s[0]] + Insert(s[1..], x, key)
  }

  /** Insertion sort, taking elements in input order. */
  function StableSort<T>(s: seq<T>, key: T -> int): (r: seq<T>)
    ensures |r| == |s|
  {
    if s == [] then [] else Insert(StableSort(s[..|s| - 1], key), s[|s| - 1], key)
  }

  lemma {:induction false} WithKeyAppend<T>(a: seq<T>, b: seq<T>, key: T -> int, k: int)
    ensures WithKey(a + b, key, k) == WithKey(a, key, k) + WithKey(b, key, k)
  {
    if a == [] {
      assert a + b == b;
    } else {
      var head := if key(a[0]) == k then [a[0]] else [];
      assert (a + b)[0] == a[0];
      assert (a + b)[1..] == a[1..] + b;
      assert WithKey(a + b, key, k) == head + WithKey(a[1..] + b, key, k);
      WithKeyAppend(a[1..], b, key, k);
      assert WithKey(a, key, k) == head + WithKey(a[1..], key, k);
      assert head + (WithKey(a[1..], key, k) + WithKey(b, key, k))
          == (head + WithKey(a[1..], key, k)) + WithKey(b, key, k);
    }
  }

  lemma {:induction false} WithKeyAbsent<T>(s: seq<T>, key: T -> int, k: int)
    requires forall i :: 0 <= i < |s| ==> key(s[i]) != k
    ensures WithKey(s, key, k) == []
  {
    if s != [] {
      WithKeyAbsent(s[1..], key, k);
    }
  }

  lemma WithOwnKeyNonEmpty<T>(s: seq<T>, key: T -> int)
    ensures s != [] ==> WithKey(s, key, key(s[0])) != []
  {
  }

  /** Inserting adds exactly `x`. */
  lemma {:induction false} InsertPermutes<T>(s: seq<T>, x: T, key: T -> int)
    ensures multiset(Insert(s, x, key)) == multiset(s) + multiset{x}
  {
    if s != [] && key(x) >= key(s[0]) {
      InsertPermutes(s[1..], x, key);
      assert s == [s[0]] + s[1..];
    }
  }

  /** Inserting into a sorted sequence keeps it sorted. */
  lemma {:induction false} InsertSorted<T>(s: seq<T>, x: T, key: T -> int)
    requires SortedBy(s, key)
    ensures SortedBy(Insert(s, x, key), key)
  {
    if s != [] && key(x) >= key(s[0]) {
      var rest := Insert(s[1..], x, key);
      InsertSorted(s[1..], x, key);
      InsertPermutes(s[1..], x, key);
      forall i | 0 <= i < |rest|
        ensures key(s[0]) <= key(rest[i])
      {
        assert rest[i] in multiset(rest);
        if rest[i] != x {
          assert rest[i] in multiset(s[1..]);
          var j :| 0 <= j < |s[1..]| && s[1..][j] == rest[i];
          assert s[j + 1] == rest[i];
        }
      }
    }
  }

  /** Inserting into a sorted sequence puts `x` last among the equal keys. */
  lemma {:induction false} InsertWithKey<T>(s: seq<T>, x: T, key: T -> int, k: int)
    requires SortedBy(s, key)
    ensures WithKey(Insert(s, x, key), key, k) == WithKey(s, key, k) + (if key(x) == k then [x] else [])
  {
    if s == [] {
    } else if key(x) < key(s[0]) {
      assert ([x] + s)[1..] == s;
      if key(x) == k {
        WithKeyAbsent(s, key, k);
      }
    } else {
      var rest := Insert(s[1..], x, key);
      var head := if key(s[0]) == k then [s[0]] else [];
      var tail := if key(x) == k then [x] else [];
      assert ([s[0]] + rest)[0] == s[0];
      assert ([s[0]] + rest)[1..] == rest;
      assert WithKey(Insert(s, x, key), key, k) == head + WithKey(rest, key, k);
      InsertWithKey(s[1..], x, key, k);
      assert WithKey(s, key, k) == head + WithKey(s[1..], key, k);
      assert head + (WithKey(s[1..], key, k) + tail) == (head + WithKey(s[1..], key, k)) + tail;
    }
  }

  /**
   * The stable sort is ordered by key, is a permutation of its input, and
   * keeps the input order among the elements of every key.
   */
  lemma {:induction false} StableSortIsStableSort<T>(s: seq<T>, key: T -> int)
    ensures SortedBy(StableSort(s, key), key)
    ensures multiset(StableSort(s, key)) == multiset(s)
    ensures forall k :: WithKey(StableSort(s, key), key, k) == WithKey(s, key, k)
  {
    if s != [] {
      var init := s[..|s| - 1];
      var last := s[|s| - 1];
      var sorted := StableSort(init, key);
      assert StableSort(s, key) == Insert(sorted, last, key);
      StableSortIsStableSort(init, key);
      InsertSorted(sorted, last, key);
      InsertPermutes(sorted, last, key);
      assert s == init + [last];
      StableSortKeepsKeys(s, init, last, sorted, key);
    }
  }

  /** The step of `StableSortIsStableSort` for the key-wise contents. */
  lemma StableSortKeepsKeys<T>(s: seq<T>, init: seq<T>, last: T, sorted: seq<T>, key: T -> int)
    requires s == init + [last] && SortedBy(sorted, key)
    requires forall k :: WithKey(sorted, key, k) == WithKey(init, key, k)
    ensures forall k :: WithKey(Insert(sorted, last, key), key, k) == WithKey(s, key, k)
  {
    forall k
      ensures WithKey(Insert(sorted, last, key), key, k) == WithKey(s, key, k)
    {
      InsertWithKey(sorted, last, key, k);
      WithKeyAppend(init, [last], key, k);
    }
  }

  /** Two sequences that are sorted and agree on every key's elements are equal. */
  lemma {:induction false} StableSortIsUnique<T>(a: seq<T>, b: seq<T>, key: T -> int)
    requires SortedBy(a, key) && SortedBy(b, key)
    requires forall k :: WithKey(a, key, k) == WithKey(b, key, k)
    ensures a == b
    decreases |a| + |b|
  {
    if a == [] || b == [] {
      WithOwnKeyNonEmpty(a, key);
      WithOwnKeyNonEmpty(b, key);
    } else {
      var ka := key(a[0]);
      var kb := key(b[0]);
      if ka < kb {
        WithKeyAbsent(b, key, ka);
        WithOwnKeyNonEmpty(a, key);
      } else if kb < ka {
        WithKeyAbsent(a, key, kb);
        WithOwnKeyNonEmpty(b, key);
      } else {
        assert WithKey(a, key, ka)[0] == a[0];
        assert WithKey(b, key, ka)[0] == b[0];
        forall k
          ensures WithKey(a[1..], key, k) == WithKey(b[1..], key, k)
        {
          var head := if ka == k then [a[0]] else [];
          assert WithKey(a, key, k) == head + WithKey(a[1..], key, k);
          assert WithKey(b, key, k) == head + WithKey(b[1..], key, k);
          assert WithKey(a, key, k) == WithKey(b, key, k);
          assert (head + WithKey(a[1..], key, k))[|head|..] == WithKey(a[1..], key, k);
          assert (head + WithKey(b[1..], key, k))[|head|..] == WithKey(b[1..], key, k);
        }
        StableSortIsUnique(a[1..], b[1..], key);
        assert a == [a[0]] + a[1..];
        assert b == [b[0]] + b[1..];
      }
    }
  }
}
