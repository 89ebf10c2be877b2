/**
 * Python's `list.sort(key=...)`: a stable sort on a numeric key.  The
 * scripts sort snapshots by time, fights by start time and report rows by
 * copper (descending, which is the ascending sort on the negated key and is
 * stable in Python too).  The sort is a library call in the source, so it is
 * modelled as a function: a stable insertion sort.
 */
module Seqs {

  /** Every element's key is at most the key of every later element. */
  ghost predicate SortedBy<T>(s: seq<T>, key: T -> real) {
    forall i, j :: 0 <= i < j < |s| ==> key(s[i]) <= key(s[j])
  }

  /** Inserts `x` after every element whose key is at most `key(x)`. */
  function Insert<T>(x: T, s: seq<T>, key: T -> real): seq<T> {
    if s == [] then [x]
    else if key(x) < key(s[0]) then [x] + s
    else [s[0]] + Insert(x, s[1..], key)
  }

  /** `sorted(s, key=key)` */
  function SortBy<T>(s: seq<T>, key: T -> real): seq<T> {
    if s == [] then [] else Insert(s[|s| - 1], SortBy(s[..|s| - 1], key), key)
  }

  /** The elements of `s` whose key is `k`, in order. */
  function WithKey<T>(s: seq<T>, key: T -> real, k: real): (r: seq<T>)
    ensures |r| <= |s|
  {
    if s == [] then [] else WithKey(s[..|s| - 1], key, k) + (if key(s[|s| - 1]) == k then [s[|s| - 1]] else [])
  }

  lemma {:induction false} WithKeyAppend<T>(a: seq<T>, b: seq<T>, key: T -> real, k: real)
    ensures WithKey(a + b, key, k) == WithKey(a, key, k) + WithKey(b, key, k)
    decreases |b|
  {
    if b == [] {
      assert a + b == a;
    } else {
      assert (a + b)[..|a + b| - 1] == a + b[..|b| - 1];
      WithKeyAppend(a, b[..|b| - 1], key, k);
    }
  }

  lemma {:induction false} WithKeyAbove<T>(s: seq<T>, key: T -> real, k: real)
    requires forall i :: 0 <= i < |s| ==> key(s[i]) > k
    ensures WithKey(s, key, k) == []
  {
    if s != [] {
      WithKeyAbove(s[..|s| - 1], key, k);
    }
  }

  /** Each key is at most the next one. */
  ghost predicate AdjacentSorted<T>(s: seq<T>, key: T -> real) {
    forall i :: 0 < i < |s| ==> key(s[i - 1]) <= key(s[i])
  }

  lemma {:induction false} AdjacentToSorted<T>(s: seq<T>, key: T -> real)
    requires AdjacentSorted(s, key)
    ensures SortedBy(s, key)
    decreases |s|
  {
    if s != [] {
      var init := s[..|s| - 1];
      AdjacentToSorted(init, key);
      forall i, j | 0 <= i < j < |s| ensures key(s[i]) <= key(s[j]) {
        if j == |s| - 1 && i < j - 1 {
          assert key(init[i]) <= key(init[j - 1]);
        }
      }
    }
  }

  lemma {:induction false} InsertCount<T>(x: T, s: seq<T>, key: T -> real)
    ensures multiset(Insert(x, s, key)) == multiset(s) + multiset{x}
    ensures |Insert(x, s, key)| == |s| + 1
    ensures Insert(x, s, key)[0] == x || Insert(x, s, key)[0] == s[0]
    decreases |s|
  {
    if s != [] && key(x) >= key(s[0]) {
      InsertCount(x, s[1..], key);
      assert s == [s[0]] + s[1..];
    }
  }

  lemma {:induction false} InsertAdjacent<T>(x: T, s: seq<T>, key: T -> real)
    requires AdjacentSorted(s, key)
    ensures AdjacentSorted(Insert(x, s, key), key)
    decreases |s|
  {
    if s != [] && key(x) >= key(s[0]) {
      InsertAdjacent(x, s[1..], key);
      InsertCount(x, s[1..], key);
    }
  }

  lemma {:induction false} InsertSorted<T>(x: T, s: seq<T>, key: T -> real)
    requires SortedBy(s, key)
    ensures SortedBy(Insert(x, s, key), key)
    ensures multiset(Insert(x, s, key)) == multiset(s) + multiset{x}
    ensures |Insert(x, s, key)| == |s| + 1
  {
    InsertAdjacent(x, s, key);
    AdjacentToSorted(Insert(x, s, key), key);
    InsertCount(x, s, key);
  }

  /** A stable sort returns its input, reordered, with keys ascending. */
  lemma {:induction false} SortByPermutes<T>(s: seq<T>, key: T -> real)
    ensures SortedBy(SortBy(s, key), key)
    ensures multiset(SortBy(s, key)) == multiset(s)
    ensures |SortBy(s, key)| == |s|
    decreases |s|
  {
    if s != [] {
      SortByPermutes(s[..|s| - 1], key);
      InsertSorted(s[|s| - 1], SortBy(s[..|s| - 1], key), key);
      assert s == s[..|s| - 1] + [s[|s| - 1]];
    }
  }

  lemma {:induction false} WithKeySingle<T>(x: T, key: T -> real, k: real)
    ensures WithKey([x], key, k) == if key(x) == k then [x] else []
  {
    assert [x][..0] == [];
  }

  lemma {:induction false} SortedTail<T>(s: seq<T>, key: T -> real)
    requires s != [] && SortedBy(s, key)
    ensures SortedBy(s[1..], key)
    ensures forall i :: 0 <= i < |s| ==> key(s[0]) <= key(s[i])
  {
    forall i, j | 0 <= i < j < |s| - 1 ensures key(s[1..][i]) <= key(s[1..][j]) {
      assert s[1..][i] == s[i + 1] && s[1..][j] == s[j + 1];
    }
  }

  /** Inserting an element with a key below all others puts it in front. */
  lemma {:induction false} WithKeyInsertFront<T>(x: T, s: seq<T>, key: T -> real, k: real)
    requires s != [] && SortedBy(s, key) && key(x) < key(s[0])
    ensures WithKey([x] + s, key, k) == WithKey(s, key, k) + (if key(x) == k then [x] else [])
  {
    WithKeyAppend([x], s, key, k);
    WithKeySingle(x, key, k);
    if key(x) == k {
      SortedTail(s, key);
      WithKeyAbove(s, key, k);
    }
  }

  lemma {:induction false} WithKeyInsert<T>(x: T, s: seq<T>, key: T -> real, k: real)
    requires SortedBy(s, key)
    ensures WithKey(Insert(x, s, key), key, k) == WithKey(s, key, k) + (if key(x) == k then [x] else [])
    decreases |s|
  {
    if s == [] {
      assert Insert(x, s, key) == [x];
      WithKeySingle(x, key, k);
    } else if key(x) < key(s[0]) {
      assert Insert(x, s, key) == [x] + s;
      WithKeyInsertFront(x, s, key, k);
    } else {
      SortedTail(s, key);
      WithKeyInsert(x, s[1..], key, k);
      WithKeyCons(s[0], s[1..], Insert(x, s[1..], key), key, k, if key(x) == k then [x] else []);
      assert Insert(x, s, key) == [s[0]] + Insert(x, s[1..], key);
      assert [s[0]] + s[1..] == s;
    }
  }

  /** Putting one element in front of both sides of a `WithKey` equation keeps it. */
  lemma {:induction false} WithKeyCons<T>(y: T, a: seq<T>, b: seq<T>, key: T -> real, k: real, extra: seq<T>)
    requires WithKey(b, key, k) == WithKey(a, key, k) + extra
    ensures WithKey([y] + b, key, k) == WithKey([y] + a, key, k) + extra
  {
    WithKeyAppend([y], b, key, k);
    WithKeyAppend([y], a, key, k);
    assert WithKey([y], key, k) + (WithKey(a, key, k) + extra) == (WithKey([y], key, k) + WithKey(a, key, k)) + extra;
  }

  /** Stability: for every key value, the elements with that key keep their input order. */
  lemma {:induction false} SortByStable<T>(s: seq<T>, key: T -> real, k: real)
    ensures WithKey(SortBy(s, key), key, k) == WithKey(s, key, k)
    decreases |s|
  {
    if s != [] {
      var init := s[..|s| - 1];
      SortByPermutes(init, key);
      SortByStable(init, key, k);
      WithKeyInsert(s[|s| - 1], SortBy(init, key), key, k);
    }
  }

  /** Sorting a list that is already in order leaves it unchanged. */
  lemma {:induction false} SortBySorted<T>(s: seq<T>, key: T -> real)
    requires SortedBy(s, key)
    ensures SortBy(s, key) == s
    decreases |s|
  {
    if s != [] {
      var init := s[..|s| - 1];
      SortBySorted(init, key);
      InsertLast(s[|s| - 1], init, key);
      assert init + [s[|s| - 1]] == s;
    }
  }

  lemma {:induction false} InsertLast<T>(x: T, s: seq<T>, key: T -> real)
    requires forall i :: 0 <= i < |s| ==> key(s[i]) <= key(x)
    ensures Insert(x, s, key) == s + [x]
    decreases |s|
  {
    if s != [] {
      InsertLast(x, s[1..], key);
      assert [s[0]] + (s[1..] + [x]) == s + [x];
    }
  }

  /** Sorting neither adds nor drops an element. */
  lemma {:induction false} SortByMember<T>(s: seq<T>, key: T -> real, x: T)
    ensures x in SortBy(s, key) <==> x in s
  {
    SortByPermutes(s, key);
    assert x in SortBy(s, key) <==> x in multiset(SortBy(s, key));
    assert x in s <==> x in multiset(s);
  }

  lemma {:induction false} SortedAdjacent<T>(s: seq<T>, key: T -> real)
    requires SortedBy(s, key)
    ensures AdjacentSorted(s, key)
  {
  }
}
