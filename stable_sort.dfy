/**
 * A stable sort by key, the behaviour of Python's `sorted(xs, key=...)`.
 * Keys are compared lexicographically, like Python tuples of up to three integers.
 */
module StableSort {

  /** A sort key: compared on `major`, then `middle`, then `minor`. */
  datatype Key = Key(major: int, middle: int, minor: int)

  predicate KeyLe(a: Key, b: Key)
  {
    a.major < b.major
    || (a.major == b.major && (a.middle < b.middle || (a.middle == b.middle && a.minor <= b.minor)))
  }

  /** `s` is non-decreasing in `key`. */
  predicate SortedBy<T>(s: seq<T>, key: T -> Key)
  {
    forall i, j :: 0 <= i < j < |s| ==> KeyLe(key(s[i]), key(s[j]))
  }

  /** The subsequence of `s` whose key is exactly `k`, in the order of `s`. */
  function Having<T>(s: seq<T>, key: T -> Key, k: Key): seq<T>
  {
    if |s| == 0 then []
    else Having(s[..|s| - 1], key, k) + (if key(s[|s| - 1]) == k then [s[|s| - 1]] else [])
  }

  /** Puts `x` after every element of `t` whose key is not greater than its own. */
  function Insert<T>(t: seq<T>, x: T, key: T -> Key): (r: seq<T>)
    ensures |r| == |t| + 1
  {
    if |t| == 0 then [x]
    else if KeyLe(key(t[|t| - 1]), key(x)) then t + [x]
    else Insert(t[..|t| - 1], x, key) + [t[|t| - 1]]
  }

  /** Insertion sort: the result is a permutation of `s`, non-decreasing in `key`. */
  function SortBy<T>(s: seq<T>, key: T -> Key): (r: seq<T>)
    ensures |r| == |s|
  {
    if |s| == 0 then []
    else Insert(SortBy(s[..|s| - 1], key), s[|s| - 1], key)
  }

  /** A prefix of a sorted sequence is sorted. */
  lemma SortedPrefix<T>(s: seq<T>, key: T -> Key, n: nat)
    requires SortedBy(s, key) && n <= |s|
    ensures SortedBy(s[..n], key)
  {
    forall i, j | 0 <= i < j < n ensures KeyLe(key(s[..n][i]), key(s[..n][j])) {
      assert s[..n][i] == s[i] && s[..n][j] == s[j];
    }
  }

  lemma WholePrefix<T>(s: seq<T>, n: nat)
    requires n == |s|
    ensures s[..n] == s
  {
  }

  lemma {:induction false} InsertPermutation<T>(t: seq<T>, x: T, key: T -> Key)
    ensures multiset(Insert(t, x, key)) == multiset(t) + multiset{x}
  {
    if |t| > 0 && !KeyLe(key(t[|t| - 1]), key(x)) {
      InsertPermutation(t[..|t| - 1], x, key);
      assert t == t[..|t| - 1] + [t[|t| - 1]];
    }
  }

  /** The output of `SortBy` is a permutation of its input. */
  lemma {:induction false} SortByPermutation<T>(s: seq<T>, key: T -> Key)
    ensures multiset(SortBy(s, key)) == multiset(s)
  {
    if |s| > 0 {
      SortByPermutation(s[..|s| - 1], key);
      InsertPermutation(SortBy(s[..|s| - 1], key), s[|s| - 1], key);
      assert s == s[..|s| - 1] + [s[|s| - 1]];
    }
  }

  lemma {:induction false} InsertSorted<T>(t: seq<T>, x: T, key: T -> Key)
    requires SortedBy(t, key)
    ensures SortedBy(Insert(t, x, key), key)
  {
    if |t| > 0 && !KeyLe(key(t[|t| - 1]), key(x)) {
      var last := t[|t| - 1];
      var init := t[..|t| - 1];
      InsertSorted(init, x, key);
      var r' := Insert(init, x, key);
      InsertPermutation(init, x, key);
      forall y | y in r' ensures KeyLe(key(y), key(last)) {
        assert y in multiset(r');
        assert y in multiset(init) || y == x;
        if y in multiset(init) {
          var i :| 0 <= i < |init| && init[i] == y;
          assert t[i] == y;
        }
      }
      assert Insert(t, x, key) == r' + [last];
    }
  }

  /** The output of `SortBy` is non-decreasing in the key. */
  lemma {:induction false} SortBySorted<T>(s: seq<T>, key: T -> Key)
    ensures SortedBy(SortBy(s, key), key)
  {
    if |s| > 0 {
      SortBySorted(s[..|s| - 1], key);
      InsertSorted(SortBy(s[..|s| - 1], key), s[|s| - 1], key);
    }
  }

  lemma {:induction false} HavingConcat<T>(a: seq<T>, b: seq<T>, key: T -> Key, k: Key)
    ensures Having(a + b, key, k) == Having(a, key, k) + Having(b, key, k)
  {
    if |b| > 0 {
      var b' := b[..|b| - 1];
      assert (a + b)[..|a + b| - 1] == a + b';
      HavingConcat(a, b', key, k);
    } else {
      assert a + b == a;
    }
  }

  /** An element placed after `x` with a greater key leaves `x`'s place among its equals. */
  lemma {:induction false} InsertStableStep<T>(init: seq<T>, last: T, x: T, key: T -> Key, k: Key)
    requires !KeyLe(key(last), key(x))
    requires Having(Insert(init, x, key), key, k) == Having(init, key, k) + (if key(x) == k then [x] else [])
    ensures Having(Insert(init, x, key) + [last], key, k)
            == Having(init + [last], key, k) + (if key(x) == k then [x] else [])
  {
    HavingConcat(Insert(init, x, key), [last], key, k);
    HavingConcat(init, [last], key, k);
    var before, mine, theirs := Having(init, key, k), if key(x) == k then [x] else [], Having([last], key, k);
    assert [last][..0] == [];
    assert key(last) != key(x);
    if key(x) == k {
      assert theirs == [];
      assert before + mine + theirs == before + theirs + mine;
    } else {
      assert mine == [];
      assert before + mine + theirs == before + theirs + mine;
    }
  }

  lemma {:induction false} InsertStable<T>(t: seq<T>, x: T, key: T -> Key, k: Key)
    requires SortedBy(t, key)
    ensures Having(Insert(t, x, key), key, k) == Having(t, key, k) + (if key(x) == k then [x] else [])
  {
    if |t| == 0 {
      assert Having([x], key, k) == Having([], key, k) + (if key(x) == k then [x] else []) by {
        assert [x][..0] == [];
      }
    } else if KeyLe(key(t[|t| - 1]), key(x)) {
      HavingConcat(t, [x], key, k);
      assert [x][..0] == [];
    } else {
      var init, last := t[..|t| - 1], t[|t| - 1];
      assert SortedBy(init, key) by {
        forall i, j | 0 <= i < j < |init| ensures KeyLe(key(init[i]), key(init[j])) {
          assert init[i] == t[i] && init[j] == t[j];
        }
      }
      InsertStable(init, x, key, k);
      assert Insert(t, x, key) == Insert(init, x, key) + [last];
      assert t == init + [last];
      InsertStableStep(init, last, x, key, k);
    }
  }

  /**
   * Stability: for every key value, the elements with that key come out in the order
   * they went in.
   */
  lemma {:induction false} SortByStable<T>(s: seq<T>, key: T -> Key, k: Key)
    ensures Having(SortBy(s, key), key, k) == Having(s, key, k)
  {
    if |s| > 0 {
      var init, last := s[..|s| - 1], s[|s| - 1];
      SortByStable(init, key, k);
      SortBySorted(init, key);
      InsertStable(SortBy(init, key), last, key, k);
    }
  }

  /** Sorting a sequence that is already sorted changes nothing. */
  lemma {:induction false} SortByIdempotent<T>(s: seq<T>, key: T -> Key)
    requires SortedBy(s, key)
    ensures SortBy(s, key) == s
  {
    if |s| > 0 {
      var init, last := s[..|s| - 1], s[|s| - 1];
      assert SortedBy(init, key) by {
        forall i, j | 0 <= i < j < |init| ensures KeyLe(key(init[i]), key(init[j])) {
          assert init[i] == s[i] && init[j] == s[j];
        }
      }
      SortByIdempotent(init, key);
      if |init| > 0 {
        assert KeyLe(key(init[|init| - 1]), key(last));
      }
      assert init + [last] == s;
    }
  }

  /** Sorting twice is the same as sorting once. */
  lemma SortByTwice<T>(s: seq<T>, key: T -> Key)
    ensures SortBy(SortBy(s, key), key) == SortBy(s, key)
  {
    SortBySorted(s, key);
    SortByIdempotent(SortBy(s, key), key);
  }
}
