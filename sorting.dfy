/**
 * `Array.prototype.sort` with a comparator of the form `(a, b) => key(b) - key(a)`:
 * since ES2019 the sort is stable, so for an integral key the result is the
 * unique stable ordering by descending key. It is written here as an
 * insertion sort, and proved sorted, a permutation of its input and stable.
 */
module StableSort {

  /** Every element's key is at least the key of every element after it. */
  predicate SortedDesc<T>(xs: seq<T>, key: T -> int) {
    forall i, j :: 0 <= i < j < |xs| ==> key(xs[i]) >= key(xs[j])
  }

  /** The elements of `xs` whose key is `k`, in their order in `xs`. */
  function WithKey<T>(xs: seq<T>, key: T -> int, k: int): (r: seq<T>)
    ensures |r| <= |xs|
  {
    if xs == [] then []
    else (if key(xs[0]) == k then [xs[0]] else []) + WithKey(xs[1..], key, k)
  }

  /** `x` placed after every element of `ys` whose key is at least its own. */
  function Insert<T>(x: T, ys: seq<T>, key: T -> int): seq<T>
  {
    if ys == [] then [x]
    else if key(ys[0]) >= key(x) then [ys[0]] + Insert(x, ys[1..], key)
    else [x] + ys
  }

  /** The stable descending sort of `xs` by `key`. */
  function SortDesc<T>(xs: seq<T>, key: T -> int): seq<T>
  {
    if xs == [] then [] else Insert(xs[|xs| - 1], SortDesc(xs[..|xs| - 1], key), key)
  }

  lemma TailSorted<T>(ys: seq<T>, key: T -> int)
    requires ys != [] && SortedDesc(ys, key)
    ensures SortedDesc(ys[1..], key)
    ensures forall j :: 0 <= j < |ys[1..]| ==> key(ys[0]) >= key(ys[1..][j])
  {
    forall i, j | 0 <= i < j < |ys[1..]| ensures key(ys[1..][i]) >= key(ys[1..][j]) {
      assert ys[1..][i] == ys[i + 1] && ys[1..][j] == ys[j + 1];
    }
    forall j | 0 <= j < |ys[1..]| ensures key(ys[0]) >= key(ys[1..][j]) {
      assert ys[1..][j] == ys[j + 1];
    }
  }

  lemma {:induction false} InsertPermutes<T>(x: T, ys: seq<T>, key: T -> int)
    ensures multiset(Insert(x, ys, key)) == multiset(ys) + multiset{x}
    decreases |ys|
  {
    if ys != [] && key(ys[0]) >= key(x) {
      InsertPermutes(x, ys[1..], key);
      assert ys == [ys[0]] + ys[1..];
    }
  }

  /** Every element of `Insert(x, ys)` is `x` or an element of `ys`. */
  lemma {:induction false} InsertBounded<T>(x: T, ys: seq<T>, key: T -> int, bound: int)
    requires key(x) <= bound
    requires forall j :: 0 <= j < |ys| ==> key(ys[j]) <= bound
    ensures forall j :: 0 <= j < |Insert(x, ys, key)| ==> key(Insert(x, ys, key)[j]) <= bound
    decreases |ys|
  {
    if ys != [] && key(ys[0]) >= key(x) {
      forall j | 0 <= j < |ys[1..]| ensures key(ys[1..][j]) <= bound {
        assert ys[1..][j] == ys[j + 1];
      }
      InsertBounded(x, ys[1..], key, bound);
    }
  }

  lemma {:induction false} InsertSorted<T>(x: T, ys: seq<T>, key: T -> int)
    requires SortedDesc(ys, key)
    ensures SortedDesc(Insert(x, ys, key), key)
    decreases |ys|
  {
    var r := Insert(x, ys, key);
    if ys == [] {
    } else if key(ys[0]) >= key(x) {
      var rest := Insert(x, ys[1..], key);
      TailSorted(ys, key);
      InsertSorted(x, ys[1..], key);
      InsertBounded(x, ys[1..], key, key(ys[0]));
      assert r == [ys[0]] + rest;
      forall i, j | 0 <= i < j < |r| ensures key(r[i]) >= key(r[j]) {
        assert r[j] == rest[j - 1];
        if i > 0 {
          assert r[i] == rest[i - 1];
        }
      }
    } else {
      assert r == [x] + ys;
      forall i, j | 0 <= i < j < |r| ensures key(r[i]) >= key(r[j]) {
        assert r[j] == ys[j - 1];
        if i > 0 {
          assert r[i] == ys[i - 1];
        } else {
          assert j - 1 == 0 || key(ys[0]) >= key(ys[j - 1]);
        }
      }
    }
  }

  lemma {:induction false} InsertStable<T>(x: T, ys: seq<T>, key: T -> int, k: int)
    requires SortedDesc(ys, key)
    ensures WithKey(Insert(x, ys, key), key, k) == WithKey(ys, key, k) + (if key(x) == k then [x] else [])
    decreases |ys|
  {
    if ys == [] {
      assert Insert(x, ys, key) == [x] + ys;
      WithKeyCons(x, ys, key, k);
    } else if key(ys[0]) >= key(x) {
      TailSorted(ys, key);
      InsertStable(x, ys[1..], key, k);
      InsertBehind(x, ys, key, k);
    } else {
      InsertFront(x, ys, key, k);
    }
  }

  /** `x` placed behind the head of `ys`: stability follows from stability on the tail. */
  lemma InsertBehind<T>(x: T, ys: seq<T>, key: T -> int, k: int)
    requires ys != [] && key(ys[0]) >= key(x)
    requires WithKey(Insert(x, ys[1..], key), key, k) == WithKey(ys[1..], key, k) + (if key(x) == k then [x] else [])
    ensures WithKey(Insert(x, ys, key), key, k) == WithKey(ys, key, k) + (if key(x) == k then [x] else [])
  {
    var rest := Insert(x, ys[1..], key);
    var h := if key(ys[0]) == k then [ys[0]] else [];
    var tail := if key(x) == k then [x] else [];
    var below := WithKey(ys[1..], key, k);
    calc {
      WithKey(Insert(x, ys, key), key, k);
      { assert Insert(x, ys, key) == [ys[0]] + rest; }
      WithKey([ys[0]] + rest, key, k);
      { WithKeyCons(ys[0], rest, key, k); }
      h + WithKey(rest, key, k);
      h + (below + tail);
      (h + below) + tail;
      { assert WithKey(ys, key, k) == h + below; }
      WithKey(ys, key, k) + tail;
    }
  }

  /** `x` placed before a list whose keys are all below its own. */
  lemma InsertFront<T>(x: T, ys: seq<T>, key: T -> int, k: int)
    requires SortedDesc(ys, key)
    requires ys != [] && key(ys[0]) < key(x)
    ensures WithKey(Insert(x, ys, key), key, k) == WithKey(ys, key, k) + (if key(x) == k then [x] else [])
  {
    assert Insert(x, ys, key) == [x] + ys;
    WithKeyCons(x, ys, key, k);
    if key(x) == k {
      NoneWithKeyAbove(ys, key, k);
    }
  }

  lemma WithKeyCons<T>(y: T, rest: seq<T>, key: T -> int, k: int)
    ensures WithKey([y] + rest, key, k) == (if key(y) == k then [y] else []) + WithKey(rest, key, k)
  {
    assert ([y] + rest)[0] == y && ([y] + rest)[1..] == rest;
  }

  /** In a list sorted by descending key whose first key is below `k`, no element has key `k`. */
  lemma {:induction false} NoneWithKeyAbove<T>(ys: seq<T>, key: T -> int, k: int)
    requires SortedDesc(ys, key)
    requires ys != [] ==> key(ys[0]) < k
    ensures WithKey(ys, key, k) == []
    decreases |ys|
  {
    if ys != [] {
      TailSorted(ys, key);
      if |ys| > 1 {
        assert ys[1..][0] == ys[1];
      }
      NoneWithKeyAbove(ys[1..], key, k);
    }
  }

  lemma {:induction false} WithKeyAppend<T>(xs: seq<T>, x: T, key: T -> int, k: int)
    ensures WithKey(xs + [x], key, k) == WithKey(xs, key, k) + (if key(x) == k then [x] else [])
    decreases |xs|
  {
    if xs == [] {
      assert xs + [x] == [x];
      assert [x][1..] == [];
    } else {
      var h := if key(xs[0]) == k then [xs[0]] else [];
      var tail := if key(x) == k then [x] else [];
      assert (xs + [x])[0] == xs[0];
      assert (xs + [x])[1..] == xs[1..] + [x];
      WithKeyAppend(xs[1..], x, key, k);
      calc {
        WithKey(xs + [x], key, k);
        h + WithKey(xs[1..] + [x], key, k);
        h + (WithKey(xs[1..], key, k) + tail);
        (h + WithKey(xs[1..], key, k)) + tail;
        WithKey(xs, key, k) + tail;
      }
    }
  }

  /**
   * The sort returns a permutation of its input, in descending key order,
   * and keeps elements with equal keys in their input order.
   */
  lemma {:induction false} SortDescCorrect<T>(xs: seq<T>, key: T -> int)
    ensures multiset(SortDesc(xs, key)) == multiset(xs)
    ensures SortedDesc(SortDesc(xs, key), key)
    ensures forall k :: WithKey(SortDesc(xs, key), key, k) == WithKey(xs, key, k)
    decreases |xs|
  {
    if xs != [] {
      var init := xs[..|xs| - 1];
      var last := xs[|xs| - 1];
      SortDescCorrect(init, key);
      InsertPermutes(last, SortDesc(init, key), key);
      InsertSorted(last, SortDesc(init, key), key);
      assert xs == init + [last];
      forall k ensures WithKey(SortDesc(xs, key), key, k) == WithKey(xs, key, k) {
        InsertStable(last, SortDesc(init, key), key, k);
        WithKeyAppend(init, last, key, k);
      }
    }
  }

  /** A list already in descending key order is left as it is. */
  lemma {:induction false} SortDescSortedInput<T>(xs: seq<T>, key: T -> int)
    requires SortedDesc(xs, key)
    ensures SortDesc(xs, key) == xs
    decreases |xs|
  {
    if xs != [] {
      var init := xs[..|xs| - 1];
      var last := xs[|xs| - 1];
      assert SortedDesc(init, key) by {
        forall i, j | 0 <= i < j < |init| ensures key(init[i]) >= key(init[j]) {
          assert init[i] == xs[i] && init[j] == xs[j];
        }
      }
      SortDescSortedInput(init, key);
      InsertAtEnd(last, init, key);
      assert init + [last] == xs;
    }
  }

  lemma {:induction false} InsertAtEnd<T>(x: T, ys: seq<T>, key: T -> int)
    requires forall i :: 0 <= i < |ys| ==> key(ys[i]) >= key(x)
    ensures Insert(x, ys, key) == ys + [x]
    decreases |ys|
  {
    if ys != [] {
      InsertAtEnd(x, ys[1..], key);
      assert [ys[0]] + (ys[1..] + [x]) == ys + [x];
    }
  }
}
