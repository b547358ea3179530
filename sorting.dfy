/**
 * A stable sort by key, standing for the library sorts the source calls:
 * Python's `sorted`/`list.sort` and JavaScript's `Array.prototype.sort`,
 * both stable. Keys are compared by a strict order `less`; elements whose
 * keys are equal keep their original relative order.
 */
module Sorting {
  import opened Seqs
  import opened Strings

  ghost predicate StrictOrder<K(!new)>(less: (K, K) -> bool) {
    && (forall a :: !less(a, a))
    && (forall a, b, c :: less(a, b) && less(b, c) ==> less(a, c))
  }

  /** String `<` (code point order) is a strict order, so strings can be sort keys. */
  lemma StrLessIsStrictOrder()
    ensures StrictOrder(StrLess)
  {
    forall a ensures !StrLess(a, a) {
      StrLessIrreflexive(a);
    }
    forall a, b, c | StrLess(a, b) && StrLess(b, c) ensures StrLess(a, c) {
      StrLessTransitive(a, b, c);
    }
  }

  /** Number `<`, the order of a comparator `(a, b) => f(a) - f(b)`. */
  predicate IntLess(a: int, b: int) {
    a < b
  }

  lemma IntLessIsStrictOrder()
    ensures StrictOrder(IntLess)
  {
  }

  /** String `>`, the order of `sorted(..., reverse=True)` on string keys. */
  predicate StrGreater(a: string, b: string) {
    StrLess(b, a)
  }

  lemma StrGreaterIsStrictOrder()
    ensures StrictOrder(StrGreater)
  {
    StrLessIsStrictOrder();
  }

  /** Number `>`, the order of a comparator `(a, b) => f(b) - f(a)`. */
  predicate IntGreater(a: int, b: int) {
    a > b
  }

  lemma IntGreaterIsStrictOrder()
    ensures StrictOrder(IntGreater)
  {
  }

  /** Sorted by `StrLess` and without duplicates means strictly ascending. */
  lemma SortedDistinctStrings(s: seq<string>)
    requires SortedBy(s, (x: string) => x, StrLess)
    requires NoDup(s)
    ensures forall i, j :: 0 <= i < j < |s| ==> StrLess(s[i], s[j])
  {
    forall i, j | 0 <= i < j < |s| ensures StrLess(s[i], s[j]) {
      StrLessTotal(s[i], s[j]);
    }
  }

  /** No element's key is smaller than the key of an element before it. */
  ghost predicate SortedBy<T, K>(s: seq<T>, key: T -> K, less: (K, K) -> bool) {
    forall i, j :: 0 <= i < j < |s| ==> !less(key(s[j]), key(s[i]))
  }

  /** The elements whose key is `k`, in order. */
  function KeyClass<T(==,!new), K(==)>(s: seq<T>, key: T -> K, k: K): seq<T> {
    Filter(s, x => key(x) == k)
  }

  lemma KeyClassNone<T(!new), K(!new)>(s: seq<T>, key: T -> K, k: K)
    requires forall i :: 0 <= i < |s| ==> key(s[i]) != k
    ensures KeyClass(s, key, k) == []
  {
    FilterNone(s, x => key(x) == k);
  }

  lemma KeyClassAll<T(!new), K(!new)>(s: seq<T>, key: T -> K, k: K)
    requires forall i :: 0 <= i < |s| ==> key(s[i]) == k
    ensures KeyClass(s, key, k) == s
  {
    FilterAll(s, x => key(x) == k);
  }

  /** Inserts `x` before the first element whose key is greater. */
  function Insert<T, K>(x: T, s: seq<T>, key: T -> K, less: (K, K) -> bool): (r: seq<T>)
    ensures |r| == |s| + 1
    ensures multiset(r) == multiset(s) + multiset{x}
  {
    if s == [] then [x]
    else if less(key(x), key(s[0])) then [x] + s
    else
      assert s == [s[0]] + s[1..];
      [s[0]] + Insert(x, s[1..], key, less)
  }

  lemma {:induction false} InsertSorted<T, K(!new)>(x: T, s: seq<T>, key: T -> K, less: (K, K) -> bool)
    requires StrictOrder(less)
    requires SortedBy(s, key, less)
    ensures SortedBy(Insert(x, s, key, less), key, less)
  {
    if s != [] && !less(key(x), key(s[0])) {
      InsertSorted(x, s[1..], key, less);
      var r := Insert(x, s, key, less);
      var t := Insert(x, s[1..], key, less);
      forall i, j | 0 <= i < j < |r| ensures !less(key(r[j]), key(r[i])) {
        if i == 0 {
          assert r[j] == t[j - 1];
          assert r[j] in multiset(t);
          assert r[j] == x || r[j] in multiset(s[1..]);
        }
      }
    }
  }

  lemma {:induction false} InsertClass<T(!new), K(!new)>(x: T, s: seq<T>, key: T -> K, less: (K, K) -> bool, k: K)
    requires StrictOrder(less)
    requires SortedBy(s, key, less)
    ensures KeyClass(Insert(x, s, key, less), key, k)
         == KeyClass(s, key, k) + (if key(x) == k then [x] else [])
  {
    var p := y => key(y) == k;
    if s == [] {
    } else if less(key(x), key(s[0])) {
      InsertFrontClass(x, s, key, less, k);
    } else {
      InsertClass(x, s[1..], key, less, k);
      assert Insert(x, s, key, less) == [s[0]] + Insert(x, s[1..], key, less);
      FilterAppend([s[0]], Insert(x, s[1..], key, less), p);
      FilterAppend([s[0]], s[1..], p);
      assert [s[0]] + s[1..] == s;
    }
  }

  /** Inserting in front of a sorted sequence puts `x` first in its key class. */
  lemma InsertFrontClass<T(!new), K(!new)>(x: T, s: seq<T>, key: T -> K, less: (K, K) -> bool, k: K)
    requires StrictOrder(less)
    requires SortedBy(s, key, less)
    requires s != [] && less(key(x), key(s[0]))
    ensures KeyClass([x] + s, key, k) == KeyClass(s, key, k) + (if key(x) == k then [x] else [])
  {
    var p := y => key(y) == k;
    FilterAppend([x], s, p);
    if key(x) == k {
      forall j | 0 <= j < |s| ensures key(s[j]) != k {
        if j > 0 {
          assert !less(key(s[j]), key(s[0]));
        }
      }
      FilterNone(s, p);
    }
  }

  /** The stably sorted permutation of `s`. */
  function SortBy<T(==,!new), K(!new)>(s: seq<T>, key: T -> K, less: (K, K) -> bool): (r: seq<T>)
    requires StrictOrder(less)
    ensures |r| == |s|
    ensures multiset(r) == multiset(s)
    ensures SortedBy(r, key, less)
    ensures forall k :: KeyClass(r, key, k) == KeyClass(s, key, k)
  {
    if s == [] then []
    else
      var init, x := s[..|s| - 1], s[|s| - 1];
      assert s == init + [x];
      var r0 := SortBy(init, key, less);
      InsertSorted(x, r0, key, less);
      var r := Insert(x, r0, key, less);
      assert forall k :: KeyClass(r, key, k) == KeyClass(s, key, k) by {
        forall k ensures KeyClass(r, key, k) == KeyClass(s, key, k) {
          InsertClass(x, r0, key, less, k);
          FilterAppend(init, [x], y => key(y) == k);
        }
      }
      r
  }

  /** The order of a comparator that puts elements with a true key first and leaves the rest (`-1`, `1`, `0`). */
  predicate TrueFirst(a: bool, b: bool) {
    a && !b
  }

  /** Sorted by a boolean key with `TrueFirst`: the true-key class, then the false-key class. */
  lemma {:induction false} TrueFirstSplit<T(!new)>(r: seq<T>, key: T -> bool)
    requires SortedBy(r, key, TrueFirst)
    ensures r == KeyClass(r, key, true) + KeyClass(r, key, false)
  {
    if r != [] {
      assert SortedBy(r[1..], key, TrueFirst) by {
        forall i, j | 0 <= i < j < |r[1..]| ensures !TrueFirst(key(r[1..][j]), key(r[1..][i])) {
          assert r[1..][i] == r[i + 1] && r[1..][j] == r[j + 1];
        }
      }
      if key(r[0]) {
        TrueFirstSplit(r[1..], key);
        assert r == [r[0]] + r[1..];
      } else {
        forall j | 0 <= j < |r| ensures !key(r[j]) {
          if j > 0 {
            assert !TrueFirst(key(r[j]), key(r[0]));
          }
        }
        KeyClassNone(r, key, true);
        KeyClassAll(r, key, false);
        assert [] + r == r;
      }
    }
  }

  /** In a sorted sequence nothing after position `m` has a key before one of the first `m`. */
  lemma SortedSuffixAfter<T, K>(t: seq<T>, key: T -> K, less: (K, K) -> bool, m: nat)
    requires SortedBy(t, key, less) && m <= |t|
    ensures forall x :: x in t[m..] ==> forall i :: 0 <= i < m ==> !less(key(x), key(t[i]))
  {
    forall x | x in t[m..] ensures forall i :: 0 <= i < m ==> !less(key(x), key(t[i])) {
      var j :| 0 <= j < |t[m..]| && t[m..][j] == x;
      assert t[m + j] == x;
    }
  }

  /**
   * The first `n` of a stable sort (`sorted(...)[:n]`): drawn from the input,
   * and no element left out has a key that comes before a kept one's.
   */
  lemma SortedTop<T(!new), K(!new)>(s: seq<T>, key: T -> K, less: (K, K) -> bool, n: nat)
    requires StrictOrder(less)
    ensures var r := Take(SortBy(s, key, less), n);
      && multiset(r) <= multiset(s)
      && forall x :: multiset(r)[x] < multiset(s)[x] ==>
           forall i :: 0 <= i < |r| ==> !less(key(x), key(r[i]))
  {
    var t := SortBy(s, key, less);
    var r := Take(t, n);
    var rest := t[|r|..];
    assert t == r + rest;
    assert multiset(t) == multiset(r) + multiset(rest);
    SortedSuffixAfter(t, key, less, |r|);
    forall x | multiset(r)[x] < multiset(s)[x]
      ensures forall i :: 0 <= i < |r| ==> !less(key(x), key(r[i]))
    {
      assert x in rest;
    }
  }

  /**
   * `sorted(...)[:n]`: the first `n` of the stable sort, in sorted order,
   * drawn from the input, and no element left out comes before a kept one.
   */
  function TopBy<T(==,!new), K(!new)>(s: seq<T>, key: T -> K, less: (K, K) -> bool, n: nat): (r: seq<T>)
    requires StrictOrder(less)
    ensures |r| == if |s| < n then |s| else n
    ensures r == SortBy(s, key, less)[..|r|]
    ensures multiset(r) <= multiset(s)
    ensures forall i, j :: 0 <= i < j < |r| ==> !less(key(r[j]), key(r[i]))
    ensures forall x :: multiset(r)[x] < multiset(s)[x] ==>
      forall i :: 0 <= i < |r| ==> !less(key(x), key(r[i]))
  {
    var t := SortBy(s, key, less);
    SortedTop(s, key, less, n);
    var r := Take(t, n);
    assert forall i :: 0 <= i < |r| ==> r[i] == t[i];
    r
  }

  /** `sorted(..., key=key)[:n]` for an integer key: `TopBy` with the order written as `<=`. */
  function TopByIntAscending<T(==,!new)>(s: seq<T>, key: T -> int, n: nat): (r: seq<T>)
    ensures |r| == if |s| < n then |s| else n
    ensures StrictOrder(IntLess) && r == SortBy(s, key, IntLess)[..|r|]
    ensures multiset(r) <= multiset(s)
    ensures forall i, j :: 0 <= i < j < |r| ==> key(r[i]) <= key(r[j])
    ensures forall x :: multiset(r)[x] < multiset(s)[x] ==>
      forall i :: 0 <= i < |r| ==> key(r[i]) <= key(x)
  {
    IntLessIsStrictOrder();
    TopBy(s, key, IntLess, n)
  }

  /** `sorted(..., key=key, reverse=True)[:n]` for an integer key: `TopBy` with the order written as `>=`. */
  function TopByIntDescending<T(==,!new)>(s: seq<T>, key: T -> int, n: nat): (r: seq<T>)
    ensures |r| == if |s| < n then |s| else n
    ensures StrictOrder(IntGreater) && r == SortBy(s, key, IntGreater)[..|r|]
    ensures multiset(r) <= multiset(s)
    ensures forall i, j :: 0 <= i < j < |r| ==> key(r[i]) >= key(r[j])
    ensures forall x :: multiset(r)[x] < multiset(s)[x] ==>
      forall i :: 0 <= i < |r| ==> key(r[i]) >= key(x)
  {
    IntGreaterIsStrictOrder();
    TopBy(s, key, IntGreater, n)
  }
}
