/**
  The JavaScript array built-ins that PriceComparison.js relies on: the stable
  `Array.prototype.sort` with a numeric comparator, `reduce` written as a
  first-wins search for an extreme element, and `reduce` as a sum.
*/
module ArrayBuiltins {

  /** `a` may stand before `b` in the order: non-decreasing when ascending, non-increasing otherwise. */
  predicate InOrder(a: real, b: real, ascending: bool) {
    if ascending then a <= b else a >= b
  }

  ghost predicate SortedBy<T>(s: seq<T>, key: T -> real, ascending: bool) {
    forall i, j :: 0 <= i < j < |s| ==> InOrder(key(s[i]), key(s[j]), ascending)
  }

  /** The elements of `s` whose key is `v`, in their order in `s`. */
  function WithKey<T>(s: seq<T>, key: T -> real, v: real): seq<T> {
    if s == [] then []
    else (if key(s[0]) == v then [s[0]] else []) + WithKey(s[1..], key, v)
  }

  /** Places `x` in front of the first element it may precede. */
  function Insert<T>(x: T, s: seq<T>, key: T -> real, ascending: bool): (r: seq<T>)
    ensures multiset(r) == multiset(s) + multiset{x}
  {
    if s == [] || InOrder(key(x), key(s[0]), ascending) then [x] + s
    else
      assert s == [s[0]] + s[1..];
      [s[0]] + Insert(x, s[1..], key, ascending)
  }

  lemma {:induction false} InsertKeepsSorted<T>(x: T, s: seq<T>, key: T -> real, ascending: bool)
    requires SortedBy(s, key, ascending)
    ensures SortedBy(Insert(x, s, key, ascending), key, ascending)
  {
    if s != [] && !InOrder(key(x), key(s[0]), ascending) {
      var rest := Insert(x, s[1..], key, ascending);
      InsertKeepsSorted(x, s[1..], key, ascending);
      forall y | y in rest ensures InOrder(key(s[0]), key(y), ascending) {
        assert y in multiset(rest);
        if y != x {
          assert y in multiset(s[1..]);
          var k :| 0 <= k < |s[1..]| && s[1..][k] == y;
          assert s[k + 1] == y;
        }
      }
      var r := [s[0]] + rest;
      forall i, j | 0 <= i < j < |r| ensures InOrder(key(r[i]), key(r[j]), ascending) {
        if i == 0 {
          assert r[j] == rest[j - 1];
          assert r[j] in rest;
        } else {
          assert r[i] == rest[i - 1] && r[j] == rest[j - 1];
        }
      }
    }
  }

  /**
    A stable sort by `key`: the result is a permutation of `s`, ordered by key, and
    elements with equal keys keep their relative order (SortByIsStable).
  */
  function SortBy<T>(s: seq<T>, key: T -> real, ascending: bool): (r: seq<T>)
    ensures multiset(r) == multiset(s)
    ensures SortedBy(r, key, ascending)
  {
    if s == [] then []
    else
      assert s == [s[0]] + s[1..];
      var rest := SortBy(s[1..], key, ascending);
      InsertKeepsSorted(s[0], rest, key, ascending);
      Insert(s[0], rest, key, ascending)
  }

  lemma {:induction false} InsertWithKey<T>(x: T, s: seq<T>, key: T -> real, ascending: bool, v: real)
    ensures WithKey(Insert(x, s, key, ascending), key, v) == (if key(x) == v then [x] else []) + WithKey(s, key, v)
  {
    if s == [] || InOrder(key(x), key(s[0]), ascending) {
      assert ([x] + s)[1..] == s;
    } else {
      var rest := Insert(x, s[1..], key, ascending);
      InsertWithKey(x, s[1..], key, ascending, v);
      assert ([s[0]] + rest)[1..] == rest;
      assert key(s[0]) != key(x);
    }
  }

  /** Stability: for every key value, the elements carrying it appear in their original order. */
  lemma {:induction false} SortByIsStable<T>(s: seq<T>, key: T -> real, ascending: bool, v: real)
    ensures WithKey(SortBy(s, key, ascending), key, v) == WithKey(s, key, v)
  {
    if s != [] {
      SortByIsStable(s[1..], key, ascending, v);
      InsertWithKey(s[0], SortBy(s[1..], key, ascending), key, ascending, v);
    }
  }

  lemma SortByIsStableEverywhere<T>(s: seq<T>, key: T -> real, ascending: bool)
    ensures forall v :: WithKey(SortBy(s, key, ascending), key, v) == WithKey(s, key, v)
  {
    forall v ensures WithKey(SortBy(s, key, ascending), key, v) == WithKey(s, key, v) {
      SortByIsStable(s, key, ascending, v);
    }
  }

  /** A stable sort has only one possible result: any stably sorted permutation equals SortBy's. */
  lemma {:induction false} StableSortIsUnique<T>(s: seq<T>, t: seq<T>, key: T -> real, ascending: bool)
    requires SortedBy(s, key, ascending) && SortedBy(t, key, ascending)
    requires forall v :: WithKey(s, key, v) == WithKey(t, key, v)
    ensures s == t
    decreases |s| + |t|
  {
    if s != [] && t != [] {
      var a, b := key(s[0]), key(t[0]);
      // the first element of each has the extreme key of both
      WithKeyHead(s, key, a);
      WithKeyHead(t, key, b);
      assert WithKey(t, key, a) != [];
      WithKeyNonEmpty(t, key, a);
      WithKeyNonEmpty(s, key, b);
      assert a == b by {
        var i :| 0 <= i < |t| && key(t[i]) == a;
        var k :| 0 <= k < |s| && key(s[k]) == b;
        assert InOrder(b, a, ascending);
        assert InOrder(a, b, ascending);
      }
      assert s[0] == t[0] by {
        assert WithKey(s, key, a)[0] == s[0];
        assert WithKey(t, key, a)[0] == t[0];
      }
      forall v ensures WithKey(s[1..], key, v) == WithKey(t[1..], key, v) {
        assert WithKey(s, key, v) == WithKey(t, key, v);
        if key(s[0]) == v {
          assert WithKey(s, key, v) == [s[0]] + WithKey(s[1..], key, v);
          assert WithKey(t, key, v) == [t[0]] + WithKey(t[1..], key, v);
          assert ([s[0]] + WithKey(s[1..], key, v))[1..] == WithKey(s[1..], key, v);
          assert ([t[0]] + WithKey(t[1..], key, v))[1..] == WithKey(t[1..], key, v);
        } else {
          assert WithKey(s, key, v) == WithKey(s[1..], key, v);
          assert WithKey(t, key, v) == WithKey(t[1..], key, v);
        }
      }
      StableSortIsUnique(s[1..], t[1..], key, ascending);
      assert s == [s[0]] + s[1..] && t == [t[0]] + t[1..];
    } else if s != [] {
      WithKeyHead(s, key, key(s[0]));
    } else if t != [] {
      WithKeyHead(t, key, key(t[0]));
    }
  }

  lemma WithKeyHead<T>(s: seq<T>, key: T -> real, v: real)
    requires s != [] && key(s[0]) == v
    ensures WithKey(s, key, v) == [s[0]] + WithKey(s[1..], key, v)
  {
  }

  lemma {:induction false} WithKeyNonEmpty<T>(s: seq<T>, key: T -> real, v: real)
    ensures WithKey(s, key, v) != [] <==> exists i :: 0 <= i < |s| && key(s[i]) == v
  {
    if s != [] {
      WithKeyNonEmpty(s[1..], key, v);
      if key(s[0]) != v && exists i :: 0 <= i < |s| && key(s[i]) == v {
        var i :| 0 <= i < |s| && key(s[i]) == v;
        assert key(s[1..][i - 1]) == v;
      }
    }
  }

  /** `a` replaces the accumulator `b` of the reduce: a strictly lower (or higher) price. */
  predicate Beats(a: real, b: real, lowest: bool) {
    if lowest then a < b else a > b
  }

  /**
    `reduce((best, x) => Beats(key(x), key(best)) ? x : best)` over `s[i..]`, starting from
    the element at index `best`, as an index.
  */
  function ReduceFrom<T>(s: seq<T>, key: T -> real, lowest: bool, best: nat, i: nat): (r: nat)
    requires best < |s| && i <= |s|
    ensures r < |s|
    decreases |s| - i
  {
    if i == |s| then best
    else ReduceFrom(s, key, lowest, if Beats(key(s[i]), key(s[best]), lowest) then i else best, i + 1)
  }

  /**
    The reduce keeps the earliest extreme element: nothing beats the result, and it beats
    every element before it.
  */
  lemma {:induction false} ReduceFromFindsEarliestExtreme<T>(s: seq<T>, key: T -> real, lowest: bool, best: nat, i: nat)
    requires best < i <= |s|
    requires forall j :: 0 <= j < i ==> !Beats(key(s[j]), key(s[best]), lowest)
    requires forall j :: 0 <= j < best ==> Beats(key(s[best]), key(s[j]), lowest)
    ensures var r := ReduceFrom(s, key, lowest, best, i);
      && (forall j :: 0 <= j < |s| ==> !Beats(key(s[j]), key(s[r]), lowest))
      && (forall j :: 0 <= j < r ==> Beats(key(s[r]), key(s[j]), lowest))
    decreases |s| - i
  {
    if i < |s| {
      var next := if Beats(key(s[i]), key(s[best]), lowest) then i else best;
      ReduceFromFindsEarliestExtreme(s, key, lowest, next, i + 1);
    }
  }

  /** The index `reduce` without an initial value lands on: the first element that nothing beats. */
  function ExtremeIndex<T>(s: seq<T>, key: T -> real, lowest: bool): (r: nat)
    requires s != []
    ensures r < |s|
    ensures forall j :: 0 <= j < |s| ==> !Beats(key(s[j]), key(s[r]), lowest)
    ensures forall j :: 0 <= j < r ==> Beats(key(s[r]), key(s[j]), lowest)
  {
    ReduceFromFindsEarliestExtreme(s, key, lowest, 0, 1);
    ReduceFrom(s, key, lowest, 0, 1)
  }

  function Sum(s: seq<real>): real {
    if s == [] then 0.0 else s[0] + Sum(s[1..])
  }

  lemma {:induction false} SumInsert(x: real, s: seq<real>, key: real -> real, ascending: bool)
    ensures Sum(Insert(x, s, key, ascending)) == x + Sum(s)
  {
    if s != [] && !InOrder(key(x), key(s[0]), ascending) {
      var rest := Insert(x, s[1..], key, ascending);
      SumInsert(x, s[1..], key, ascending);
      assert ([s[0]] + rest)[1..] == rest;
    }
  }

  /** Sorting does not change the sum. */
  lemma {:induction false} SumSortBy(s: seq<real>, key: real -> real, ascending: bool)
    ensures Sum(SortBy(s, key, ascending)) == Sum(s)
  {
    if s != [] {
      SumSortBy(s[1..], key, ascending);
      SumInsert(s[0], SortBy(s[1..], key, ascending), key, ascending);
    }
  }

  /** A sum of values within [lo, hi] lies within [n * lo, n * hi]. */
  lemma {:induction false} SumBounds(s: seq<real>, lo: real, hi: real)
    requires forall i :: 0 <= i < |s| ==> lo <= s[i] <= hi
    ensures |s| as real * lo <= Sum(s) <= |s| as real * hi
  {
    if s != [] {
      SumBounds(s[1..], lo, hi);
      assert forall i :: 0 <= i < |s| - 1 ==> s[1..][i] == s[i + 1];
    }
  }

  function CountBelow(s: seq<real>, m: real): (n: nat)
    ensures n <= |s|
  {
    if s == [] then 0 else (if s[0] < m then 1 else 0) + CountBelow(s[1..], m)
  }

  function CountAbove(s: seq<real>, m: real): (n: nat)
    ensures n <= |s|
  {
    if s == [] then 0 else (if s[0] > m then 1 else 0) + CountAbove(s[1..], m)
  }

  lemma {:induction false} CountInsert(x: real, s: seq<real>, key: real -> real, ascending: bool, m: real)
    ensures CountBelow(Insert(x, s, key, ascending), m) == (if x < m then 1 else 0) + CountBelow(s, m)
    ensures CountAbove(Insert(x, s, key, ascending), m) == (if x > m then 1 else 0) + CountAbove(s, m)
  {
    if s != [] && !InOrder(key(x), key(s[0]), ascending) {
      var rest := Insert(x, s[1..], key, ascending);
      CountInsert(x, s[1..], key, ascending, m);
      assert ([s[0]] + rest)[1..] == rest;
    } else {
      assert ([x] + s)[1..] == s;
    }
  }

  /** Sorting does not change how many values lie below or above a bound. */
  lemma {:induction false} CountSortBy(s: seq<real>, key: real -> real, ascending: bool, m: real)
    ensures CountBelow(SortBy(s, key, ascending), m) == CountBelow(s, m)
    ensures CountAbove(SortBy(s, key, ascending), m) == CountAbove(s, m)
  {
    if s != [] {
      CountSortBy(s[1..], key, ascending, m);
      CountInsert(s[0], SortBy(s[1..], key, ascending), key, ascending, m);
    }
  }

  /** If nothing from index `k` on lies below `m`, at most `k` values do. */
  lemma {:induction false} CountBelowAtMost(s: seq<real>, m: real, k: nat)
    requires k <= |s|
    requires forall i :: k <= i < |s| ==> s[i] >= m
    ensures CountBelow(s, m) <= k
  {
    if s != [] {
      assert forall i :: 0 <= i < |s| - 1 ==> s[1..][i] == s[i + 1];
      CountBelowAtMost(s[1..], m, if k == 0 then 0 else k - 1);
    }
  }

  /** If nothing before the last `k` values lies above `m`, at most `k` values do. */
  lemma {:induction false} CountAboveAtMost(s: seq<real>, m: real, k: nat)
    requires k <= |s|
    requires forall i :: 0 <= i < |s| - k ==> s[i] <= m
    ensures CountAbove(s, m) <= k
  {
    if s != [] && k < |s| {
      assert forall i :: 0 <= i < |s| - 1 ==> s[1..][i] == s[i + 1];
      CountAboveAtMost(s[1..], m, k);
    }
  }
}
