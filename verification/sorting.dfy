/** Python's `sorted(items, key=...)`: a stable sort. The model is an insertion
    sort parameterised by a key function and a strict "less than" on keys.
    `sorted(..., reverse=True)` is also stable (equal keys keep their order),
    so it is this sort with the comparison flipped. */
module Sorting {
  import opened Seqs

  /** Asymmetric and negatively transitive: what Python's `<` must be on keys. */
  ghost predicate StrictWeakOrder<K(!new)>(less: (K, K) -> bool) {
    && (forall a, b :: less(a, b) ==> !less(b, a))
    && (forall a, b, c :: !less(a, b) && !less(b, c) ==> !less(a, c))
  }

  ghost predicate Irreflexive<K(!new)>(less: (K, K) -> bool) {
    forall a :: !less(a, a)
  }

  /** No element is strictly smaller than an element before it. */
  ghost predicate Sorted<T, K>(s: seq<T>, key: T -> K, less: (K, K) -> bool) {
    forall i, j :: 0 <= i < j < |s| ==> !less(key(s[j]), key(s[i]))
  }

  /** Places `x` before the first element that is not smaller than it. */
  function Insert<T(==), K>(x: T, s: seq<T>, key: T -> K, less: (K, K) -> bool): (r: seq<T>)
    ensures multiset(r) == multiset(s) + multiset{x}
    decreases |s|
  {
    if s == [] then [x]
    else if less(key(s[0]), key(x)) then
      assert s == [s[0]] + s[1..];
      [s[0]] + Insert(x, s[1..], key, less)
    else [x] + s
  }

  function SortBy<T(==), K>(s: seq<T>, key: T -> K, less: (K, K) -> bool): (r: seq<T>)
    ensures multiset(r) == multiset(s)
    ensures |r| == |s|
    decreases |s|
  {
    if s == [] then []
    else
      assert s == [s[0]] + s[1..];
      Insert(s[0], SortBy(s[1..], key, less), key, less)
  }

  lemma {:induction false} InsertSorted<T(!new), K(!new)>(x: T, s: seq<T>, key: T -> K, less: (K, K) -> bool)
    requires StrictWeakOrder(less)
    requires Sorted(s, key, less)
    ensures Sorted(Insert(x, s, key, less), key, less)
    decreases |s|
  {
    if s != [] {
      if less(key(s[0]), key(x)) {
        var tail := Insert(x, s[1..], key, less);
        InsertSorted(x, s[1..], key, less);
        forall j | 0 <= j < |tail|
          ensures !less(key(tail[j]), key(s[0]))
        {
          assert tail[j] in multiset(tail);
          assert tail[j] == x || tail[j] in multiset(s[1..]);
          if tail[j] != x {
            var k :| 0 <= k < |s[1..]| && s[1..][k] == tail[j];
            assert s[k + 1] == tail[j];
          }
        }
      } else {
        forall j | 0 <= j < |s|
          ensures !less(key(s[j]), key(x))
        {
          if j > 0 {
            assert !less(key(s[j]), key(s[0]));
          }
        }
      }
    }
  }

  /** The result is in key order. */
  lemma {:induction false} SortBySorted<T(!new), K(!new)>(s: seq<T>, key: T -> K, less: (K, K) -> bool)
    requires StrictWeakOrder(less)
    ensures Sorted(SortBy(s, key, less), key, less)
    decreases |s|
  {
    if s != [] {
      SortBySorted(s[1..], key, less);
      InsertSorted(s[0], SortBy(s[1..], key, less), key, less);
    }
  }

  /** The elements whose key is `k`, in order. */
  function WithKey<T, K(==)>(s: seq<T>, key: T -> K, k: K): seq<T> {
    Filter(s, KeyIs(key, k))
  }

  /** Whether an element's key is `k`. */
  function KeyIs<T, K(==)>(key: T -> K, k: K): T -> bool {
    x => key(x) == k
  }

  lemma {:induction false} InsertStable<T, K(!new)>(x: T, s: seq<T>, key: T -> K, less: (K, K) -> bool, k: K)
    requires Irreflexive(less)
    ensures WithKey(Insert(x, s, key, less), key, k)
         == (if key(x) == k then [x] else []) + WithKey(s, key, k)
    decreases |s|
  {
    var p := KeyIs(key, k);
    var mine: seq<T> := if key(x) == k then [x] else [];
    if s == [] {
      assert Filter([x], p) == mine + Filter([], p);
    } else if less(key(s[0]), key(x)) {
      var head := Filter([s[0]], p);
      InsertStable(x, s[1..], key, less, k);
      FilterAppend([s[0]], Insert(x, s[1..], key, less), p);
      FilterAppend([s[0]], s[1..], p);
      assert [s[0]] + s[1..] == s;
      // `s[0]` and `x` cannot both have key `k`, since `less` is irreflexive.
      assert head == [] || mine == [];
      assert head + mine == mine + head;
      AppendAssoc(head, mine, Filter(s[1..], p));
      AppendAssoc(mine, head, Filter(s[1..], p));
    } else {
      FilterAppend([x], s, p);
    }
  }

  /** Stability: elements with equal keys keep their original relative order. */
  lemma {:induction false} SortByStable<T, K(!new)>(s: seq<T>, key: T -> K, less: (K, K) -> bool, k: K)
    requires Irreflexive(less)
    ensures WithKey(SortBy(s, key, less), key, k) == WithKey(s, key, k)
    decreases |s|
  {
    if s != [] {
      var p := KeyIs(key, k);
      SortByStable(s[1..], key, less, k);
      InsertStable(s[0], SortBy(s[1..], key, less), key, less, k);
      FilterAppend([s[0]], s[1..], p);
      assert [s[0]] + s[1..] == s;
    }
  }

  /** `<` on integers, as `sorted` uses it. */
  function IntLess(a: int, b: int): bool {
    a < b
  }

  /** `<` on integers with the operands swapped: `reverse=True`. */
  function IntGreater(a: int, b: int): bool {
    a > b
  }

  lemma IntOrders()
    ensures StrictWeakOrder(IntLess) && Irreflexive(IntLess)
    ensures StrictWeakOrder(IntGreater) && Irreflexive(IntGreater)
  {
  }

  // ---------------------------------------------------------------------
  // Lexicographic order: Python's `<` on strings and on lists

  /** Irreflexive, transitive and total on distinct values. */
  ghost predicate StrictTotalOrder<T(!new)>(less: (T, T) -> bool) {
    && (forall a :: !less(a, a))
    && (forall a, b, c :: less(a, b) && less(b, c) ==> less(a, c))
    && (forall a, b :: a != b ==> less(a, b) || less(b, a))
  }

  /** A strict total order is a strict weak order. */
  lemma TotalIsWeak<T(!new)>(less: (T, T) -> bool)
    requires StrictTotalOrder(less)
    ensures StrictWeakOrder(less) && Irreflexive(less)
  {
  }

  /** Sequences compared element by element; a proper prefix comes first. */
  function LexLess<T(==)>(a: seq<T>, b: seq<T>, less: (T, T) -> bool): bool
    decreases |a|
  {
    |b| > 0 && (|a| == 0 || less(a[0], b[0]) || (a[0] == b[0] && LexLess(a[1..], b[1..], less)))
  }

  lemma {:induction false} LexIrreflexive<T(!new)>(a: seq<T>, less: (T, T) -> bool)
    requires StrictTotalOrder(less)
    ensures !LexLess(a, a, less)
    decreases |a|
  {
    if |a| > 0 {
      LexIrreflexive(a[1..], less);
    }
  }

  lemma {:induction false} LexTransitive<T(!new)>(a: seq<T>, b: seq<T>, c: seq<T>, less: (T, T) -> bool)
    requires StrictTotalOrder(less)
    requires LexLess(a, b, less) && LexLess(b, c, less)
    ensures LexLess(a, c, less)
    decreases |a|
  {
    if |a| > 0 && a[0] == b[0] && b[0] == c[0] {
      LexTransitive(a[1..], b[1..], c[1..], less);
    }
  }

  lemma {:induction false} LexTotal<T(!new)>(a: seq<T>, b: seq<T>, less: (T, T) -> bool)
    requires StrictTotalOrder(less)
    requires a != b
    ensures LexLess(a, b, less) || LexLess(b, a, less)
    decreases |a|
  {
    if |a| > 0 && |b| > 0 && a[0] == b[0] {
      assert a == [a[0]] + a[1..] && b == [b[0]] + b[1..];
      LexTotal(a[1..], b[1..], less);
    }
  }

  /** `<` on characters: by code point. */
  function CharLess(a: char, b: char): bool {
    a < b
  }

  /** `<` on strings. */
  function StrLess(a: string, b: string): bool {
    LexLess(a, b, CharLess)
  }

  /** `<` on lists of strings. */
  function StrsLess(a: seq<string>, b: seq<string>): bool {
    LexLess(a, b, StrLess)
  }

  /** Strings, and lists of strings, are totally ordered, so `sorted` can
      use them as keys. */
  lemma StrOrders()
    ensures StrictTotalOrder(StrLess)
    ensures StrictTotalOrder(StrsLess)
    ensures StrictWeakOrder(StrsLess) && Irreflexive(StrsLess)
  {
    forall a: string ensures !StrLess(a, a) {
      LexIrreflexive(a, CharLess);
    }
    forall a: string, b: string, c: string | StrLess(a, b) && StrLess(b, c) ensures StrLess(a, c) {
      LexTransitive(a, b, c, CharLess);
    }
    forall a: string, b: string | a != b ensures StrLess(a, b) || StrLess(b, a) {
      LexTotal(a, b, CharLess);
    }
    forall a: seq<string> ensures !StrsLess(a, a) {
      LexIrreflexive(a, StrLess);
    }
    forall a: seq<string>, b: seq<string>, c: seq<string> | StrsLess(a, b) && StrsLess(b, c) ensures StrsLess(a, c) {
      LexTransitive(a, b, c, StrLess);
    }
    forall a: seq<string>, b: seq<string> | a != b ensures StrsLess(a, b) || StrsLess(b, a) {
      LexTotal(a, b, StrLess);
    }
    TotalIsWeak(StrsLess);
  }

  // ---------------------------------------------------------------------
  // Sorting by a bounded integer key groups the elements by key

  /** The elements with key `lo`, then those with key `lo + 1`, ..., up to `hi - 1`,
      each group in its original order. */
  function Groups<T>(s: seq<T>, key: T -> int, lo: int, hi: int): seq<T>
    decreases hi - lo
  {
    if lo >= hi then [] else WithKey(s, key, lo) + Groups(s, key, lo + 1, hi)
  }

  lemma {:induction false} GroupsEmpty<T>(key: T -> int, lo: int, hi: int)
    ensures Groups([], key, lo, hi) == []
    decreases hi - lo
  {
    if lo < hi {
      GroupsEmpty(key, lo + 1, hi);
    }
  }

  /** An element whose key is out of range does not show up in the groups. */
  lemma {:induction false} GroupsSkip<T>(x: T, t: seq<T>, key: T -> int, lo: int, hi: int)
    requires key(x) < lo || hi <= key(x)
    ensures Groups([x] + t, key, lo, hi) == Groups(t, key, lo, hi)
    decreases hi - lo
  {
    if lo < hi {
      var p := KeyIs(key, lo);
      FilterAppend([x], t, p);
      assert Filter([x], p) == [] by {
        assert !p(x);
        assert [x][1..] == [];
      }
      assert WithKey([x] + t, key, lo) == WithKey(t, key, lo);
      GroupsSkip(x, t, key, lo + 1, hi);
    }
  }

  /** An element with the least key comes first in the groups. */
  lemma {:induction false} GroupsCons<T>(x: T, t: seq<T>, key: T -> int, lo: int, hi: int)
    requires lo <= key(x) < hi
    requires forall j :: 0 <= j < |t| ==> key(x) <= key(t[j])
    ensures Groups([x] + t, key, lo, hi) == [x] + Groups(t, key, lo, hi)
    decreases hi - lo
  {
    var p := KeyIs(key, lo);
    FilterAppend([x], t, p);
    if key(x) == lo {
      GroupsSkip(x, t, key, lo + 1, hi);
      AppendAssoc([x], WithKey(t, key, lo), Groups(t, key, lo + 1, hi));
    } else {
      FilterNone(t, p);
      assert Filter([x], p) == [] by {
        assert !p(x);
        assert [x][1..] == [];
      }
      assert WithKey([x] + t, key, lo) == [];
      GroupsCons(x, t, key, lo + 1, hi);
    }
  }

  /** A sequence sorted by a key in `[lo, hi)` already is its groups. */
  lemma {:induction false} SortedGroups<T(!new)>(r: seq<T>, key: T -> int, lo: int, hi: int)
    requires Sorted(r, key, IntLess)
    requires forall j :: 0 <= j < |r| ==> lo <= key(r[j]) < hi
    ensures r == Groups(r, key, lo, hi)
    decreases |r|
  {
    if r == [] {
      GroupsEmpty(key, lo, hi);
    } else {
      var t := r[1..];
      assert forall j :: 0 <= j < |t| ==> key(r[0]) <= key(t[j]) by {
        forall j | 0 <= j < |t| ensures key(r[0]) <= key(t[j]) {
          assert t[j] == r[j + 1];
        }
      }
      SortedGroups(t, key, lo, hi);
      assert [r[0]] + t == r;
      GroupsCons(r[0], t, key, lo, hi);
    }
  }

  /** Groups depend only on each key's elements, which sorting keeps in order. */
  lemma {:induction false} GroupsOfSorted<T>(s: seq<T>, key: T -> int, lo: int, hi: int)
    ensures Groups(SortBy(s, key, IntLess), key, lo, hi) == Groups(s, key, lo, hi)
    decreases hi - lo
  {
    if lo < hi {
      IntOrders();
      SortByStable(s, key, IntLess, lo);
      GroupsOfSorted(s, key, lo + 1, hi);
    }
  }

  /** Sorting by an integer key in `[lo, hi)` lists the elements key by key,
      ties in their original order. */
  lemma SortByIntGroups<T(!new)>(s: seq<T>, key: T -> int, lo: int, hi: int)
    requires forall j :: 0 <= j < |s| ==> lo <= key(s[j]) < hi
    ensures SortBy(s, key, IntLess) == Groups(s, key, lo, hi)
  {
    var r := SortBy(s, key, IntLess);
    IntOrders();
    SortBySorted(s, key, IntLess);
    forall j | 0 <= j < |r| ensures lo <= key(r[j]) < hi {
      assert r[j] in multiset(s);
    }
    SortedGroups(r, key, lo, hi);
    GroupsOfSorted(s, key, lo, hi);
  }
}
