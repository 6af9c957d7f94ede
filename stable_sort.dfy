/**
 * `Array.prototype.sort` with a comparator `(a, b) => key(a) - key(b)`.
 * The language mandates a stable sort, so the result is determined: it is
 * the stable insertion sort `SortBy` below (see `StableSortIsUnique`).
 */
module StableSort {
  import opened Lists

  /** Ascending by `key`. */
  predicate SortedBy<T>(s: seq<T>, key: T -> int) {
    forall i, j :: 0 <= i < j < |s| ==> key(s[i]) <= key(s[j])
  }

  /** Inserts `x` after every element whose key is not greater than its own. */
  function InsertBy<T>(t: seq<T>, x: T, key: T -> int): (r: seq<T>)
    ensures multiset(r) == multiset(t) + multiset{x}
  {
    if t == [] then [x]
    else if key(x) < key(t[0]) then [x] + t
    else
      assert t == [t[0]] + t[1..];
      [t[0]] + InsertBy(t[1..], x, key)
  }

  /** Inserting keeps any property that `x` and every element of `t` have. */
  lemma {:induction false} InsertByKeepsAll<T>(t: seq<T>, x: T, key: T -> int, q: T -> bool)
    requires forall i :: 0 <= i < |t| ==> q(t[i])
    requires q(x)
    ensures forall i :: 0 <= i < |InsertBy(t, x, key)| ==> q(InsertBy(t, x, key)[i])
  {
    if t != [] && key(x) >= key(t[0]) {
      InsertByKeepsAll(t[1..], x, key, q);
    }
  }

  lemma {:induction false} InsertBySorted<T>(t: seq<T>, x: T, key: T -> int)
    requires SortedBy(t, key)
    ensures SortedBy(InsertBy(t, x, key), key)
  {
    if t != [] && key(x) >= key(t[0]) {
      var rest := InsertBy(t[1..], x, key);
      InsertBySorted(t[1..], x, key);
      var atLeastHead := (y: T) => key(t[0]) <= key(y);
      InsertByKeepsAll(t[1..], x, key, atLeastHead);
      assert forall j :: 0 <= j < |rest| ==> atLeastHead(rest[j]);
      assert InsertBy(t, x, key) == [t[0]] + rest;
    }
  }

  /** Stable insertion sort, ascending by `key`. */
  function SortBy<T>(s: seq<T>, key: T -> int): (r: seq<T>)
    ensures multiset(r) == multiset(s)
    ensures |r| == |s|
    ensures SortedBy(r, key)
  {
    if s == [] then []
    else
      var t := SortBy(s[..|s| - 1], key);
      InsertBySorted(t, s[|s| - 1], key);
      assert s == s[..|s| - 1] + [s[|s| - 1]];
      InsertBy(t, s[|s| - 1], key)
  }

  /** The first element of the sorted sequence occurs in the input and has its least key. */
  lemma SortByHeadIsLeast<T>(s: seq<T>, key: T -> int)
    requires s != []
    ensures exists i :: 0 <= i < |s| && s[i] == SortBy(s, key)[0]
    ensures forall j :: 0 <= j < |s| ==> key(SortBy(s, key)[0]) <= key(s[j])
  {
    var r := SortBy(s, key);
    assert r[0] in multiset(s);
    forall j | 0 <= j < |s| ensures key(r[0]) <= key(s[j]) {
      assert s[j] in multiset(r);
      var k :| 0 <= k < |r| && r[k] == s[j];
    }
  }

  /** The last element of the sorted sequence occurs in the input and has its greatest key. */
  lemma SortByLastIsGreatest<T>(s: seq<T>, key: T -> int)
    requires s != []
    ensures exists i :: 0 <= i < |s| && s[i] == SortBy(s, key)[|s| - 1]
    ensures forall j :: 0 <= j < |s| ==> key(s[j]) <= key(SortBy(s, key)[|s| - 1])
  {
    var r := SortBy(s, key);
    assert r[|s| - 1] in multiset(s);
    forall j | 0 <= j < |s| ensures key(s[j]) <= key(r[|s| - 1]) {
      assert s[j] in multiset(r);
      var k :| 0 <= k < |r| && r[k] == s[j];
    }
  }

  /** Sorting only rearranges: a property of every element still holds of every element. */
  lemma SortByKeepsAll<T>(s: seq<T>, key: T -> int, p: T -> bool)
    requires forall i :: 0 <= i < |s| ==> p(s[i])
    ensures forall i :: 0 <= i < |SortBy(s, key)| ==> p(SortBy(s, key)[i])
  {
    var r := SortBy(s, key);
    forall i | 0 <= i < |r| ensures p(r[i]) {
      assert r[i] in multiset(s);
      var k :| 0 <= k < |s| && s[k] == r[i];
    }
  }

  lemma SortBySingleton<T>(a: T, key: T -> int)
    ensures SortBy([a], key) == [a]
  {
    assert [a][..0] == [];
  }

  /** Sorting two elements with distinct keys puts the smaller first, whatever their order. */
  lemma SortPair<T>(a: T, b: T, key: T -> int)
    requires key(a) < key(b)
    ensures SortBy([a, b], key) == [a, b]
    ensures SortBy([b, a], key) == [a, b]
  {
    SortBySingleton(a, key);
    SortBySingleton(b, key);
    assert [a, b][..1] == [a];
    assert [b, a][..1] == [b];
    assert SortBy([a, b], key) == InsertBy([a], b, key);
    assert SortBy([b, a], key) == InsertBy([b], a, key);
    assert InsertBy([a], b, key) == [a] + InsertBy([], b, key) by {
      assert [a][1..] == [];
    }
  }

  /** Keeps the elements whose key is `k`, in order. */
  function HasKey<T>(key: T -> int, k: int): T -> bool {
    x => key(x) == k
  }

  lemma {:induction false} NoneHasKey<T>(t: seq<T>, key: T -> int, k: int)
    requires forall i :: 0 <= i < |t| ==> key(t[i]) > k
    ensures Filter(t, HasKey(key, k)) == []
  {
    if t != [] {
      NoneHasKey(t[1..], key, k);
    }
  }

  /** Filtering a sequence with a known first element. */
  lemma FilterCons<T>(y: T, t: seq<T>, p: T -> bool)
    ensures Filter([y] + t, p) == (if p(y) then [y] else []) + Filter(t, p)
  {
    var r := [y] + t;
    assert r[0] == y && r[1..] == t;
  }

  lemma SortedTail<T>(t: seq<T>, key: T -> int)
    requires SortedBy(t, key) && t != []
    ensures SortedBy(t[1..], key)
    ensures forall i :: 0 <= i < |t| ==> key(t[0]) <= key(t[i])
  {
  }

  lemma {:induction false} InsertByStable<T>(t: seq<T>, x: T, key: T -> int, k: int)
    requires SortedBy(t, key)
    ensures Filter(InsertBy(t, x, key), HasKey(key, k))
         == Filter(t, HasKey(key, k)) + (if key(x) == k then [x] else [])
  {
    var p := HasKey(key, k);
    var tail := if key(x) == k then [x] else [];
    if t == [] {
      FilterCons(x, [], p);
      assert [x] + [] == [x];
    } else {
      SortedTail(t, key);
      if key(x) < key(t[0]) {
        FilterCons(x, t, p);
        if key(x) == k {
          NoneHasKey(t, key, k);
        }
      } else {
        InsertByStable(t[1..], x, key, k);
        InsertByStableStep(t, x, key, p, tail);
      }
    }
  }

  lemma InsertByStableStep<T>(t: seq<T>, x: T, key: T -> int, p: T -> bool, tail: seq<T>)
    requires t != [] && key(x) >= key(t[0])
    requires Filter(InsertBy(t[1..], x, key), p) == Filter(t[1..], p) + tail
    ensures Filter(InsertBy(t, x, key), p) == Filter(t, p) + tail
  {
    var rest := InsertBy(t[1..], x, key);
    var head := if p(t[0]) then [t[0]] else [];
    calc {
      Filter(InsertBy(t, x, key), p);
      { assert InsertBy(t, x, key) == [t[0]] + rest; }
      Filter([t[0]] + rest, p);
      { FilterCons(t[0], rest, p); }
      head + Filter(rest, p);
      head + (Filter(t[1..], p) + tail);
      (head + Filter(t[1..], p)) + tail;
      { FilterCons(t[0], t[1..], p); assert [t[0]] + t[1..] == t; }
      Filter(t, p) + tail;
    }
  }

  /** Stability: among elements with equal keys the sort keeps the input order. */
  lemma {:induction false} SortByStable<T>(s: seq<T>, key: T -> int, k: int)
    ensures Filter(SortBy(s, key), HasKey(key, k)) == Filter(s, HasKey(key, k))
  {
    if s != [] {
      var init, last := s[..|s| - 1], s[|s| - 1];
      assert s == init + [last];
      SortByStable(init, key, k);
      InsertByStable(SortBy(init, key), last, key, k);
      FilterAppend(init, last, HasKey(key, k));
    }
  }

  /** In an ascending sequence, a key that occurs is not below the first element's key. */
  lemma KeyOccursAtOrAfterFirst<T>(r: seq<T>, key: T -> int, m: int)
    requires SortedBy(r, key) && r != []
    requires Filter(r, HasKey(key, m)) != []
    ensures key(r[0]) <= m
  {
    var f := Filter(r, HasKey(key, m));
    FilterSubMultiset(r, HasKey(key, m));
    assert f[0] in multiset(f);
    var a :| 0 <= a < |r| && r[a] == f[0];
  }

  lemma SortByStableAll<T>(s: seq<T>, key: T -> int)
    ensures forall k :: Filter(SortBy(s, key), HasKey(key, k)) == Filter(s, HasKey(key, k))
  {
    forall k ensures Filter(SortBy(s, key), HasKey(key, k)) == Filter(s, HasKey(key, k)) {
      SortByStable(s, key, k);
    }
  }

  /** Two ascending sequences whose elements of every key agree, in order, are equal. */
  lemma {:induction false} SortedKeyClassesDetermine<T>(r: seq<T>, r': seq<T>, key: T -> int)
    requires SortedBy(r, key) && SortedBy(r', key)
    requires forall k :: Filter(r, HasKey(key, k)) == Filter(r', HasKey(key, k))
    ensures r == r'
    decreases |r| + |r'|
  {
    // A non-empty sequence has a non-empty class for its first key, so both are empty or neither is.
    if r != [] {
      FilterCons(r[0], r[1..], HasKey(key, key(r[0])));
      assert [r[0]] + r[1..] == r;
    }
    if r' != [] {
      FilterCons(r'[0], r'[1..], HasKey(key, key(r'[0])));
      assert [r'[0]] + r'[1..] == r';
    }
    if r != [] && r' != [] {
      var m, m' := key(r[0]), key(r'[0]);
      assert [r[0]] + r[1..] == r && [r'[0]] + r'[1..] == r';
      FilterCons(r[0], r[1..], HasKey(key, m));
      FilterCons(r'[0], r'[1..], HasKey(key, m'));
      KeyOccursAtOrAfterFirst(r', key, m);
      KeyOccursAtOrAfterFirst(r, key, m');
      assert m == m';
      assert Filter(r, HasKey(key, m)) == Filter(r', HasKey(key, m));
      assert Filter(r, HasKey(key, m))[0] == r[0];
      assert r[0] == r'[0];
      forall k ensures Filter(r[1..], HasKey(key, k)) == Filter(r'[1..], HasKey(key, k)) {
        FilterCons(r[0], r[1..], HasKey(key, k));
        FilterCons(r'[0], r'[1..], HasKey(key, k));
        var h := if key(r[0]) == k then [r[0]] else [];
        var a, b := Filter(r[1..], HasKey(key, k)), Filter(r'[1..], HasKey(key, k));
        assert h + a == h + b;
        assert a == (h + a)[|h|..] && b == (h + b)[|h|..];
      }
      SortedKeyClassesDetermine(r[1..], r'[1..], key);
    }
  }

  /**
   * `SortBy` is the only stable sort: any ascending arrangement of `s` that keeps
   * the input order among equal keys is `SortBy(s, key)`.
   */
  lemma StableSortIsUnique<T>(s: seq<T>, r: seq<T>, key: T -> int)
    requires SortedBy(r, key)
    requires forall k :: Filter(r, HasKey(key, k)) == Filter(s, HasKey(key, k))
    ensures r == SortBy(s, key)
  {
    forall k ensures Filter(r, HasKey(key, k)) == Filter(SortBy(s, key), HasKey(key, k)) {
      SortByStable(s, key, k);
    }
    SortedKeyClassesDetermine(r, SortBy(s, key), key);
  }

  /** Sorting an ascending sequence leaves it as it is. */
  lemma {:induction false} SortBySortedIsIdentity<T>(s: seq<T>, key: T -> int)
    requires SortedBy(s, key)
    ensures SortBy(s, key) == s
  {
    forall k ensures Filter(s, HasKey(key, k)) == Filter(s, HasKey(key, k)) { }
    StableSortIsUnique(s, s, key);
  }

  /** Filtering an ascending sequence leaves it ascending. */
  lemma {:induction false} FilterKeepsSorted<T>(s: seq<T>, p: T -> bool, key: T -> int)
    requires SortedBy(s, key)
    ensures SortedBy(Filter(s, p), key)
  {
    if s != [] {
      FilterKeepsSorted(s[1..], p, key);
      var rest := Filter(s[1..], p);
      FilterSubMultiset(s[1..], p);
      forall j | 0 <= j < |rest| ensures key(s[0]) <= key(rest[j]) {
        assert rest[j] in multiset(rest);
        var k :| 0 <= k < |s[1..]| && s[1..][k] == rest[j];
        assert s[1..][k] == s[k + 1];
      }
    }
  }

  /** Sorting keeps a sequence free of duplicate `f`-images. */
  lemma {:induction false} SortByKeepsDistinct<T, K>(s: seq<T>, key: T -> int, f: T -> K)
    requires DistinctBy(s, f)
    ensures DistinctBy(SortBy(s, key), f)
  {
    if s != [] {
      var init, last := s[..|s| - 1], s[|s| - 1];
      var t := SortBy(init, key);
      SortByKeepsDistinct(init, key, f);
      forall i | 0 <= i < |t| ensures f(t[i]) != f(last) {
        assert t[i] in multiset(t);
        var k :| 0 <= k < |init| && init[k] == t[i];
        assert init[k] == s[k];
      }
      InsertByKeepsDistinct(t, last, key, f);
    }
  }

  lemma {:induction false} InsertByKeepsDistinct<T, K>(t: seq<T>, x: T, key: T -> int, f: T -> K)
    requires DistinctBy(t, f)
    requires forall i :: 0 <= i < |t| ==> f(t[i]) != f(x)
    ensures DistinctBy(InsertBy(t, x, key), f)
  {
    if t != [] && key(x) >= key(t[0]) {
      var rest := InsertBy(t[1..], x, key);
      InsertByKeepsDistinct(t[1..], x, key, f);
      var otherThanHead := (y: T) => f(y) != f(t[0]);
      assert forall i :: 0 <= i < |t[1..]| ==> otherThanHead(t[1..][i]) by {
        forall i | 0 <= i < |t[1..]| ensures otherThanHead(t[1..][i]) {
          assert t[1..][i] == t[i + 1];
        }
      }
      InsertByKeepsAll(t[1..], x, key, otherThanHead);
      assert forall j :: 0 <= j < |rest| ==> otherThanHead(rest[j]);
      var r := [t[0]] + rest;
      assert InsertBy(t, x, key) == r;
      forall i, j | 0 <= i < j < |r| ensures f(r[i]) != f(r[j]) {
        if i > 0 {
          assert r[i] == rest[i - 1] && r[j] == rest[j - 1];
        }
      }
    } else if t != [] {
      var r := [x] + t;
      forall i, j | 0 <= i < j < |r| ensures f(r[i]) != f(r[j]) {
        if i > 0 {
          assert r[i] == t[i - 1] && r[j] == t[j - 1];
        } else {
          assert r[j] == t[j - 1];
        }
      }
    }
  }
}
