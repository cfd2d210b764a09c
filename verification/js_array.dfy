/**
 * The two `Array.prototype` operations the application builds its lists with:
 * `sort` with a "newest first" comparator `(a, b) => key(b) - key(a)`, which
 * ECMAScript requires to be stable (ECMA-262, section 23.1.3.30), and
 * `slice(0, end)`.
 */
module JsArray {

  /** `s` is in non-increasing order of `key`. */
  predicate SortedDesc<T>(s: seq<T>, key: T -> int) {
    forall i, j :: 0 <= i < j < |s| ==> key(s[i]) >= key(s[j])
  }

  /**
   * Puts `x` in front of the first element whose key is not greater than its
   * own, so that `x` stays ahead of the equal keys that followed it.
   */
  function InsertDesc<T>(x: T, s: seq<T>, key: T -> int): (r: seq<T>)
    requires SortedDesc(s, key)
    ensures SortedDesc(r, key)
    ensures multiset(r) == multiset(s) + multiset{x}
  {
    if |s| == 0 || key(s[0]) <= key(x) then [x] + s
    else
      var t := InsertDesc(x, s[1..], key);
      assert s == [s[0]] + s[1..];
      BoundedByHead(x, s, t, key);
      ConsSorted(s[0], t, key);
      [s[0]] + t
  }

  /** What is inserted after a sorted head, together with a smaller `x`, stays below the head. */
  lemma BoundedByHead<T>(x: T, s: seq<T>, t: seq<T>, key: T -> int)
    requires |s| > 0 && SortedDesc(s, key) && key(x) < key(s[0])
    requires multiset(t) == multiset(s[1..]) + multiset{x}
    ensures forall j :: 0 <= j < |t| ==> key(t[j]) <= key(s[0])
  {
    forall j | 0 <= j < |t| ensures key(t[j]) <= key(s[0]) {
      assert t[j] in multiset(t);
      if t[j] != x {
        assert t[j] in s[1..];
        var i :| 0 <= i < |s[1..]| && s[1..][i] == t[j];
        assert s[i + 1] == t[j];
      }
    }
  }

  lemma ConsSorted<T>(h: T, t: seq<T>, key: T -> int)
    requires SortedDesc(t, key)
    requires forall j :: 0 <= j < |t| ==> key(t[j]) <= key(h)
    ensures SortedDesc([h] + t, key)
  {
    var s := [h] + t;
    forall i, j | 0 <= i < j < |s| ensures key(s[i]) >= key(s[j]) {
      assert s[j] == t[j - 1];
      if i > 0 { assert s[i] == t[i - 1]; }
    }
  }

  /** `s.sort((a, b) => key(b) - key(a))`: a stable sort, greatest key first. */
  function SortDesc<T>(s: seq<T>, key: T -> int): (r: seq<T>)
    ensures SortedDesc(r, key)
    ensures multiset(r) == multiset(s)
    ensures |r| == |s|
  {
    if |s| == 0 then []
    else
      assert s == [s[0]] + s[1..];
      InsertDesc(s[0], SortDesc(s[1..], key), key)
  }

  /** When every key is the same, the stable sort keeps the original order. */
  lemma {:induction false} SortEqualKeysKeepsOrder<T>(s: seq<T>, key: T -> int, k: int)
    requires forall i :: 0 <= i < |s| ==> key(s[i]) == k
    ensures SortDesc(s, key) == s
  {
    if |s| > 0 {
      SortEqualKeysKeepsOrder(s[1..], key, k);
      assert s == [s[0]] + s[1..];
    }
  }

  /** The elements of `s` whose key is `k`, in their order in `s`. */
  function KeyIs<T>(s: seq<T>, key: T -> int, k: int): seq<T> {
    if |s| == 0 then []
    else (if key(s[0]) == k then [s[0]] else []) + KeyIs(s[1..], key, k)
  }

  lemma KeyIsCons<T>(h: T, t: seq<T>, key: T -> int, k: int)
    ensures KeyIs([h] + t, key, k) == (if key(h) == k then [h] else []) + KeyIs(t, key, k)
  {
    assert ([h] + t)[0] == h && ([h] + t)[1..] == t;
  }

  /** Inserting `x` puts it ahead of every element of its own key, and leaves the other keys' order alone. */
  lemma {:induction false} InsertKeyIs<T>(x: T, s: seq<T>, key: T -> int, k: int)
    requires SortedDesc(s, key)
    ensures KeyIs(InsertDesc(x, s, key), key, k) == (if key(x) == k then [x] else []) + KeyIs(s, key, k)
  {
    if |s| == 0 || key(s[0]) <= key(x) {
      KeyIsCons(x, s, key, k);
    } else {
      var t := InsertDesc(x, s[1..], key);
      assert SortedDesc(s[1..], key);
      InsertKeyIs(x, s[1..], key, k);
      KeyIsCons(s[0], t, key, k);
      KeyIsCons(s[0], s[1..], key, k);
      assert s == [s[0]] + s[1..];
    }
  }

  /**
   * The sort is stable: for every key, the elements carrying it appear in the
   * sorted result in the same order as in the input.
   */
  lemma {:induction false} SortStable<T>(s: seq<T>, key: T -> int, k: int)
    ensures KeyIs(SortDesc(s, key), key, k) == KeyIs(s, key, k)
  {
    if |s| > 0 {
      SortStable(s[1..], key, k);
      InsertKeyIs(s[0], SortDesc(s[1..], key), key, k);
    }
  }

  /** The elements of a prefix carrying key `k` are a prefix of those of the whole sequence. */
  lemma {:induction false} KeyIsPrefix<T>(s: seq<T>, n: nat, key: T -> int, k: int)
    requires n <= |s|
    ensures var p := KeyIs(s[..n], key, k);
      |p| <= |KeyIs(s, key, k)| && p == KeyIs(s, key, k)[..|p|]
  {
    if n > 0 {
      KeyIsPrefix(s[1..], n - 1, key, k);
      assert s[..n][0] == s[0] && s[..n][1..] == s[1..][..n - 1];
    }
  }

  /** In a sorted sequence the first element carries the greatest key. */
  lemma SortedHeadIsMax<T>(s: seq<T>, key: T -> int, x: T)
    requires SortedDesc(s, key) && x in s
    ensures key(s[0]) >= key(x)
  {
    var i :| 0 <= i < |s| && s[i] == x;
  }

  /** An element whose key beats every other element's ends up first. */
  lemma SortPutsStrictMaxFirst<T>(s: seq<T>, key: T -> int, x: T)
    requires x in s
    requires forall y :: y in s && y != x ==> key(y) < key(x)
    ensures SortDesc(s, key)[0] == x
  {
    var r := SortDesc(s, key);
    assert x in multiset(r);
    SortedHeadIsMax(r, key, x);
    assert r[0] in multiset(s);
  }

  /** `s.slice(0, end)`: a negative `end` counts back from the end of `s`. */
  function SliceTo<T>(s: seq<T>, end: int): (r: seq<T>)
    ensures |r| <= |s| && r == s[..|r|]
    ensures 0 <= end ==> |r| == if end < |s| then end else |s|
    ensures end < 0 ==> |r| == if |s| + end > 0 then |s| + end else 0
  {
    var e := if end < 0 then (if |s| + end > 0 then |s| + end else 0)
             else if end < |s| then end else |s|;
    s[..e]
  }

  /** In a sorted sequence, the first `k` elements have keys no smaller than any element after them. */
  lemma SortedPrefixDominates<T>(s: seq<T>, k: nat, key: T -> int)
    requires k <= |s| && SortedDesc(s, key)
    ensures multiset(s) - multiset(s[..k]) == multiset(s[k..])
    ensures forall x, y :: x in s[k..] && y in s[..k] ==> key(x) <= key(y)
  {
    assert s == s[..k] + s[k..];
    forall x, y | x in s[k..] && y in s[..k] ensures key(x) <= key(y) {
      var j :| 0 <= j < |s[k..]| && s[k..][j] == x;
      var i :| 0 <= i < k && s[..k][i] == y;
      assert s[k + j] == x && s[i] == y;
    }
  }

  function Min(a: int, b: int): int {
    if a < b then a else b
  }
}
