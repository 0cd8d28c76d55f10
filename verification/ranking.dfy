/**
 * `entries.sort(([, a], [, b]) => key(b) - key(a))`: the stable descending
 * sort that ECMAScript 2019 and later guarantee for a consistent comparator.
 * It ranks the INTEREST and LEARNING_STYLE tallies and the fallback
 * narrative's top categories.
 */
module Ranking {
  import opened Seqs

  /** Keys never increase from left to right. */
  predicate SortedDesc<T>(s: seq<T>, key: T -> real)
  {
    forall i, j :: 0 <= i < j < |s| ==> key(s[i]) >= key(s[j])
  }

  /** `x` goes in front of the first element whose key does not exceed its own. */
  function Insert<T>(x: T, s: seq<T>, key: T -> real): (r: seq<T>)
    ensures multiset(r) == multiset([x] + s)
    ensures |r| == |s| + 1
  {
    if |s| == 0 then [x]
    else if key(x) >= key(s[0]) then [x] + s
    else
      assert s == [s[0]] + s[1..];
      assert multiset([x] + s) == multiset([s[0]] + ([x] + s[1..]));
      [s[0]] + Insert(x, s[1..], key)
  }

  /** The stable descending sort. */
  function SortDesc<T>(s: seq<T>, key: T -> real): (r: seq<T>)
    ensures multiset(r) == multiset(s)
    ensures |r| == |s|
    ensures SortedDesc(r, key)
  {
    if |s| == 0 then []
    else
      var rest := SortDesc(s[1..], key);
      InsertSorted(s[0], rest, key);
      assert s == [s[0]] + s[1..];
      Insert(s[0], rest, key)
  }

  lemma {:induction false} InsertSorted<T>(x: T, s: seq<T>, key: T -> real)
    requires SortedDesc(s, key)
    ensures SortedDesc(Insert(x, s, key), key)
    decreases |s|
  {
    if |s| > 0 && key(x) < key(s[0]) {
      InsertSorted(x, s[1..], key);
      var r := Insert(x, s, key);
      var t := Insert(x, s[1..], key);
      assert r == [s[0]] + t;
      assert multiset(t) == multiset([x] + s[1..]);
      forall j | 0 < j < |r|
        ensures key(r[0]) >= key(r[j])
      {
        assert r[j] == t[j - 1];
        assert t[j - 1] in multiset([x] + s[1..]);
        assert t[j - 1] in [x] + s[1..];
        if t[j - 1] != x {
          var k :| 0 <= k < |s[1..]| && s[1..][k] == t[j - 1];
          assert s[k + 1] == t[j - 1];
        }
      }
    }
  }

  /**
   * Stability: the elements sharing any one key value keep their relative order.
   * `p` selects the elements whose key equals `k`.
   */
  lemma {:induction false} SortStable<T>(s: seq<T>, key: T -> real, k: real, p: T -> bool)
    requires forall x :: p(x) <==> key(x) == k
    ensures Filter(SortDesc(s, key), p) == Filter(s, p)
    decreases |s|
  {
    if |s| > 0 {
      SortStable(s[1..], key, k, p);
      InsertStable(s[0], SortDesc(s[1..], key), key, k, p);
    }
  }

  lemma {:induction false} InsertStable<T>(x: T, s: seq<T>, key: T -> real, k: real, p: T -> bool)
    requires forall y :: p(y) <==> key(y) == k
    ensures Filter(Insert(x, s, key), p) == Filter([x] + s, p)
    decreases |s|
  {
    if |s| > 0 && key(x) < key(s[0]) {
      var s' := s[1..];
      InsertStable(x, s', key, k, p);
      var t := Insert(x, s', key);
      assert Insert(x, s, key) == [s[0]] + t;
      assert s == [s[0]] + s';
      if p(x) {
        assert !p(s[0]);
      }
      PassOver(x, s[0], t, s', p);
    } else {
      assert Insert(x, s, key) == [x] + s;
    }
  }

  /** Moving `x` past an element `h` that the filter cannot also select keeps the filtered list. */
  lemma PassOver<T>(x: T, h: T, t: seq<T>, s: seq<T>, p: T -> bool)
    requires !(p(x) && p(h))
    requires Filter(t, p) == Filter([x] + s, p)
    ensures Filter([h] + t, p) == Filter([x] + ([h] + s), p)
  {
    FilterCons(h, t, p);
    FilterCons(x, s, p);
    FilterCons(x, [h] + s, p);
    FilterCons(h, s, p);
    if p(x) {
      assert Filter([h] + t, p) == Filter(t, p);
      assert Filter([h] + s, p) == Filter(s, p);
    } else {
      assert Filter([x] + s, p) == Filter(s, p);
      assert Filter([x] + ([h] + s), p) == Filter([h] + s, p);
    }
  }

  /**
   * The head of the sorted list is the element at some position `i` of the
   * input that carries the largest key, and no earlier element carries that
   * key (ties keep first-seen order).
   */
  lemma HeadIsFirstMaximal<T>(s: seq<T>, key: T -> real) returns (i: nat)
    requires |s| > 0
    ensures i < |s| && s[i] == SortDesc(s, key)[0]
    ensures forall j :: 0 <= j < |s| ==> key(s[j]) <= key(s[i])
    ensures forall j :: 0 <= j < i ==> key(s[j]) < key(s[i])
  {
    var r := SortDesc(s, key);
    var m := key(r[0]);
    var p := (x: T) => key(x) == m;
    HeadIsMaximal(s, key);
    assert p(r[0]);
    assert exists j :: 0 <= j < |s| && p(s[j]) by {
      assert r[0] in multiset(s);
      var j :| 0 <= j < |s| && s[j] == r[0];
    }
    i := FirstIndex(s, p);
    FilterHeadIsFirst(s, p, i);
    FilterHeadIsFirst(r, p, 0);
    SortStable(s, key, m, p);
    forall j | 0 <= j < |s|
      ensures key(s[j]) <= key(s[i])
    {
      assert s[j] in s;
    }
    forall j | 0 <= j < i
      ensures key(s[j]) < key(s[i])
    {
      assert !p(s[j]);
      assert s[j] in s;
    }
  }

  /** When every key is the same the sort leaves the list as it is. */
  lemma SortTies<T>(s: seq<T>, key: T -> real, k: real)
    requires forall x :: x in s ==> key(x) == k
    ensures SortDesc(s, key) == s
  {
    var r := SortDesc(s, key);
    var p := (x: T) => key(x) == k;
    SortStable(s, key, k, p);
    FilterAll(s, p);
    forall x | x in r
      ensures p(x)
    {
      assert x in multiset(r);
    }
    FilterAll(r, p);
  }

  lemma HeadIsMaximal<T>(s: seq<T>, key: T -> real)
    requires |s| > 0
    ensures forall x :: x in s ==> key(x) <= key(SortDesc(s, key)[0])
  {
    var r := SortDesc(s, key);
    forall x | x in s
      ensures key(x) <= key(r[0])
    {
      assert x in multiset(r);
      var j :| 0 <= j < |r| && r[j] == x;
    }
  }

  /** Index of the first element of `s` satisfying `p`. */
  function FirstIndex<T>(s: seq<T>, p: T -> bool): (i: nat)
    requires exists j :: 0 <= j < |s| && p(s[j])
    ensures i < |s| && p(s[i])
    ensures forall j :: 0 <= j < i ==> !p(s[j])
  {
    if p(s[0]) then 0
    else
      assert exists j :: 0 <= j < |s[1..]| && p(s[1..][j]) by {
        var j :| 0 <= j < |s| && p(s[j]);
        assert j > 0 && s[1..][j - 1] == s[j];
      }
      1 + FirstIndex(s[1..], p)
  }

  lemma {:induction false} FilterHeadIsFirst<T>(s: seq<T>, p: T -> bool, i: nat)
    requires i < |s| && p(s[i])
    requires forall j :: 0 <= j < i ==> !p(s[j])
    ensures |Filter(s, p)| > 0 && Filter(s, p)[0] == s[i]
    decreases i
  {
    if i > 0 {
      FilterHeadIsFirst(s[1..], p, i - 1);
    }
  }

  /** Sorting loses no element. */
  lemma SortKeepsMembers<T>(s: seq<T>, key: T -> real, y: T)
    requires y in s
    ensures y in SortDesc(s, key)
  {
    assert y in multiset(s);
  }

  /** An element left out of the first `n` of the sort ranks no higher than any of them. */
  lemma RestBelow<T>(s: seq<T>, key: T -> real, n: nat, x: T, y: T)
    requires n <= |s|
    requires x in SortDesc(s, key)[..n] && y in s && y !in SortDesc(s, key)[..n]
    ensures key(y) <= key(x)
  {
    SortKeepsMembers(s, key, y);
    PastPrefix(SortDesc(s, key), n, y);
    TopIsMaximal(s, key, n, x, y);
  }

  lemma PastPrefix<T>(r: seq<T>, n: nat, y: T)
    requires n <= |r| && y in r && y !in r[..n]
    ensures y in r[n..]
  {
    assert r == r[..n] + r[n..];
  }

  lemma TopIsMaximal<T>(s: seq<T>, key: T -> real, n: nat, x: T, y: T)
    requires n <= |s|
    requires x in SortDesc(s, key)[..n] && y in SortDesc(s, key)[n..]
    ensures key(x) >= key(y)
  {
    var r := SortDesc(s, key);
    var a, b := r[..n], r[n..];
    var i :| 0 <= i < |a| && a[i] == x;
    var j :| 0 <= j < |b| && b[j] == y;
    assert a[i] == r[i] && b[j] == r[n + j];
    assert SortedDesc(r, key);
    assert key(r[i]) >= key(r[n + j]);
  }
}
