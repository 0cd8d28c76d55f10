/**
 * The per-key accumulation every scorer performs with
 * `if (!acc[key]) acc[key] = {...}; acc[key].score += ...`: a JavaScript
 * object used as an insertion-ordered map. A table is a list of
 * (key, aggregate) pairs in first-seen order; an existing key is updated in
 * place, a new key is appended.
 */
module Tallies {
  import opened JsNumber

  /** One response as a scorer sees it: its grouping key, points, maximum points and answer. */
  datatype Item = Item(key: string, points: Num, max: real, answer: string)

  /** The running aggregate of one key. */
  datatype Acc = Acc(points: Num, max: real, count: nat, first: Item, last: Item)

  type Table = seq<(string, Acc)>

  function Keys(t: Table): (ks: seq<string>)
    ensures |ks| == |t|
    ensures forall i :: 0 <= i < |t| ==> ks[i] == t[i].0
  {
    if |t| == 0 then [] else Keys(t[..|t| - 1]) + [t[|t| - 1].0]
  }

  /** Position of key `k` in the table, or -1. */
  function IndexOf(t: Table, k: string): (i: int)
    ensures -1 <= i < |t|
    ensures i >= 0 ==> t[i].0 == k
    ensures i == -1 <==> k !in Keys(t)
  {
    if |t| == 0 then -1
    else if t[|t| - 1].0 == k then |t| - 1
    else IndexOf(t[..|t| - 1], k)
  }

  /** Folds one item into the table. */
  function Bump(t: Table, it: Item): Table
  {
    var i := IndexOf(t, it.key);
    if i == -1 then t + [(it.key, Acc(it.points, it.max, 1, it, it))]
    else
      var a := t[i].1;
      t[i := (it.key, Acc(Add(a.points, it.points), a.max + it.max, a.count + 1, a.first, it))]
  }

  /** The table after every item has been folded in, in order. */
  function Tally(items: seq<Item>): Table
  {
    if |items| == 0 then [] else Bump(Tally(items[..|items| - 1]), items[|items| - 1])
  }

  // ----- reference definitions, independent of tables -----

  /** Keys in order of first appearance. */
  function Seen(items: seq<Item>): seq<string>
  {
    if |items| == 0 then []
    else
      var prev := Seen(items[..|items| - 1]);
      if items[|items| - 1].key in prev then prev else prev + [items[|items| - 1].key]
  }

  /** The items carrying key `k`, in order. */
  function Matching(items: seq<Item>, k: string): (m: seq<Item>)
    ensures forall j :: 0 <= j < |m| ==> m[j] in items && m[j].key == k
  {
    if |items| == 0 then []
    else Matching(items[..|items| - 1], k) + (if items[|items| - 1].key == k then [items[|items| - 1]] else [])
  }

  /** Sum of the points of all items (`totalScore`). */
  function TotalPoints(items: seq<Item>): Num
  {
    if |items| == 0 then Fin(0.0) else Add(TotalPoints(items[..|items| - 1]), items[|items| - 1].points)
  }

  /** Sum of the maximum points of all items (`maxPossibleScore`). */
  function TotalMax(items: seq<Item>): real
  {
    if |items| == 0 then 0.0 else TotalMax(items[..|items| - 1]) + items[|items| - 1].max
  }

  /** Sum of the aggregated points over a table (`Object.values(t).reduce(+)`). */
  function SumPoints(t: Table): Num
  {
    if |t| == 0 then Fin(0.0) else Add(SumPoints(t[..|t| - 1]), t[|t| - 1].1.points)
  }

  function SumCounts(t: Table): nat
  {
    if |t| == 0 then 0 else SumCounts(t[..|t| - 1]) + t[|t| - 1].1.count
  }

  /** The aggregate of key `k` as defined directly from the items. */
  predicate Describes(items: seq<Item>, k: string, a: Acc)
  {
    var m := Matching(items, k);
    |m| > 0 && a == Acc(TotalPoints(m), TotalMax(m), |m|, m[0], m[|m| - 1])
  }

  predicate Distinct(ks: seq<string>)
  {
    forall i, j :: 0 <= i < j < |ks| ==> ks[i] != ks[j]
  }

  // ----- the tally meets its reference -----

  /**
   * The table lists each key once, in first-seen order, and every entry holds the
   * sum, maximum, count, first and last item of exactly the items with its key.
   */
  lemma TallyCorrect(items: seq<Item>)
    ensures Keys(Tally(items)) == Seen(items)
    ensures Distinct(Keys(Tally(items)))
    ensures forall i :: 0 <= i < |Tally(items)| ==> Describes(items, Tally(items)[i].0, Tally(items)[i].1)
  {
    TallyKeys(items);
    SeenDistinct(items);
    TallyEntries(items);
  }

  lemma {:induction false} TallyKeys(items: seq<Item>)
    ensures Keys(Tally(items)) == Seen(items)
    decreases |items|
  {
    if |items| > 0 {
      var pre := items[..|items| - 1];
      var it := items[|items| - 1];
      TallyKeys(pre);
      var t := Tally(pre);
      var t' := Tally(items);
      var i := IndexOf(t, it.key);
      if i == -1 {
        assert Keys(t') == Keys(t) + [it.key];
      } else {
        assert Keys(t') == Keys(t);
      }
    }
  }

  lemma {:induction false} SeenDistinct(items: seq<Item>)
    ensures Distinct(Seen(items))
    decreases |items|
  {
    if |items| > 0 {
      SeenDistinct(items[..|items| - 1]);
    }
  }

  lemma TallyEntries(items: seq<Item>)
    ensures forall i :: 0 <= i < |Tally(items)| ==> Describes(items, Tally(items)[i].0, Tally(items)[i].1)
  {
    forall j | 0 <= j < |Tally(items)|
      ensures Describes(items, Tally(items)[j].0, Tally(items)[j].1)
    {
      TallyEntry(items, j);
    }
  }

  lemma {:induction false} TallyEntry(items: seq<Item>, j: nat)
    requires j < |Tally(items)|
    ensures Describes(items, Tally(items)[j].0, Tally(items)[j].1)
    decreases |items|
  {
    var pre := items[..|items| - 1];
    var it := items[|items| - 1];
    var t := Tally(pre);
    var t' := Tally(items);
    assert t' == Bump(t, it);
    var i := IndexOf(t, it.key);
    if i == -1 && j == |t| {
      TallyKeys(pre);
      DescribesNew(items);
    } else if t'[j].0 != it.key {
      assert t'[j] == t[j];
      TallyEntry(pre, j);
      DescribesOther(items, t[j].0, t[j].1);
    } else {
      TallyKeys(pre);
      SeenDistinct(pre);
      assert j == i;
      TallyEntry(pre, j);
      DescribesExtend(items, t[j].1);
    }
  }

  lemma DescribesNew(items: seq<Item>)
    requires |items| > 0
    requires items[|items| - 1].key !in Seen(items[..|items| - 1])
    ensures var it := items[|items| - 1]; Describes(items, it.key, Acc(it.points, it.max, 1, it, it))
  {
    var pre := items[..|items| - 1];
    var it := items[|items| - 1];
    MatchingEmpty(pre, it.key);
    assert Matching(items, it.key) == [it];
    assert [it][..0] == [];
  }

  lemma DescribesOther(items: seq<Item>, k: string, a: Acc)
    requires |items| > 0
    requires k != items[|items| - 1].key
    requires Describes(items[..|items| - 1], k, a)
    ensures Describes(items, k, a)
  {
    assert Matching(items, k) == Matching(items[..|items| - 1], k);
  }

  lemma DescribesExtend(items: seq<Item>, a: Acc)
    requires |items| > 0
    requires Describes(items[..|items| - 1], items[|items| - 1].key, a)
    ensures var it := items[|items| - 1];
      Describes(items, it.key, Acc(Add(a.points, it.points), a.max + it.max, a.count + 1, a.first, it))
  {
    var it := items[|items| - 1];
    var m := Matching(items[..|items| - 1], it.key);
    var m' := Matching(items, it.key);
    assert m' == m + [it];
    assert m'[..|m'| - 1] == m;
  }

  lemma {:induction false} MatchingEmpty(items: seq<Item>, k: string)
    requires k !in Seen(items)
    ensures Matching(items, k) == []
    decreases |items|
  {
    if |items| > 0 {
      var pre := items[..|items| - 1];
      assert Seen(pre) <= Seen(items) || k !in Seen(pre) by {
        var prev := Seen(pre);
        assert forall x :: x in prev ==> x in Seen(items);
      }
      MatchingEmpty(pre, k);
    }
  }

  /** Keys of the table are exactly the keys of the items. */
  lemma {:induction false} SeenMembers(items: seq<Item>, k: string)
    ensures k in Seen(items) <==> exists j :: 0 <= j < |items| && items[j].key == k
    decreases |items|
  {
    if |items| > 0 {
      var pre := items[..|items| - 1];
      SeenMembers(pre, k);
      if exists j :: 0 <= j < |pre| && pre[j].key == k {
        var j :| 0 <= j < |pre| && pre[j].key == k;
        assert items[j].key == k;
      }
      if exists j :: 0 <= j < |items| && items[j].key == k {
        var j :| 0 <= j < |items| && items[j].key == k;
        if j < |pre| {
          assert pre[j].key == k;
        }
      }
    }
  }

  /** Aggregating per key and then summing gives the overall total. */
  lemma {:induction false} SumOfEntries(items: seq<Item>)
    ensures SumPoints(Tally(items)) == TotalPoints(items)
    ensures SumCounts(Tally(items)) == |items|
    decreases |items|
  {
    if |items| > 0 {
      var pre := items[..|items| - 1];
      var it := items[|items| - 1];
      SumOfEntries(pre);
      var t := Tally(pre);
      var i := IndexOf(t, it.key);
      assert TotalPoints(items) == Add(TotalPoints(pre), it.points);
      if i == -1 {
        var e := (it.key, Acc(it.points, it.max, 1, it, it));
        assert Tally(items) == t + [e];
        assert (t + [e])[..|t|] == t;
      } else {
        var a := t[i].1;
        var e := (it.key, Acc(Add(a.points, it.points), a.max + it.max, a.count + 1, a.first, it));
        assert Tally(items) == t[i := e];
        SumUpdate(t, i, e, it.points);
      }
    }
  }

  /** Replacing entry `i` by one with `d` more points (and one more count) adds `d` to the sum. */
  lemma {:induction false} SumUpdate(t: Table, i: nat, e: (string, Acc), d: Num)
    requires i < |t|
    requires e.1.points == Add(t[i].1.points, d)
    requires e.1.count == t[i].1.count + 1
    ensures SumPoints(t[i := e]) == Add(SumPoints(t), d)
    ensures SumCounts(t[i := e]) == SumCounts(t) + 1
    decreases |t|
  {
    var n := |t| - 1;
    if i < n {
      SumUpdate(t[..n], i, e, d);
      assert t[i := e][..n] == t[..n][i := e];
    } else {
      assert t[i := e][..n] == t[..n];
    }
  }

  // ----- transferring per-item bounds to aggregates -----

  /** Points and maximum of an item as a percentage may be formed from them. */
  predicate Divisible(points: Num, max: real)
  {
    max >= 0.0 && (max == 0.0 ==> ZeroOrNaN(points))
  }

  /** A sum of divisible items is divisible. */
  lemma {:induction false} TotalsDivisible(items: seq<Item>)
    requires forall j :: 0 <= j < |items| ==> Divisible(items[j].points, items[j].max)
    ensures Divisible(TotalPoints(items), TotalMax(items))
    decreases |items|
  {
    if |items| > 0 {
      TotalsDivisible(items[..|items| - 1]);
    }
  }

  /** Points between a fifth of the maximum and the maximum: a 1-5 ordinal times a positive weight. */
  predicate WithinScale(points: Num, max: real)
  {
    points.Fin? && max > 0.0 && max <= 5.0 * points.v && points.v <= max
  }

  /** A non-empty sum of graded items is graded. */
  lemma {:induction false} TotalsGraded(items: seq<Item>)
    requires |items| > 0
    requires forall j :: 0 <= j < |items| ==> WithinScale(items[j].points, items[j].max)
    ensures WithinScale(TotalPoints(items), TotalMax(items))
    decreases |items|
  {
    if |items| > 1 {
      TotalsGraded(items[..|items| - 1]);
    }
  }

  /** A sum of finite non-negative points is finite and non-negative. */
  lemma {:induction false} TotalsNonNegative(items: seq<Item>)
    requires forall j :: 0 <= j < |items| ==> items[j].points.Fin? && items[j].points.v >= 0.0
    ensures TotalPoints(items).Fin? && TotalPoints(items).v >= 0.0
    decreases |items|
  {
    if |items| > 0 {
      TotalsNonNegative(items[..|items| - 1]);
    }
  }

  /** Every item of `Matching` comes from the items, so per-item bounds carry over. */
  lemma MatchingInherits(items: seq<Item>, k: string, j: nat)
    requires j < |Matching(items, k)|
    ensures exists i :: 0 <= i < |items| && items[i] == Matching(items, k)[j]
  {
    var m := Matching(items, k);
    assert m[j] in items;
  }

  /** With non-negative points, one entry never exceeds the table's sum. */
  lemma {:induction false} EntryAtMostSum(t: Table, i: nat)
    requires i < |t|
    requires forall j :: 0 <= j < |t| ==> t[j].1.points.Fin? && t[j].1.points.v >= 0.0
    ensures SumPoints(t).Fin? && t[i].1.points.v <= SumPoints(t).v
    decreases |t|
  {
    var n := |t| - 1;
    SumNonNegative(t[..n]);
    if i < n {
      EntryAtMostSum(t[..n], i);
    }
  }

  lemma {:induction false} SumNonNegative(t: Table)
    requires forall j :: 0 <= j < |t| ==> t[j].1.points.Fin? && t[j].1.points.v >= 0.0
    ensures SumPoints(t).Fin? && SumPoints(t).v >= 0.0
    decreases |t|
  {
    if |t| > 0 {
      SumNonNegative(t[..|t| - 1]);
    }
  }

  /** Per-item divisibility carries over to every entry of the table. */
  lemma EntriesDivisible(items: seq<Item>)
    requires forall j :: 0 <= j < |items| ==> Divisible(items[j].points, items[j].max)
    ensures forall i :: 0 <= i < |Tally(items)| ==> Divisible(Tally(items)[i].1.points, Tally(items)[i].1.max)
  {
    forall i | 0 <= i < |Tally(items)|
      ensures Divisible(Tally(items)[i].1.points, Tally(items)[i].1.max)
    {
      TallyEntry(items, i);
      var m := Matching(items, Tally(items)[i].0);
      forall j | 0 <= j < |m|
        ensures Divisible(m[j].points, m[j].max)
      {
        MatchingInherits(items, Tally(items)[i].0, j);
      }
      TotalsDivisible(m);
    }
  }

  /** Per-item grading carries over to every entry of the table. */
  lemma EntriesGraded(items: seq<Item>)
    requires forall j :: 0 <= j < |items| ==> WithinScale(items[j].points, items[j].max)
    ensures forall i :: 0 <= i < |Tally(items)| ==> WithinScale(Tally(items)[i].1.points, Tally(items)[i].1.max)
  {
    forall i | 0 <= i < |Tally(items)|
      ensures WithinScale(Tally(items)[i].1.points, Tally(items)[i].1.max)
    {
      TallyEntry(items, i);
      var m := Matching(items, Tally(items)[i].0);
      forall j | 0 <= j < |m|
        ensures WithinScale(m[j].points, m[j].max)
      {
        MatchingInherits(items, Tally(items)[i].0, j);
      }
      TotalsGraded(m);
    }
  }

  /** Finite non-negative item points give finite non-negative entries. */
  lemma EntriesNonNegative(items: seq<Item>)
    requires forall j :: 0 <= j < |items| ==> items[j].points.Fin? && items[j].points.v >= 0.0
    ensures forall i :: 0 <= i < |Tally(items)| ==> Tally(items)[i].1.points.Fin? && Tally(items)[i].1.points.v >= 0.0
  {
    forall i | 0 <= i < |Tally(items)|
      ensures Tally(items)[i].1.points.Fin? && Tally(items)[i].1.points.v >= 0.0
    {
      TallyEntry(items, i);
      var m := Matching(items, Tally(items)[i].0);
      forall j | 0 <= j < |m|
        ensures m[j].points.Fin? && m[j].points.v >= 0.0
      {
        MatchingInherits(items, Tally(items)[i].0, j);
      }
      TotalsNonNegative(m);
    }
  }

  /** Every item is among the items of its own key. */
  lemma {:induction false} MatchingContains(items: seq<Item>, j: nat)
    requires j < |items|
    ensures items[j] in Matching(items, items[j].key)
    decreases |items|
  {
    if j < |items| - 1 {
      MatchingContains(items[..|items| - 1], j);
    }
  }

  /** One NaN item makes the whole sum NaN. */
  lemma {:induction false} TotalNaN(items: seq<Item>, j: nat)
    requires j < |items| && items[j].points.NaN?
    ensures TotalPoints(items).NaN?
    decreases |items|
  {
    if j < |items| - 1 {
      TotalNaN(items[..|items| - 1], j);
    }
  }

  /** Items that all carry the same maximum `c` sum to `c` per item. */
  lemma {:induction false} TotalMaxUniform(items: seq<Item>, c: real)
    requires forall j :: 0 <= j < |items| ==> items[j].max == c
    ensures TotalMax(items) == c * |items| as real
    decreases |items|
  {
    if |items| > 0 {
      TotalMaxUniform(items[..|items| - 1], c);
    }
  }

  /** Items worth one point each sum to their number. */
  lemma {:induction false} TotalPointsUnit(items: seq<Item>)
    requires forall j :: 0 <= j < |items| ==> items[j].points == Fin(1.0)
    ensures TotalPoints(items) == Fin(|items| as real)
    decreases |items|
  {
    if |items| > 0 {
      TotalPointsUnit(items[..|items| - 1]);
    }
  }

  /** Every entry of a reordering of a table with non-negative points is at most the table's sum. */
  lemma RankedAtMostSum(t: Table, r: Table)
    requires multiset(r) == multiset(t)
    requires forall j :: 0 <= j < |t| ==> t[j].1.points.Fin? && t[j].1.points.v >= 0.0
    ensures SumPoints(t).Fin?
    ensures forall i :: 0 <= i < |r| ==> r[i].1.points.Fin? && 0.0 <= r[i].1.points.v <= SumPoints(t).v
  {
    SumNonNegative(t);
    forall i | 0 <= i < |r|
      ensures r[i].1.points.Fin? && 0.0 <= r[i].1.points.v <= SumPoints(t).v
    {
      assert r[i] in multiset(t);
      var k :| 0 <= k < |t| && t[k] == r[i];
      EntryAtMostSum(t, k);
    }
  }
}
