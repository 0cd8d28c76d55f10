/** Properties of the fallback narrative. */
module FallbackProperties {
  import opened Wrappers
  import opened JsNumber
  import opened Ranking
  import opened Text
  import opened Scoring
  import opened Fallback
  import Seqs
  import ScoringProperties
  import Tallies

  /** Every category carries a numeric percentage. */
  predicate AllNumeric(cs: seq<(string, CategoryScore)>)
  {
    forall i :: 0 <= i < |cs| ==> PercentageOf(cs[i].1).Fin?
  }

  // ----- ranking -----

  /**
   * With numeric percentages the narrative keeps the best three: the kept
   * entries come from the scores in descending percentage order, and no entry
   * left out has a higher percentage than a kept one.
   */
  lemma TopRanked(cs: seq<(string, CategoryScore)>)
    requires AllNumeric(cs)
    ensures var top := Top(cs);
      |top| == Seqs.Min(3, |cs|) &&
      (forall x :: x in top ==> x in cs && PercentageOf(x.1).Fin?) &&
      (forall i, j :: 0 <= i < j < |top| ==> RankKey(top[j]) <= RankKey(top[i])) &&
      (forall x, y :: x in top && y in cs && y !in top ==> RankKey(y) <= RankKey(x))
  {
    TopFromScores(cs);
    TopBeatsRest(cs);
  }

  lemma TopFromScores(cs: seq<(string, CategoryScore)>)
    requires AllNumeric(cs)
    ensures forall x :: x in Top(cs) ==> x in cs && PercentageOf(x.1).Fin?
  {
    var r := SortDesc(cs, RankKey);
    forall x | x in Top(cs)
      ensures x in cs && PercentageOf(x.1).Fin?
    {
      assert x in r;
      assert x in multiset(r);
      var k :| 0 <= k < |cs| && cs[k] == x;
    }
  }

  lemma TopBeatsRest(cs: seq<(string, CategoryScore)>)
    ensures forall x, y :: x in Top(cs) && y in cs && y !in Top(cs) ==> RankKey(y) <= RankKey(x)
  {
    var r := SortDesc(cs, RankKey);
    var n := Seqs.Min(3, |cs|);
    assert Top(cs) == r[..n];
    forall x, y | x in r[..n] && y in cs && y !in r[..n]
      ensures RankKey(y) <= RankKey(x)
    {
      RestBelow(cs, RankKey, n, x, y);
    }
  }

  /** With no numeric percentage at all the sort keeps the entries in their order. */
  lemma TopKeepsOrder(cs: seq<(string, CategoryScore)>)
    requires forall i :: 0 <= i < |cs| ==> PercentageOf(cs[i].1).NaN?
    ensures Top(cs) == cs[..Seqs.Min(3, |cs|)]
  {
    forall x | x in cs
      ensures RankKey(x) == 0.0
    {
      var i :| 0 <= i < |cs| && cs[i] == x;
    }
    SortTies(cs, RankKey, 0.0);
  }

  /**
   * The narrative fails exactly when a LEARNING_STYLE count is among the first
   * three entries (a count has no percentage, so those are kept in order).
   */
  lemma AnalyseFails(rs: seq<Response>, sheet: ScoreSheet)
    requires Comparable(sheet.categoryScores)
    ensures var cs := sheet.categoryScores;
      Analyse(rs, sheet).Err? <==>
        exists i :: 0 <= i < Seqs.Min(3, |cs|) && cs[i].1.Frequency?
  {
    var cs := sheet.categoryScores;
    TopHasCount(cs);
    assert Analyse(rs, sheet).Err? <==> exists i :: 0 <= i < |Top(cs)| && Top(cs)[i].1.Frequency?;
  }

  /** A count is among the ranked three exactly when it is among the first three entries. */
  lemma TopHasCount(cs: seq<(string, CategoryScore)>)
    requires Comparable(cs)
    ensures (exists i :: 0 <= i < |Top(cs)| && Top(cs)[i].1.Frequency?) <==>
      (exists i :: 0 <= i < Seqs.Min(3, |cs|) && cs[i].1.Frequency?)
  {
    if AllNumeric(cs) {
      NumericHasNoCount(cs);
    } else {
      assert forall i :: 0 <= i < |cs| ==> PercentageOf(cs[i].1).NaN?;
      TopKeepsOrder(cs);
      var n := Seqs.Min(3, |cs|);
      assert forall i :: 0 <= i < n ==> Top(cs)[i] == cs[i];
    }
  }

  lemma NumericHasNoCount(cs: seq<(string, CategoryScore)>)
    requires AllNumeric(cs)
    ensures forall i :: 0 <= i < |cs| ==> !cs[i].1.Frequency?
    ensures forall i :: 0 <= i < |Top(cs)| ==> !Top(cs)[i].1.Frequency?
  {
    forall i | 0 <= i < |cs|
      ensures !cs[i].1.Frequency?
    {
      assert PercentageOf(cs[i].1).Fin?;
    }
    TopFromScores(cs);
    forall i | 0 <= i < |Top(cs)|
      ensures !Top(cs)[i].1.Frequency?
    {
      assert Top(cs)[i] in Top(cs);
    }
  }

  /** A LEARNING_STYLE result cannot be narrated: its counts reach the `toFixed` call. */
  lemma LearningStyleNotNarrated(rs: seq<Response>, answered: seq<Response>)
    requires |rs| > 0
    ensures LearningStyle(rs).Ok?
    ensures Comparable(LearningStyle(rs).value.categoryScores)
    ensures Analyse(answered, LearningStyle(rs).value).Err?
  {
    var items := Items(rs, StyleItem);
    var t := Tallies.Tally(items);
    Tallies.TallyKeys(items);
    Tallies.SeenMembers(items, items[0].key);
    assert items[0].key in Tallies.Keys(t);
    var sheet := LearningStyle(rs).value;
    var cs := sheet.categoryScores;
    assert |cs| == |t| > 0;
    assert forall i :: 0 <= i < |cs| ==> cs[i] == (t[i].0, Frequency(t[i].1.count));
    assert forall i :: 0 <= i < |cs| ==> PercentageOf(cs[i].1).NaN?;
    AnalyseFails(answered, sheet);
  }

  // ----- strengths, suggestions and recommendations -----

  /**
   * One strength and one career suggestion per ranked category, with the
   * category humanised, its field looked up and its percentage rounded; or the
   * three generic strengths and the one generic suggestion when there are no
   * categories. Either way both lists are non-empty and the first of the five
   * recommendations quotes the first strength.
   */
  lemma AnalyseContent(rs: seq<Response>, sheet: ScoreSheet)
    requires Comparable(sheet.categoryScores)
    requires Analyse(rs, sheet).Ok?
    ensures var n := Analyse(rs, sheet).value; var cs := sheet.categoryScores; var top := Top(cs);
      |n.strengths| > 0 && |n.careerSuggestions| > 0 &&
      (|cs| == 0 ==> n.strengths == GenericStrengths && n.careerSuggestions == [GenericSuggestion]) &&
      (|cs| > 0 ==>
        |n.strengths| == |n.careerSuggestions| == Seqs.Min(3, |cs|) &&
        forall i :: 0 <= i < |top| ==>
          !top[i].1.Frequency? &&
          n.strengths[i] == Strong(Humanize(top[i].0), top[i].1.percentage) &&
          n.careerSuggestions[i] == CareerSuggestion(CareerField(top[i].0), RoundNum(top[i].1.percentage))) &&
      |n.recommendations| == 5 && n.recommendations[0] == Leverage(n.strengths[0]) &&
      |n.improvementAreas| == 4 && |n.nextSteps| == 5
  {
  }

  /** `match` is the category percentage rounded to the nearest whole number. */
  lemma SuggestionMatch(rs: seq<Response>, sheet: ScoreSheet, i: nat)
    requires Comparable(sheet.categoryScores)
    requires Analyse(rs, sheet).Ok? && |sheet.categoryScores| > 0
    requires i < |Analyse(rs, sheet).value.careerSuggestions|
    ensures var p := PercentageOf(Top(sheet.categoryScores)[i].1);
      var m := Analyse(rs, sheet).value.careerSuggestions[i].matchScore;
      (m.Fin? <==> p.Fin?) && (m.Fin? ==> p.v - 0.5 < m.v <= p.v + 0.5)
  {
    AnalyseContent(rs, sheet);
  }

  // ----- band -----

  /**
   * The band reads the overall percentage, with 0 and NaN replaced by 70: at
   * least 80 is excellent, at least 60 good, anything lower developing.
   */
  lemma BandThresholds(rs: seq<Response>, sheet: ScoreSheet)
    requires Comparable(sheet.categoryScores)
    requires Analyse(rs, sheet).Ok?
    ensures var n := Analyse(rs, sheet).value; var p := sheet.percentage;
      (n.band == Excellent <==> Truthy(p) && p.v >= 80.0) &&
      (n.band == Good <==> !Truthy(p) || 60.0 <= p.v < 80.0) &&
      (n.band == Developing <==> Truthy(p) && p.v < 60.0) &&
      (n.highlyMotivated <==> n.band == Excellent) &&
      (!Truthy(p) ==> n.overallPercentage == 70.0)
  {
  }

  function BandRank(b: Band): nat
  {
    match b
    case Developing => 0
    case Good => 1
    case Excellent => 2
  }

  /** A higher percentage never lands in a lower band. */
  lemma BandMonotone(p: real, q: real)
    requires p <= q
    ensures BandRank(BandOf(p)) <= BandRank(BandOf(q))
  {
  }

  // ----- question analysis -----

  /**
   * One note per response, in order, carrying the question text, the answer
   * and the humanised category; every third note, from the first, is marked
   * not optimal.
   */
  lemma NotesFollowResponses(rs: seq<Response>, sheet: ScoreSheet)
    requires Comparable(sheet.categoryScores)
    requires Analyse(rs, sheet).Ok?
    ensures var qa := Analyse(rs, sheet).value.questionAnalysis;
      |qa| == |rs| &&
      forall i :: 0 <= i < |rs| ==>
        qa[i].question == rs[i].question.text && qa[i].userAnswer == rs[i].answer &&
        qa[i].area == Humanize(rs[i].question.category) &&
        (qa[i].isOptimal <==> i % 3 != 0)
  {
  }

  function NotOptimal(q: QuestionNote): bool
  {
    !q.isOptimal
  }

  /** Exactly `ceil(n / 3)` of the `n` notes are marked not optimal. */
  lemma NotOptimalCount(rs: seq<Response>)
    ensures |Seqs.Filter(QuestionAnalysis(rs), NotOptimal)| == (|rs| + 2) / 3
  {
    NotOptimalPrefix(rs, |rs|);
    assert QuestionAnalysis(rs)[..|rs|] == QuestionAnalysis(rs);
  }

  lemma {:induction false} NotOptimalPrefix(rs: seq<Response>, k: nat)
    requires k <= |rs|
    ensures |Seqs.Filter(QuestionAnalysis(rs)[..k], NotOptimal)| == (k + 2) / 3
  {
    if k > 0 {
      var qa := QuestionAnalysis(rs);
      var last := qa[k - 1];
      NotOptimalPrefix(rs, k - 1);
      assert qa[..k] == qa[..k - 1] + [last];
      Seqs.FilterAppend(qa[..k - 1], [last], NotOptimal);
      assert |Seqs.Filter([last], NotOptimal)| == if (k - 1) % 3 == 0 then 1 else 0 by {
        assert last.isOptimal <==> (k - 1) % 3 != 0;
        assert [last][1..] == [];
      }
      CeilThirdStep(k);
    }
  }

  lemma CeilThirdStep(k: nat)
    requires k > 0
    ensures (k + 2) / 3 == (k + 1) / 3 + (if (k - 1) % 3 == 0 then 1 else 0)
  {
  }

  // ----- lookups and phrasing -----

  /** The generic field is used exactly for the categories the table lacks. */
  lemma CareerFieldDefault(category: string)
    ensures CareerField(category) == DefaultField <==>
      forall i :: 0 <= i < |CareerFields| ==> CareerFields[i].0 != category
  {
    var f := Lookup(CareerFields, category);
    if f.Some? {
      var i :| 0 <= i < |CareerFields| && CareerFields[i] == (category, f.value);
      assert CareerFields[i].1 != DefaultField;
    }
  }

  /** Every row of the table is found under its own category. */
  lemma CareerFieldRows(i: nat)
    requires i < |CareerFields|
    ensures CareerField(CareerFields[i].0) == CareerFields[i].1
  {
    CareerKeysDistinct();
    LookupDistinct(CareerFields, i);
  }

  predicate KeysDistinct(table: seq<(string, string)>)
  {
    forall j, k :: 0 <= j < k < |table| ==> table[j].0 != table[k].0
  }

  lemma CareerKeysDistinct()
    ensures KeysDistinct(CareerFields)
  {
  }

  lemma {:induction false} LookupDistinct(table: seq<(string, string)>, i: nat)
    requires KeysDistinct(table) && i < |table|
    ensures Lookup(table, table[i].0) == Some(table[i].1)
  {
    if i > 0 {
      assert table[0].0 != table[i].0;
      assert table[1..][i - 1] == table[i];
      LookupDistinct(table[1..], i - 1);
    }
  }

  /** Only the first hyphen of a category turns into a space. */
  lemma HumanizeFirstHyphen(category: string, i: nat)
    requires i < |category| && category[i] == '-'
    ensures Humanize(category)[i] == ' ' <==> '-' !in category[..i]
  {
    var l := Lower(category);
    assert l[i] == '-';
    assert l[..i] == Lower(category[..i]);
    assert '-' in category[..i] <==> '-' in l[..i] by {
      forall j | 0 <= j < i
        ensures category[j] == '-' <==> l[j] == '-'
      {
      }
    }
    ReplaceFirstOnlyFirst(l, '-', ' ', i);
  }

  /** A category with two hyphens keeps the second one. */
  lemma HumanizeExample()
    ensures Humanize("A-B-C") == "a b-c"
  {
    var k := Lower("A-B-C");
    assert k == "a-b-c";
    ReplaceFirstAt(k, '-', ' ', 1);
  }
}
