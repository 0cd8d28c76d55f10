/**
 * What the assessment scorers promise: the category records are exactly the
 * groups of the responses, category scores add up to the overall score, the
 * percentages stay in range on the documented answer scales, and the two
 * APTITUDE scoring paths agree where both apply.
 */
module ScoringProperties {
  import opened Wrappers
  import opened JsNumber
  import opened Tallies
  import opened Ranking
  import opened Scoring
  import Seqs

  /** The category names of a score sheet, in order. */
  function Names(cs: seq<(string, CategoryScore)>): (ns: seq<string>)
    ensures |ns| == |cs|
    ensures forall i :: 0 <= i < |cs| ==> ns[i] == cs[i].0
  {
    seq(|cs|, i requires 0 <= i < |cs| => cs[i].0)
  }

  /** The number a category record contributes to a sum (a LEARNING_STYLE record is the bare count). */
  function ScoreOf(c: CategoryScore): Num
  {
    if c.Frequency? then Fin(c.count as real) else c.score
  }

  function SumScores(cs: seq<(string, CategoryScore)>): Num
  {
    if |cs| == 0 then Fin(0.0) else Add(SumScores(cs[..|cs| - 1]), ScoreOf(cs[|cs| - 1].1))
  }

  predicate OnAgreementScale(rs: seq<Response>)
  {
    forall i :: 0 <= i < |rs| ==> AgreementScale(rs[i].answer).Some?
  }

  predicate OnExperienceScale(rs: seq<Response>)
  {
    forall i :: 0 <= i < |rs| ==> ExperienceScale(rs[i].answer).Some?
  }

  predicate OnImportanceScale(rs: seq<Response>)
  {
    forall i :: 0 <= i < |rs| ==> ImportanceScale(rs[i].answer).Some?
  }

  predicate WeightsPositive(rs: seq<Response>)
  {
    forall i :: 0 <= i < |rs| ==> rs[i].question.weight > 0.0
  }

  // ----- shared steps -----

  /** A 1-5 ordinal times a positive weight, out of five times the weight, is graded. */
  lemma OrdinalGraded(o: int, w: real)
    requires 1 <= o <= 5 && w > 0.0
    ensures WithinScale(Fin(o as real * w), 5.0 * w)
  {
    assert 1.0 * w <= o as real * w <= 5.0 * w;
  }

  /** A graded score is between 20 and 100 percent of its maximum. */
  lemma GradedPercent(points: Num, max: real)
    requires WithinScale(points, max)
    ensures Percent(points, max).Fin? && 20.0 <= Percent(points, max).v <= 100.0
  {
    PercentBetween(points.v, max, 20.0, 100.0);
  }

  /**
   * Entry `i` of a scorer's table belongs to the `i`-th group of the responses
   * and aggregates exactly the responses of that group.
   */
  lemma EntryOfGroup(rs: seq<Response>, f: Response -> Item, key: Response -> string, i: nat)
    requires forall r :: f(r).key == key(r)
    requires i < |Tally(Items(rs, f))|
    ensures |Groups(rs, key)| == |Tally(Items(rs, f))|
    ensures var t := Tally(Items(rs, f)); var m := Members(rs, key, t[i].0);
      t[i].0 == Groups(rs, key)[i] && |m| > 0 &&
      t[i].1 == Acc(TotalPoints(Items(m, f)), TotalMax(Items(m, f)), |m|, f(m[0]), f(m[|m| - 1]))
  {
    var items := Items(rs, f);
    var t := Tally(items);
    TallyKeys(items);
    TallyEntry(items, i);
    GroupsBridge(rs, f, key, t[i].0);
  }

  /** The table of a scorer lists the groups of the responses, in first-seen order. */
  lemma TableKeys(rs: seq<Response>, f: Response -> Item, key: Response -> string)
    requires forall r :: f(r).key == key(r)
    ensures Keys(Tally(Items(rs, f))) == Groups(rs, key)
  {
    TallyKeys(Items(rs, f));
    GroupsBridge(rs, f, key, "");
  }

  /** Category records that carry their entry's points add up to the table's sum. */
  lemma {:induction false} SumScoresMatch(cs: seq<(string, CategoryScore)>, t: Table)
    requires |cs| == |t|
    requires forall i :: 0 <= i < |t| ==> ScoreOf(cs[i].1) == t[i].1.points
    ensures SumScores(cs) == SumPoints(t)
    decreases |t|
  {
    if |t| > 0 {
      SumScoresMatch(cs[..|cs| - 1], t[..|t| - 1]);
    }
  }

  // ----- APTITUDE -----

  lemma AptitudeItemsGraded(rs: seq<Response>)
    requires OnAgreementScale(rs) && WeightsPositive(rs)
    ensures forall j :: 0 <= j < |rs| ==> WithinScale(Items(rs, AptitudeItem)[j].points, Items(rs, AptitudeItem)[j].max)
  {
    forall j | 0 <= j < |rs|
      ensures WithinScale(Items(rs, AptitudeItem)[j].points, Items(rs, AptitudeItem)[j].max)
    {
      OrdinalGraded(AgreementScale(rs[j].answer).value, rs[j].question.weight);
    }
  }

  /**
   * APTITUDE lists one record per category in first-seen order; each holds the
   * weighted score, maximum and number of exactly the responses of its category
   * and the score as a percentage of that maximum; the category scores add up to
   * the overall score, which is the sum over all responses, and the overall
   * percentage is that sum over the summed maxima.
   */
  lemma AptitudeByCategory(rs: seq<Response>)
    requires WeightsNonNegative(rs)
    ensures var cs := Aptitude(rs).categoryScores;
      Names(cs) == Groups(rs, CategoryOf) &&
      (forall i :: 0 <= i < |cs| ==>
        var m := Members(rs, CategoryOf, cs[i].0);
        cs[i].1.Graded? && cs[i].1.score == TotalPoints(Items(m, AptitudeItem)) &&
        cs[i].1.maxScore == TotalMax(Items(m, AptitudeItem)) && cs[i].1.count == |m| &&
        Divisible(cs[i].1.score, cs[i].1.maxScore) && cs[i].1.percentage == Percent(cs[i].1.score, cs[i].1.maxScore)) &&
      SumScores(cs) == Aptitude(rs).overallScore
    ensures var items := Items(rs, AptitudeItem);
      Aptitude(rs).overallScore == TotalPoints(items) && Divisible(TotalPoints(items), TotalMax(items)) &&
      Aptitude(rs).percentage == Percent(TotalPoints(items), TotalMax(items))
  {
    var cs := Aptitude(rs).categoryScores;
    AptitudeNames(rs);
    forall i | 0 <= i < |cs| {
      AptitudeEntry(rs, i);
    }
    AptitudeTotal(rs);
    AptitudeOverall(rs);
  }

  lemma AptitudeNames(rs: seq<Response>)
    requires WeightsNonNegative(rs)
    ensures Names(Aptitude(rs).categoryScores) == Groups(rs, CategoryOf)
  {
    TableKeys(rs, AptitudeItem, CategoryOf);
    assert Names(Aptitude(rs).categoryScores) == Keys(Tally(Items(rs, AptitudeItem)));
  }

  lemma AptitudeEntry(rs: seq<Response>, i: nat)
    requires WeightsNonNegative(rs)
    requires i < |Aptitude(rs).categoryScores|
    ensures var c := Aptitude(rs).categoryScores[i];
      var m := Members(rs, CategoryOf, c.0);
      c.1.Graded? && c.1.score == TotalPoints(Items(m, AptitudeItem)) &&
      c.1.maxScore == TotalMax(Items(m, AptitudeItem)) && c.1.count == |m| &&
      Divisible(c.1.score, c.1.maxScore) && c.1.percentage == Percent(c.1.score, c.1.maxScore)
  {
    var t := Tally(Items(rs, AptitudeItem));
    EntryOfGroup(rs, AptitudeItem, CategoryOf, i);
    AptitudeItemsDivisible(rs);
    EntriesDivisible(Items(rs, AptitudeItem));
    assert Divisible(t[i].1.points, t[i].1.max);
  }

  lemma AptitudeTotal(rs: seq<Response>)
    requires WeightsNonNegative(rs)
    ensures SumScores(Aptitude(rs).categoryScores) == Aptitude(rs).overallScore
  {
    var items := Items(rs, AptitudeItem);
    SumScoresMatch(Aptitude(rs).categoryScores, Tally(items));
    SumOfEntries(items);
  }

  lemma AptitudeOverall(rs: seq<Response>)
    requires WeightsNonNegative(rs)
    ensures var items := Items(rs, AptitudeItem);
      Aptitude(rs).overallScore == TotalPoints(items) && Divisible(TotalPoints(items), TotalMax(items)) &&
      Aptitude(rs).percentage == Percent(TotalPoints(items), TotalMax(items))
  {
    AptitudeItemsDivisible(rs);
    TotalsDivisible(Items(rs, AptitudeItem));
  }

  /** On the agreement scale with positive weights, every APTITUDE percentage is between 20 and 100. */
  lemma AptitudeRange(rs: seq<Response>)
    requires |rs| > 0 && OnAgreementScale(rs) && WeightsPositive(rs)
    ensures var s := Aptitude(rs);
      s.percentage.Fin? && 20.0 <= s.percentage.v <= 100.0 &&
      forall i :: 0 <= i < |s.categoryScores| ==>
        s.categoryScores[i].1.percentage.Fin? &&
        20.0 <= s.categoryScores[i].1.percentage.v <= 100.0
  {
    var items := Items(rs, AptitudeItem);
    var t := Tally(items);
    AptitudeItemsGraded(rs);
    TotalsGraded(items);
    GradedPercent(TotalPoints(items), TotalMax(items));
    EntriesGraded(items);
    forall i | 0 <= i < |t| {
      GradedPercent(t[i].1.points, t[i].1.max);
    }
  }

  /** One answer outside the agreement scale makes its category's percentage, the overall score and the overall percentage NaN. */
  lemma AptitudeUnknownAnswer(rs: seq<Response>, j: nat)
    requires WeightsNonNegative(rs)
    requires j < |rs| && AgreementScale(rs[j].answer).None?
    ensures Aptitude(rs).overallScore.NaN? && Aptitude(rs).percentage.NaN?
    ensures exists i :: 0 <= i < |Aptitude(rs).categoryScores| &&
                        Aptitude(rs).categoryScores[i].0 == rs[j].question.category &&
                        Aptitude(rs).categoryScores[i].1.percentage.NaN?
  {
    var items := Items(rs, AptitudeItem);
    var t := Tally(items);
    var c := items[j].key;
    TotalNaN(items, j);
    TallyKeys(items);
    SeenMembers(items, c);
    assert c in Keys(t);
    var i :| 0 <= i < |t| && Keys(t)[i] == c;
    TallyEntry(items, i);
    var m := Matching(items, c);
    MatchingContains(items, j);
    var k :| 0 <= k < |m| && m[k] == items[j];
    TotalNaN(m, k);
    assert Aptitude(rs).categoryScores[i].1.percentage.NaN?;
  }

  /** The worked example: "Agree" and "Neutral" on two unit-weight questions score 7 of 10, 70 percent. */
  lemma AptitudeExample()
    ensures var q := Question("q", [], "Logical Reasoning", 1.0);
      var s := Aptitude([Response(q, "Agree"), Response(q, "Neutral")]);
      s.overallScore == Fin(7.0) && s.percentage == Fin(70.0) &&
      s.categoryScores == [("Logical Reasoning", Graded(Fin(7.0), 10.0, Fin(70.0), 2))]
  {
    var q := Question("q", [], "Logical Reasoning", 1.0);
    var rs := [Response(q, "Agree"), Response(q, "Neutral")];
    var items := Items(rs, AptitudeItem);
    var a := Item("Logical Reasoning", Fin(4.0), 5.0, "Agree");
    var b := Item("Logical Reasoning", Fin(3.0), 5.0, "Neutral");
    assert items == [a, b];
    assert items[..1] == [a];
    assert [a][..0] == [];
    var t1 := [("Logical Reasoning", Acc(Fin(4.0), 5.0, 1, a, a))];
    assert Tally([a]) == t1;
    assert IndexOf(t1, "Logical Reasoning") == 0;
    assert Tally(items) == [("Logical Reasoning", Acc(Fin(7.0), 10.0, 2, a, b))];
    assert TotalPoints([a]) == Fin(4.0) && TotalMax([a]) == 5.0;
    assert TotalPoints(items) == Fin(7.0);
    assert TotalMax(items) == 10.0;
    assert Percent(Fin(7.0), 10.0) == Fin(70.0);
  }

  // ----- the regenerating path -----

  /** On the agreement scale with positive weights, regenerating an APTITUDE result reproduces it. */
  lemma RegenerateAgrees(rs: seq<Response>)
    requires OnAgreementScale(rs) && WeightsPositive(rs)
    ensures Regenerate("APTITUDE", rs) == Aptitude(rs)
  {
    forall j | 0 <= j < |rs|
      ensures RegeneratedItem(rs[j]) == AptitudeItem(rs[j])
    {
    }
    assert Items(rs, RegeneratedItem) == Items(rs, AptitudeItem);
  }

  /** Elsewhere they differ: an experience answer is NaN to the first path and 5 to the second. */
  lemma RegenerateDiffers()
    ensures var rs := [Response(Question("q", [], "Logic", 1.0), "Expert")];
      Aptitude(rs).overallScore.NaN? && Regenerate("APTITUDE", rs).overallScore == Fin(5.0)
  {
    var rs := [Response(Question("q", [], "Logic", 1.0), "Expert")];
    var a := Items(rs, AptitudeItem);
    var b := Items(rs, RegeneratedItem);
    assert a[..0] == [] && b[..0] == [];
    assert a[0].points.NaN?;
    assert b[0].points == Fin(5.0);
    assert TotalPoints(a) == Add(Fin(0.0), a[0].points);
    assert TotalPoints(b) == Add(Fin(0.0), b[0].points);
  }

  lemma RegeneratedItemsGraded(rs: seq<Response>)
    requires WeightsNonNegative(rs)
    ensures forall j :: 0 <= j < |rs| ==> WithinScale(Items(rs, RegeneratedItem)[j].points, Items(rs, RegeneratedItem)[j].max)
  {
    forall j | 0 <= j < |rs|
      ensures WithinScale(Items(rs, RegeneratedItem)[j].points, Items(rs, RegeneratedItem)[j].max)
    {
      OrdinalGraded(ScoreFromAnswer(rs[j].answer), EffectiveWeight(rs[j].question.weight));
    }
  }

  /** Every answer scores 1 to 5 on the merged scale, so a regenerated APTITUDE percentage is 20 to 100. */
  lemma RegenerateRange(rs: seq<Response>)
    requires |rs| > 0 && WeightsNonNegative(rs)
    ensures var s := Regenerate("APTITUDE", rs);
      s.percentage.Fin? && 20.0 <= s.percentage.v <= 100.0
  {
    var items := Items(rs, RegeneratedItem);
    RegeneratedItemsGraded(rs);
    TotalsGraded(items);
    GradedPercent(TotalPoints(items), TotalMax(items));
  }

  /** Any other type is regenerated as an average 3 of 5: 60 percent, or NaN with no responses. */
  lemma RegenerateOtherTypes(kind: string, rs: seq<Response>)
    requires WeightsNonNegative(rs)
    requires kind != "APTITUDE"
    ensures var s := Regenerate(kind, rs);
      s.overallScore == Fin(3.0 * |rs| as real) && s.categoryScores == [] &&
      (|rs| > 0 ==> s.percentage == Fin(60.0)) && (|rs| == 0 ==> s.percentage.NaN?)
  {
    var n := |rs| as real;
    if n > 0.0 {
      assert 0.6 * (5.0 * n) == 3.0 * n;
      assert (3.0 * n) / (5.0 * n) == 0.6;
    }
  }

  // ----- INTEREST -----

  /** Sum of the question weights of some responses. */
  function WeightSum(rs: seq<Response>): real
  {
    if |rs| == 0 then 0.0 else WeightSum(rs[..|rs| - 1]) + rs[|rs| - 1].question.weight
  }

  /** The weight an answer collects over all responses that chose it. */
  function AnswerWeight(rs: seq<Response>, a: string): real
  {
    WeightSum(Members(rs, AnswerOf, a))
  }

  lemma {:induction false} InterestPoints(rs: seq<Response>)
    ensures TotalPoints(Items(rs, InterestItem)) == Fin(WeightSum(rs))
    decreases |rs|
  {
    if |rs| > 0 {
      InterestPoints(rs[..|rs| - 1]);
      assert Items(rs, InterestItem)[..|rs| - 1] == Items(rs[..|rs| - 1], InterestItem);
    }
  }

  lemma InterestEntry(rs: seq<Response>, k: nat)
    requires k < |Tally(Items(rs, InterestItem))|
    ensures var t := Tally(Items(rs, InterestItem));
      |Groups(rs, AnswerOf)| == |t| &&
      t[k].0 == Groups(rs, AnswerOf)[k] && t[k].1.points == Fin(AnswerWeight(rs, t[k].0))
  {
    var t := Tally(Items(rs, InterestItem));
    EntryOfGroup(rs, InterestItem, AnswerOf, k);
    InterestPoints(Members(rs, AnswerOf, t[k].0));
  }

  /** Each ranked entry is an answer of the responses, scored with that answer's total weight. */
  lemma RankedEntry(rs: seq<Response>, i: nat)
    requires WeightsNonNegative(rs)
    requires i < |InterestRanking(rs)|
    ensures var r := InterestRanking(rs);
      r[i].0 in Groups(rs, AnswerOf) && r[i].1.points == Fin(AnswerWeight(rs, r[i].0))
  {
    var t := Tally(Items(rs, InterestItem));
    var r := InterestRanking(rs);
    assert r[i] in multiset(t);
    var k :| 0 <= k < |t| && t[k] == r[i];
    InterestEntry(rs, k);
  }

  /** Every answer given is ranked. */
  lemma RankedCovers(rs: seq<Response>, a: string)
    requires WeightsNonNegative(rs)
    requires a in Groups(rs, AnswerOf)
    ensures |InterestRanking(rs)| == |Groups(rs, AnswerOf)|
    ensures exists j :: 0 <= j < |InterestRanking(rs)| && InterestRanking(rs)[j].0 == a
  {
    var t := Tally(Items(rs, InterestItem));
    var g := Groups(rs, AnswerOf);
    TableKeys(rs, InterestItem, AnswerOf);
    var k :| 0 <= k < |g| && g[k] == a;
    assert t[k].0 == a;
    SortKeepsMembers(t, EntryPoints, t[k]);
    var r := InterestRanking(rs);
    assert r == SortDesc(t, EntryPoints);
    var j :| 0 <= j < |r| && r[j] == t[k];
  }

  lemma RankedCount(rs: seq<Response>)
    requires WeightsNonNegative(rs)
    ensures |InterestRanking(rs)| == |Groups(rs, AnswerOf)|
  {
    TableKeys(rs, InterestItem, AnswerOf);
  }

  /** The INTEREST records are the first three ranked entries, in rank order. */
  lemma InterestSheetShape(rs: seq<Response>)
    requires WeightsNonNegative(rs)
    ensures var cs := Interest(rs).categoryScores; var r := InterestRanking(rs);
      |cs| == Seqs.Min(3, |r|) &&
      forall i :: 0 <= i < |cs| ==> cs[i].0 == r[i].0 && cs[i].1.Share? && cs[i].1.score == r[i].1.points
  {
  }

  /**
   * INTEREST keeps the three answers with the most weight (all of them when
   * fewer were given), heaviest first, each scored with the total weight of the
   * responses choosing it; no answer left out outweighs one kept.
   */
  lemma InterestTop(rs: seq<Response>)
    requires WeightsNonNegative(rs)
    ensures var cs := Interest(rs).categoryScores; var g := Groups(rs, AnswerOf);
      |cs| == Seqs.Min(3, |g|) &&
      (forall i :: 0 <= i < |cs| ==>
        cs[i].0 in g && cs[i].1.Share? && cs[i].1.score == Fin(AnswerWeight(rs, cs[i].0))) &&
      (forall i, j :: 0 <= i < j < |cs| ==> AnswerWeight(rs, cs[j].0) <= AnswerWeight(rs, cs[i].0)) &&
      (forall i, a :: 0 <= i < |cs| && a in g && a !in Names(cs) ==>
        AnswerWeight(rs, a) <= AnswerWeight(rs, cs[i].0))
  {
    var r := InterestRanking(rs);
    var cs := Interest(rs).categoryScores;
    var n := |cs|;
    RankedCount(rs);
    InterestSheetShape(rs);
    assert SortedDesc(r, EntryPoints);
    forall i | 0 <= i < |cs|
      ensures cs[i].0 in Groups(rs, AnswerOf) && cs[i].1.Share? && cs[i].1.score == Fin(AnswerWeight(rs, cs[i].0))
    {
      RankedEntry(rs, i);
    }
    forall i, j | 0 <= i < j < |cs|
      ensures AnswerWeight(rs, cs[j].0) <= AnswerWeight(rs, cs[i].0)
    {
      RankedEntry(rs, i);
      RankedEntry(rs, j);
      assert EntryPoints(r[i]) >= EntryPoints(r[j]);
    }
    forall i, a | 0 <= i < |cs| && a in Groups(rs, AnswerOf) && a !in Names(cs)
      ensures AnswerWeight(rs, a) <= AnswerWeight(rs, cs[i].0)
    {
      RankedCovers(rs, a);
      var j :| 0 <= j < |r| && r[j].0 == a;
      assert j >= n;
      RankedEntry(rs, i);
      RankedEntry(rs, j);
      assert EntryPoints(r[i]) >= EntryPoints(r[j]);
    }
  }

  /** The table of INTEREST sums to the total weight. */
  lemma InterestTotal(rs: seq<Response>)
    ensures SumPoints(Tally(Items(rs, InterestItem))) == Fin(WeightSum(rs))
  {
    InterestPoints(rs);
    SumOfEntries(Items(rs, InterestItem));
  }

  lemma ShareIsPercent(rs: seq<Response>, i: nat)
    requires WeightsNonNegative(rs)
    requires i < |Interest(rs).categoryScores|
    ensures var c := Interest(rs).categoryScores[i].1; var r := InterestRanking(rs);
      c.Share? && i < |r| && r[i].1.points.Fin? && 0.0 <= r[i].1.points.v <= WeightSum(rs) &&
      c.percentage == Percent(r[i].1.points, WeightSum(rs))
  {
    InterestTotal(rs);
  }

  /** A kept answer's share of the total weight. */
  lemma InterestShare(rs: seq<Response>, i: nat)
    requires WeightsNonNegative(rs)
    requires i < |Interest(rs).categoryScores|
    ensures var c := Interest(rs).categoryScores[i].1;
      c.Share? &&
      (WeightSum(rs) > 0.0 ==> c.percentage.Fin? && 0.0 <= c.percentage.v <= 100.0) &&
      (WeightSum(rs) == 0.0 ==> c.percentage.NaN?)
  {
    ShareIsPercent(rs, i);
    if WeightSum(rs) > 0.0 {
      PercentCapped(Interest(rs).categoryScores[i].1.percentage, InterestRanking(rs)[i].1.points, WeightSum(rs));
    }
  }

  /** A part of a positive whole is 0 to 100 percent of it. */
  lemma PercentCapped(x: Num, p: Num, w: real)
    requires p.Fin? && 0.0 <= p.v <= w && w > 0.0
    requires x == Percent(p, w)
    ensures x.Fin? && 0.0 <= x.v <= 100.0
  {
    PercentWithin(p, w, 0.0, 100.0);
  }

  /** The INTEREST overall score is the sum of all weights. */
  lemma InterestOverall(rs: seq<Response>)
    requires WeightsNonNegative(rs)
    ensures Interest(rs).overallScore == Fin(WeightSum(rs))
  {
    InterestTotal(rs);
  }

  /** The INTEREST percentage is the total weight against the assumed maximum of 1.2 per response. */
  lemma InterestPercent(rs: seq<Response>)
    requires WeightsNonNegative(rs)
    ensures var p := Interest(rs).percentage; var m := TotalMax(Items(rs, InterestItem));
      (p.Fin? <==> m > 0.0) && (p.Fin? ==> p.v == WeightSum(rs) / m * 100.0)
  {
    InterestTotal(rs);
  }

  /** With every weight at most 1.2, the assumed maximum, the INTEREST percentage is at most 100. */
  lemma InterestPercentCapped(rs: seq<Response>)
    requires |rs| > 0
    requires forall i :: 0 <= i < |rs| ==> 0.0 <= rs[i].question.weight <= 1.2
    ensures Interest(rs).percentage.Fin? && 0.0 <= Interest(rs).percentage.v <= 100.0
  {
    InterestWithinMax(rs);
    InterestPercent(rs);
    RatioCapped(Interest(rs).percentage, WeightSum(rs), TotalMax(Items(rs, InterestItem)));
  }

  /** Weights of at most 1.2 sum to at most the INTEREST maximum, which is positive once there is a response. */
  lemma {:induction false} InterestWithinMax(rs: seq<Response>)
    requires forall i :: 0 <= i < |rs| ==> 0.0 <= rs[i].question.weight <= 1.2
    ensures 0.0 <= WeightSum(rs) <= TotalMax(Items(rs, InterestItem))
    ensures |rs| > 0 ==> TotalMax(Items(rs, InterestItem)) > 0.0
    decreases |rs|
  {
    if |rs| > 0 {
      var front := rs[..|rs| - 1];
      InterestWithinMax(front);
      var items := Items(rs, InterestItem);
      assert items[..|items| - 1] == Items(front, InterestItem);
      assert TotalMax(items) == TotalMax(Items(front, InterestItem)) + 1.2;
    }
  }

  /** A percentage of a part of a positive whole is between 0 and 100. */
  lemma RatioCapped(p: Num, w: real, m: real)
    requires m > 0.0 && 0.0 <= w <= m
    requires p.Fin? <==> m > 0.0
    requires p.Fin? ==> p.v == w / m * 100.0
    ensures p.Fin? && 0.0 <= p.v <= 100.0
  {
    PercentBetween(w, m, 0.0, 100.0);
  }

  /**
   * Each kept INTEREST answer's share of the total weight is between 0 and 100
   * percent, and NaN when every weight is 0.
   */
  lemma InterestShares(rs: seq<Response>)
    requires WeightsNonNegative(rs)
    ensures var cs := Interest(rs).categoryScores;
      forall i :: 0 <= i < |cs| ==>
        cs[i].1.Share? &&
        (WeightSum(rs) > 0.0 ==> cs[i].1.percentage.Fin? && 0.0 <= cs[i].1.percentage.v <= 100.0) &&
        (WeightSum(rs) == 0.0 ==> cs[i].1.percentage.NaN?)
  {
    forall i | 0 <= i < |Interest(rs).categoryScores| {
      InterestShare(rs, i);
    }
  }

  // ----- PERSONALITY -----

  /**
   * PERSONALITY lists one record per trait in first-seen order; each holds the
   * summed option positions times weights of exactly the responses of its trait,
   * and its dominant response is the FIRST answer given for the trait; the trait
   * scores add up to the overall score.
   */
  lemma PersonalityByCategory(rs: seq<Response>)
    requires WeightsNonNegative(rs)
    ensures var cs := Personality(rs).categoryScores;
      Names(cs) == Groups(rs, CategoryOf) &&
      (forall i :: 0 <= i < |cs| ==>
        var m := Members(rs, CategoryOf, cs[i].0);
        |m| > 0 && cs[i].1.Trait? && cs[i].1.score == TotalPoints(Items(m, PersonalityItem)) &&
        Divisible(cs[i].1.score, TotalMax(Items(m, PersonalityItem))) &&
        cs[i].1.percentage == Percent(cs[i].1.score, TotalMax(Items(m, PersonalityItem))) &&
        cs[i].1.dominantResponse == m[0].answer) &&
      SumScores(cs) == Personality(rs).overallScore
    ensures var items := Items(rs, PersonalityItem);
      Personality(rs).overallScore == TotalPoints(items) && Divisible(TotalPoints(items), TotalMax(items)) &&
      Personality(rs).percentage == Percent(TotalPoints(items), TotalMax(items))
  {
    var cs := Personality(rs).categoryScores;
    PersonalityNames(rs);
    forall i | 0 <= i < |cs| {
      PersonalityEntry(rs, i);
    }
    PersonalityTotal(rs);
    PersonalityOverall(rs);
  }

  lemma PersonalityNames(rs: seq<Response>)
    requires WeightsNonNegative(rs)
    ensures Names(Personality(rs).categoryScores) == Groups(rs, CategoryOf)
  {
    TableKeys(rs, PersonalityItem, CategoryOf);
    assert Names(Personality(rs).categoryScores) == Keys(Tally(Items(rs, PersonalityItem)));
  }

  lemma PersonalityEntry(rs: seq<Response>, i: nat)
    requires WeightsNonNegative(rs)
    requires i < |Personality(rs).categoryScores|
    ensures var c := Personality(rs).categoryScores[i];
      var m := Members(rs, CategoryOf, c.0);
      |m| > 0 && c.1.Trait? && c.1.score == TotalPoints(Items(m, PersonalityItem)) &&
      Divisible(c.1.score, TotalMax(Items(m, PersonalityItem))) &&
      c.1.percentage == Percent(c.1.score, TotalMax(Items(m, PersonalityItem))) &&
      c.1.dominantResponse == m[0].answer
  {
    EntryOfGroup(rs, PersonalityItem, CategoryOf, i);
    PersonalityRecord(rs, i);
  }

  /** Record `i` of PERSONALITY is built from entry `i` of its table. */
  lemma PersonalityRecord(rs: seq<Response>, i: nat)
    requires WeightsNonNegative(rs)
    requires i < |Personality(rs).categoryScores|
    ensures var t := Tally(Items(rs, PersonalityItem)); var c := Personality(rs).categoryScores[i];
      i < |t| && c.0 == t[i].0 && Divisible(t[i].1.points, t[i].1.max) &&
      c.1 == Trait(t[i].1.points, Percent(t[i].1.points, t[i].1.max), t[i].1.first.answer)
  {
    PersonalityItemsDivisible(rs);
    EntriesDivisible(Items(rs, PersonalityItem));
  }

  lemma PersonalityOverall(rs: seq<Response>)
    requires WeightsNonNegative(rs)
    ensures var items := Items(rs, PersonalityItem);
      Personality(rs).overallScore == TotalPoints(items) && Divisible(TotalPoints(items), TotalMax(items)) &&
      Personality(rs).percentage == Percent(TotalPoints(items), TotalMax(items))
  {
    TotalsDivisible(Items(rs, PersonalityItem));
  }

  lemma PersonalityTotal(rs: seq<Response>)
    requires WeightsNonNegative(rs)
    ensures SumScores(Personality(rs).categoryScores) == Personality(rs).overallScore
  {
    var items := Items(rs, PersonalityItem);
    SumScoresMatch(Personality(rs).categoryScores, Tally(items));
    SumOfEntries(items);
  }

  /** Every answer is one of at most five options of its question. */
  predicate AmongFiveOptions(rs: seq<Response>)
  {
    forall i :: 0 <= i < |rs| ==> rs[i].answer in rs[i].question.options && |rs[i].question.options| <= 5
  }

  lemma PersonalityItemsGraded(rs: seq<Response>)
    requires AmongFiveOptions(rs) && WeightsPositive(rs)
    ensures forall j :: 0 <= j < |rs| ==> WithinScale(Items(rs, PersonalityItem)[j].points, Items(rs, PersonalityItem)[j].max)
  {
    forall j | 0 <= j < |rs|
      ensures WithinScale(Items(rs, PersonalityItem)[j].points, Items(rs, PersonalityItem)[j].max)
    {
      OrdinalGraded(OptionIndex(rs[j].question.options, rs[j].answer) + 1, rs[j].question.weight);
    }
  }

  /** With answers among at most five options and positive weights, every PERSONALITY percentage is 20 to 100. */
  lemma PersonalityRange(rs: seq<Response>)
    requires |rs| > 0 && AmongFiveOptions(rs) && WeightsPositive(rs)
    ensures var s := Personality(rs);
      s.percentage.Fin? && 20.0 <= s.percentage.v <= 100.0 &&
      forall i :: 0 <= i < |s.categoryScores| ==>
        s.categoryScores[i].1.percentage.Fin? &&
        20.0 <= s.categoryScores[i].1.percentage.v <= 100.0
  {
    var items := Items(rs, PersonalityItem);
    var t := Tally(items);
    PersonalityItemsGraded(rs);
    TotalsGraded(items);
    GradedPercent(TotalPoints(items), TotalMax(items));
    EntriesGraded(items);
    forall i | 0 <= i < |t| {
      GradedPercent(t[i].1.points, t[i].1.max);
    }
  }

  /** An answer that is not one of its question's options scores nothing. */
  lemma PersonalityUnlistedAnswer(r: Response)
    requires r.answer !in r.question.options
    ensures PersonalityItem(r).points == Fin(0.0)
  {
  }

  // ----- SKILL -----

  /**
   * SKILL lists one record per skill in first-seen order; each holds the summed
   * experience ordinals of exactly the responses of its skill, their average, that
   * average as a percentage of 5 and the level band of that average; the skill
   * scores add up to the overall score.
   */
  lemma SkillByCategory(rs: seq<Response>)
    ensures var cs := Skill(rs).categoryScores;
      Names(cs) == Groups(rs, CategoryOf) &&
      (forall i :: 0 <= i < |cs| ==>
        var m := Members(rs, CategoryOf, cs[i].0);
        |m| > 0 && cs[i].1.Mastery? && cs[i].1.score == TotalPoints(Items(m, SkillItem)) &&
        cs[i].1.averageScore == DivBy(cs[i].1.score, |m| as real) &&
        cs[i].1.percentage == Percent(cs[i].1.averageScore, 5.0) && cs[i].1.level == Level(cs[i].1.averageScore)) &&
      SumScores(cs) == Skill(rs).overallScore
  {
    var cs := Skill(rs).categoryScores;
    SkillNames(rs);
    forall i | 0 <= i < |cs| {
      SkillEntry(rs, i);
    }
    SkillTotal(rs);
  }

  lemma SkillNames(rs: seq<Response>)
    ensures Names(Skill(rs).categoryScores) == Groups(rs, CategoryOf)
  {
    TableKeys(rs, SkillItem, CategoryOf);
    assert Names(Skill(rs).categoryScores) == Keys(Tally(Items(rs, SkillItem)));
  }

  lemma SkillEntry(rs: seq<Response>, i: nat)
    requires i < |Skill(rs).categoryScores|
    ensures var c := Skill(rs).categoryScores[i];
      var m := Members(rs, CategoryOf, c.0);
      |m| > 0 && c.1.Mastery? && c.1.score == TotalPoints(Items(m, SkillItem)) &&
      c.1.averageScore == DivBy(c.1.score, |m| as real) &&
      c.1.percentage == Percent(c.1.averageScore, 5.0) && c.1.level == Level(c.1.averageScore)
  {
    EntryOfGroup(rs, SkillItem, CategoryOf, i);
  }

  lemma SkillTotal(rs: seq<Response>)
    ensures SumScores(Skill(rs).categoryScores) == Skill(rs).overallScore
  {
    var items := Items(rs, SkillItem);
    SumScoresMatch(Skill(rs).categoryScores, Tally(items));
    SumOfEntries(items);
  }

  /** SKILL does not look at question weights. */
  lemma SkillIgnoresWeights(rs: seq<Response>, rs': seq<Response>)
    requires |rs| == |rs'|
    requires forall i :: 0 <= i < |rs| ==>
      rs[i].answer == rs'[i].answer && rs[i].question.category == rs'[i].question.category
    ensures Skill(rs) == Skill(rs')
  {
    assert Items(rs, SkillItem) == Items(rs', SkillItem);
  }

  lemma SkillItemsGraded(rs: seq<Response>)
    requires OnExperienceScale(rs)
    ensures forall j :: 0 <= j < |rs| ==>
      WithinScale(Items(rs, SkillItem)[j].points, Items(rs, SkillItem)[j].max) && Items(rs, SkillItem)[j].max == 5.0
  {
    forall j | 0 <= j < |rs|
      ensures WithinScale(Items(rs, SkillItem)[j].points, Items(rs, SkillItem)[j].max)
    {
      OrdinalGraded(ExperienceScale(rs[j].answer).value, 1.0);
    }
  }

  /** On the experience scale the overall SKILL percentage is 20 to 100. */
  lemma SkillRange(rs: seq<Response>)
    requires |rs| > 0 && OnExperienceScale(rs)
    ensures Skill(rs).percentage.Fin? && 20.0 <= Skill(rs).percentage.v <= 100.0
  {
    var items := Items(rs, SkillItem);
    SkillItemsGraded(rs);
    TotalsGraded(items);
    GradedPercent(TotalPoints(items), TotalMax(items));
  }

  /**
   * The level bands split the averages at 4, 3 and 2: each band holds exactly the
   * averages from its threshold up to the next one, and an average that is not a
   * number is "No experience".
   */
  lemma LevelBands(a: Num)
    ensures Level(a) == Advanced <==> a.Fin? && a.v >= 4.0
    ensures Level(a) == Intermediate <==> a.Fin? && 3.0 <= a.v < 4.0
    ensures Level(a) == Beginner <==> a.Fin? && 2.0 <= a.v < 3.0
    ensures Level(a) == NoExperience <==> a.NaN? || a.v < 2.0
    ensures a.NaN? ==> Level(a) == NoExperience
  {
  }

  /** The position of a level, from "No experience" (0) to "Advanced" (3). */
  function LevelRank(l: SkillLevel): nat
  {
    match l
    case NoExperience => 0
    case Beginner => 1
    case Intermediate => 2
    case Advanced => 3
  }

  /** A higher finite average never gets a lower level. */
  lemma LevelMonotone(a: Num, b: Num)
    requires a.Fin? && b.Fin? && a.v <= b.v
    ensures LevelRank(Level(a)) <= LevelRank(Level(b))
  {
  }

  /** On the experience scale each skill's average is 1 to 5 and its percentage 20 to 100. */
  lemma SkillCategoryRange(rs: seq<Response>, i: nat)
    requires OnExperienceScale(rs)
    requires i < |Skill(rs).categoryScores|
    ensures var c := Skill(rs).categoryScores[i].1;
      c.Mastery? && c.averageScore.Fin? && 1.0 <= c.averageScore.v <= 5.0 &&
      c.percentage.Fin? && 20.0 <= c.percentage.v <= 100.0
  {
    var t := Tally(Items(rs, SkillItem));
    SkillEntryGraded(rs, i);
    AverageInRange(Skill(rs).categoryScores[i].1, t[i].1.points, t[i].1.count);
  }

  /** On the experience scale a skill's summed score is graded against five per response. */
  lemma SkillEntryGraded(rs: seq<Response>, i: nat)
    requires OnExperienceScale(rs)
    requires i < |Tally(Items(rs, SkillItem))|
    ensures var a := Tally(Items(rs, SkillItem))[i].1;
      a.count > 0 && WithinScale(a.points, 5.0 * a.count as real)
  {
    var items := Items(rs, SkillItem);
    var t := Tally(items);
    SkillItemsGraded(rs);
    EntriesGraded(items);
    TallyEntry(items, i);
    MatchingMax(items, t[i].0, 5.0);
    TotalMaxUniform(Matching(items, t[i].0), 5.0);
  }

  /** Items that all have the same maximum keep it when selected by key. */
  lemma MatchingMax(items: seq<Item>, k: string, c: real)
    requires forall j :: 0 <= j < |items| ==> items[j].max == c
    ensures forall j :: 0 <= j < |Matching(items, k)| ==> Matching(items, k)[j].max == c
  {
    forall j | 0 <= j < |Matching(items, k)|
      ensures Matching(items, k)[j].max == c
    {
      MatchingInherits(items, k, j);
    }
  }

  /** A graded sum over `n` items of maximum 5 averages 1 to 5, which is 20 to 100 percent of 5. */
  lemma AverageInRange(c: CategoryScore, points: Num, n: nat)
    requires n > 0 && WithinScale(points, 5.0 * n as real)
    requires c.Mastery? && c.averageScore == DivBy(points, n as real) && c.percentage == Percent(c.averageScore, 5.0)
    ensures c.averageScore.Fin? && 1.0 <= c.averageScore.v <= 5.0
    ensures c.percentage.Fin? && 20.0 <= c.percentage.v <= 100.0
  {
    PercentBetween(points.v, n as real, 100.0, 500.0);
    PercentWithin(c.averageScore, 5.0, 20.0, 100.0);
  }

  // ----- CAREER_VALUES -----

  /**
   * CAREER_VALUES lists one record per value in first-seen order, and each record
   * is that of the LAST response of its value: a later response overwrites an
   * earlier one but keeps the value's original position. The record's percentage
   * is its score over 5.
   */
  lemma CareerValuesLastWins(rs: seq<Response>)
    ensures var cs := CareerValues(rs).categoryScores;
      Names(cs) == Groups(rs, CategoryOf) &&
      forall i :: 0 <= i < |cs| ==>
        var m := Members(rs, CategoryOf, cs[i].0);
        |m| > 0 && cs[i].1.Value? && cs[i].1.importance == m[|m| - 1].answer &&
        cs[i].1.score == Ordinal(ImportanceScale(m[|m| - 1].answer)) &&
        cs[i].1.percentage == Percent(cs[i].1.score, 5.0)
  {
    var cs := CareerValues(rs).categoryScores;
    CareerValuesNames(rs);
    forall i | 0 <= i < |cs| {
      CareerValuesEntry(rs, i);
    }
  }

  lemma CareerValuesNames(rs: seq<Response>)
    ensures Names(CareerValues(rs).categoryScores) == Groups(rs, CategoryOf)
  {
    TableKeys(rs, ValueItem, CategoryOf);
    assert Names(CareerValues(rs).categoryScores) == Keys(Tally(Items(rs, ValueItem)));
  }

  lemma CareerValuesEntry(rs: seq<Response>, i: nat)
    requires i < |CareerValues(rs).categoryScores|
    ensures var c := CareerValues(rs).categoryScores[i];
      var m := Members(rs, CategoryOf, c.0);
      |m| > 0 && c.1.Value? && c.1.importance == m[|m| - 1].answer &&
      c.1.score == Ordinal(ImportanceScale(m[|m| - 1].answer)) &&
      c.1.percentage == Percent(c.1.score, 5.0)
  {
    EntryOfGroup(rs, ValueItem, CategoryOf, i);
  }

  /**
   * The CAREER_VALUES overall score sums EVERY response, earlier ones of a value
   * included, and the overall percentage is that sum over the summed maxima.
   */
  lemma CareerValuesOverall(rs: seq<Response>)
    ensures var items := Items(rs, ValueItem);
      CareerValues(rs).overallScore == TotalPoints(items) && Divisible(TotalPoints(items), TotalMax(items)) &&
      CareerValues(rs).percentage == Percent(TotalPoints(items), TotalMax(items))
  {
    TotalsDivisible(Items(rs, ValueItem));
  }

  /**
   * Two answers for one value: the record keeps the later "Not Important" (1 of 5),
   * while the overall score still counts both, 6 of 10, so the category scores no
   * longer add up to the overall score.
   */
  lemma CareerValuesOverwriteExample()
    ensures var q := Question("q", [], "Work-Life Balance", 1.0);
      var s := CareerValues([Response(q, "Extremely Important"), Response(q, "Not Important")]);
      s.overallScore == Fin(6.0) && s.percentage == Fin(60.0) &&
      s.categoryScores == [("Work-Life Balance", Value(Fin(1.0), Fin(20.0), "Not Important"))] &&
      SumScores(s.categoryScores) != s.overallScore
  {
    var q := Question("q", [], "Work-Life Balance", 1.0);
    var rs := [Response(q, "Extremely Important"), Response(q, "Not Important")];
    var items := Items(rs, ValueItem);
    var a := Item("Work-Life Balance", Fin(5.0), 5.0, "Extremely Important");
    var b := Item("Work-Life Balance", Fin(1.0), 5.0, "Not Important");
    assert items == [a, b];
    assert items[..1] == [a];
    assert [a][..0] == [];
    var t1 := [("Work-Life Balance", Acc(Fin(5.0), 5.0, 1, a, a))];
    assert Tally([a]) == t1;
    assert IndexOf(t1, "Work-Life Balance") == 0;
    assert Tally(items) == [("Work-Life Balance", Acc(Fin(6.0), 10.0, 2, a, b))];
    assert TotalPoints([a]) == Fin(5.0) && TotalMax([a]) == 5.0;
    assert TotalPoints(items) == Fin(6.0);
    assert TotalMax(items) == 10.0;
    assert Percent(Fin(6.0), 10.0) == Fin(60.0);
    assert Percent(Fin(1.0), 5.0) == Fin(20.0);
    var cs := CareerValues(rs).categoryScores;
    assert cs[..0] == [];
    assert SumScores(cs) == Fin(1.0);
  }

  /** On the importance scale every CAREER_VALUES percentage is 20 to 100. */
  lemma CareerValuesRange(rs: seq<Response>)
    requires |rs| > 0 && OnImportanceScale(rs)
    ensures var s := CareerValues(rs);
      s.percentage.Fin? && 20.0 <= s.percentage.v <= 100.0 &&
      forall i :: 0 <= i < |s.categoryScores| ==>
        s.categoryScores[i].1.percentage.Fin? && 20.0 <= s.categoryScores[i].1.percentage.v <= 100.0
  {
    var items := Items(rs, ValueItem);
    var cs := CareerValues(rs).categoryScores;
    forall j | 0 <= j < |rs|
      ensures WithinScale(items[j].points, items[j].max)
    {
      OrdinalGraded(ImportanceScale(rs[j].answer).value, 1.0);
    }
    TotalsGraded(items);
    GradedPercent(TotalPoints(items), TotalMax(items));
    forall i | 0 <= i < |cs|
      ensures cs[i].1.percentage.Fin? && 20.0 <= cs[i].1.percentage.v <= 100.0
    {
      CareerValuesEntry(rs, i);
      var m := Members(rs, CategoryOf, cs[i].0);
      var last := m[|m| - 1];
      MembersFrom(rs, CategoryOf, cs[i].0, |m| - 1);
      OrdinalGraded(ImportanceScale(last.answer).value, 1.0);
      GradedPercent(cs[i].1.score, 5.0);
    }
  }

  /** Every member of a group is one of the responses. */
  lemma {:induction false} MembersFrom(rs: seq<Response>, key: Response -> string, k: string, j: nat)
    requires j < |Members(rs, key, k)|
    ensures exists i :: 0 <= i < |rs| && rs[i] == Members(rs, key, k)[j]
    decreases |rs|
  {
    var pre := rs[..|rs| - 1];
    var m := Members(pre, key, k);
    if j < |m| {
      MembersFrom(pre, key, k, j);
      var i :| 0 <= i < |pre| && pre[i] == m[j];
      assert rs[i] == pre[i];
    } else {
      assert Members(rs, key, k)[j] == rs[|rs| - 1];
    }
  }

  /** CAREER_VALUES does not look at question weights. */
  lemma CareerValuesIgnoresWeights(rs: seq<Response>, rs': seq<Response>)
    requires |rs| == |rs'|
    requires forall i :: 0 <= i < |rs| ==>
      rs[i].answer == rs'[i].answer && rs[i].question.category == rs'[i].question.category
    ensures CareerValues(rs) == CareerValues(rs')
  {
    assert Items(rs, ValueItem) == Items(rs', ValueItem);
  }

  // ----- LEARNING_STYLE -----

  /** How many responses chose answer `a`. */
  function Votes(rs: seq<Response>, a: string): nat
  {
    |Members(rs, AnswerOf, a)|
  }

  /**
   * LEARNING_STYLE fails exactly on an empty response list; otherwise it counts
   * the votes of every distinct answer in first-seen order, the counts add up
   * to the number of responses, and the sheet reports that number at 100 percent.
   */
  lemma LearningStyleCounts(rs: seq<Response>)
    ensures LearningStyle(rs).Ok? <==> |rs| > 0
    ensures LearningStyle(rs).Ok? ==>
      var s := LearningStyle(rs).value;
      Names(s.categoryScores) == Groups(rs, AnswerOf) &&
      (forall i :: 0 <= i < |s.categoryScores| ==>
        s.categoryScores[i].1 == Frequency(Votes(rs, s.categoryScores[i].0))) &&
      SumScores(s.categoryScores) == s.overallScore &&
      s.overallScore == Fin(|rs| as real) && s.percentage == Fin(100.0)
  {
    StyleTable(rs);
    if |rs| > 0 {
      var cs := LearningStyle(rs).value.categoryScores;
      StyleNames(rs);
      forall i | 0 <= i < |cs| {
        StyleEntry(rs, i);
      }
      StyleTotal(rs);
    }
  }

  /** The style table is empty exactly when there are no responses. */
  lemma StyleTable(rs: seq<Response>)
    ensures |Tally(Items(rs, StyleItem))| == |Groups(rs, AnswerOf)|
    ensures |Groups(rs, AnswerOf)| > 0 <==> |rs| > 0
  {
    TableKeys(rs, StyleItem, AnswerOf);
  }

  lemma StyleNames(rs: seq<Response>)
    requires |rs| > 0
    ensures LearningStyle(rs).Ok?
    ensures Names(LearningStyle(rs).value.categoryScores) == Groups(rs, AnswerOf)
  {
    StyleOk(rs);
    StyleKeys(rs);
    TableKeys(rs, StyleItem, AnswerOf);
  }

  lemma StyleOk(rs: seq<Response>)
    requires |rs| > 0
    ensures LearningStyle(rs).Ok?
  {
    StyleTable(rs);
  }

  lemma StyleKeys(rs: seq<Response>)
    requires LearningStyle(rs).Ok?
    ensures Names(LearningStyle(rs).value.categoryScores) == Keys(Tally(Items(rs, StyleItem)))
  {
  }

  lemma StyleEntry(rs: seq<Response>, i: nat)
    requires LearningStyle(rs).Ok? && i < |LearningStyle(rs).value.categoryScores|
    ensures var c := LearningStyle(rs).value.categoryScores[i];
      c.1 == Frequency(Votes(rs, c.0))
    ensures ScoreOf(LearningStyle(rs).value.categoryScores[i].1) == Tally(Items(rs, StyleItem))[i].1.points
  {
    var t := Tally(Items(rs, StyleItem));
    EntryOfGroup(rs, StyleItem, AnswerOf, i);
    TotalPointsUnit(Items(Members(rs, AnswerOf, t[i].0), StyleItem));
  }

  lemma StyleTotal(rs: seq<Response>)
    requires LearningStyle(rs).Ok?
    ensures SumScores(LearningStyle(rs).value.categoryScores) == Fin(|rs| as real)
  {
    var items := Items(rs, StyleItem);
    var cs := LearningStyle(rs).value.categoryScores;
    forall i | 0 <= i < |cs|
      ensures ScoreOf(cs[i].1) == Tally(items)[i].1.points
    {
      StyleEntry(rs, i);
    }
    SumScoresMatch(cs, Tally(items));
    SumOfEntries(items);
    TotalPointsUnit(items);
  }

  /**
   * The dominant style is an answer with the most votes, and among answers with
   * that many votes the one given first.
   */
  lemma LearningStyleDominant(rs: seq<Response>)
    requires |rs| > 0
    ensures LearningStyle(rs).Ok?
    ensures var s := LearningStyle(rs).value; var g := Groups(rs, AnswerOf);
      s.dominantStyle.Some? &&
      exists i :: 0 <= i < |g| && g[i] == s.dominantStyle.value &&
        (forall j :: 0 <= j < |g| ==> Votes(rs, g[j]) <= Votes(rs, g[i])) &&
        (forall j :: 0 <= j < i ==> Votes(rs, g[j]) < Votes(rs, g[i]))
  {
    var i := StyleHead(rs);
    StyleVotes(rs);
    var t := Tally(Items(rs, StyleItem));
    var g := Groups(rs, AnswerOf);
    forall j | 0 <= j < |g|
      ensures Votes(rs, g[j]) <= Votes(rs, g[i])
    {
      assert EntryCount(t[j]) <= EntryCount(t[i]);
    }
    forall j | 0 <= j < i
      ensures Votes(rs, g[j]) < Votes(rs, g[i])
    {
      assert EntryCount(t[j]) < EntryCount(t[i]);
    }
  }

  /** The dominant style is the answer of the first entry with the highest count. */
  lemma StyleHead(rs: seq<Response>) returns (i: nat)
    requires |rs| > 0
    ensures var t := Tally(Items(rs, StyleItem));
      LearningStyle(rs).Ok? && i < |t| && LearningStyle(rs).value.dominantStyle == Some(t[i].0) &&
      (forall j :: 0 <= j < |t| ==> EntryCount(t[j]) <= EntryCount(t[i])) &&
      (forall j :: 0 <= j < i ==> EntryCount(t[j]) < EntryCount(t[i]))
  {
    StyleDominantIs(rs);
    i := HeadIsFirstMaximal(Tally(Items(rs, StyleItem)), EntryCount);
  }

  /** The LEARNING_STYLE table lists the answers in first-seen order with their vote counts. */
  lemma StyleVotes(rs: seq<Response>)
    ensures var t := Tally(Items(rs, StyleItem)); var g := Groups(rs, AnswerOf);
      |t| == |g| && forall j :: 0 <= j < |t| ==> t[j].0 == g[j] && EntryCount(t[j]) == Votes(rs, g[j]) as real
  {
    var t := Tally(Items(rs, StyleItem));
    TableKeys(rs, StyleItem, AnswerOf);
    forall j | 0 <= j < |t|
      ensures t[j].0 == Groups(rs, AnswerOf)[j] && EntryCount(t[j]) == Votes(rs, Groups(rs, AnswerOf)[j]) as real
    {
      EntryOfGroup(rs, StyleItem, AnswerOf, j);
    }
  }

  lemma StyleDominantIs(rs: seq<Response>)
    requires |rs| > 0
    ensures LearningStyle(rs).Ok? && |Tally(Items(rs, StyleItem))| > 0 &&
      |Tally(Items(rs, StyleItem))| == |Groups(rs, AnswerOf)|
    ensures LearningStyle(rs).value.dominantStyle ==
      Some(SortDesc(Tally(Items(rs, StyleItem)), EntryCount)[0].0)
  {
    StyleTable(rs);
  }

  /** The empty list of LEARNING_STYLE responses is the one input on which scoring throws. */
  lemma ScoreFails(kind: string, rs: seq<Response>)
    requires WeightsNonNegative(rs)
    ensures Score(kind, rs).Err? <==> kind == "LEARNING_STYLE" && |rs| == 0
  {
    LearningStyleCounts(rs);
  }

  /** A type without a scorer gets one point per response at 100 percent and no categories. */
  lemma ScoreUnknownType(kind: string, rs: seq<Response>)
    requires WeightsNonNegative(rs)
    requires kind !in ["APTITUDE", "INTEREST", "PERSONALITY", "SKILL", "CAREER_VALUES", "LEARNING_STYLE"]
    ensures Score(kind, rs) == Ok(ScoreSheet(Fin(|rs| as real), Fin(100.0), [], None))
  {
  }
}
