/** Properties of the wellness score and of the generated insights. */
module WellnessProperties {
  import opened Wrappers
  import opened JsNumber
  import opened Wellness

  // ----- score -----

  /** A mean of values between `lo` and `hi` stays between them. */
  lemma MeanBetween(total: int, count: nat, lo: real, hi: real)
    requires count > 0
    requires lo * count as real <= total as real <= hi * count as real
    ensures lo <= total as real / count as real <= hi
  {
    var m := total as real / count as real;
    assert m * count as real == total as real;
  }

  /** Rounding to one decimal keeps a value between two whole numbers between them. */
  lemma Round1Between(x: real, lo: int, hi: int)
    requires lo as real <= x <= hi as real
    ensures lo as real <= Round1(x) <= hi as real
  {
    RoundMonotone(lo as real * 10.0, x * 10.0);
    RoundMonotone(x * 10.0, hi as real * 10.0);
    assert Round(lo as real * 10.0) == lo * 10;
    assert Round(hi as real * 10.0) == hi * 10;
  }

  /** With every metric on its 1..10 scale the score lies between 1 and 10. */
  lemma ScoreRange(c: Checkin)
    requires Valid(c)
    ensures 1.0 <= WellnessScore(c) <= 10.0
  {
    var t := ScoreTerms(c);
    MeanBetween(t.0, t.1, 1.0, 10.0);
    Round1Between(t.0 as real / t.1 as real, 1, 10);
  }

  /** A higher mean never gives a lower rounded score. */
  lemma MeanMonotone(a: int, b: int, count: nat)
    requires count > 0 && a <= b
    ensures Round1(a as real / count as real) <= Round1(b as real / count as real)
  {
    var x := a as real / count as real;
    var y := b as real / count as real;
    assert x * count as real == a as real;
    assert y * count as real == b as real;
    assert x <= y;
    RoundMonotone(x * 10.0, y * 10.0);
  }

  /** Raising the mood never lowers the score. */
  lemma ScoreMonotoneInMood(c: Checkin, mood: int)
    requires c.mood <= mood
    ensures WellnessScore(c) <= WellnessScore(c.(mood := mood))
  {
    var d := c.(mood := mood);
    assert ScoreTerms(d).1 == ScoreTerms(c).1;
    assert ScoreTerms(d).0 == ScoreTerms(c).0 + (mood - c.mood);
    MeanMonotone(ScoreTerms(c).0, ScoreTerms(d).0, ScoreTerms(c).1);
  }

  /** Raising the stress level never raises the score: stress counts inverted. */
  lemma ScoreAntitoneInStress(c: Checkin, stress: int)
    requires c.stress <= stress
    ensures WellnessScore(c.(stress := stress)) <= WellnessScore(c)
  {
    var d := c.(stress := stress);
    assert ScoreTerms(d).1 == ScoreTerms(c).1;
    assert ScoreTerms(c).0 == ScoreTerms(d).0 + (stress - c.stress);
    MeanMonotone(ScoreTerms(d).0, ScoreTerms(c).0, ScoreTerms(c).1);
  }

  /** Every optional metric that is given adds one to the count. */
  lemma ScoreCount(c: Checkin)
    ensures ScoreTerms(c).1 == 5 + (if Given(c.productivity) then 1 else 0)
      + (if Given(c.motivation) then 1 else 0) + (if Given(c.confidence) then 1 else 0)
      + (if Given(c.anxiety) then 1 else 0)
  {
  }

  /** Mood 8, stress 2, energy 7, sleep 9, focus 6 and nothing else: (8 + 9 + 7 + 9 + 6) / 5 = 7.8. */
  lemma ScoreExample()
    ensures WellnessScore(Checkin(8, 2, 7, 9, 6, None, None, None, None, None, None, None, 0)) == 7.8
  {
    var c := Checkin(8, 2, 7, 9, 6, None, None, None, None, None, None, None, 0);
    assert ScoreTerms(c) == (39, 5);
    assert 39.0 / 5.0 * 10.0 == 78.0;
    assert Round(78.0) == 78;
  }

  // ----- insights -----

  /** Insights are pushed at most once each, in the order trend, sleep, stress, achievement. */
  lemma InsightsOrdered(c: Checkin, h: seq<Checkin>)
    ensures var r := Insights(c, h);
      |r| <= 4 && forall i, j :: 0 <= i < j < |r| ==> Rank(r[i]) < Rank(r[j])
  {
    var g := MoodGain(h);
    var a := if g.Some? then [MoodImprovement(g.value)] else [];
    var b := if PoorSleep(c) then [SleepConcern] else [];
    var d := if Stressed(c) then [StressAndAnxiety] else [];
    var e := if Productive(c) then [ProductiveDay] else [];
    var r := Insights(c, h);
    assert r == a + b + d + e;
    forall i, j | 0 <= i < j < |r|
      ensures Rank(r[i]) < Rank(r[j])
    {
      assert r[i] in r && r[j] in r;
    }
  }

  /** Each insight is generated exactly when its rule holds; the trend carries the mood gain. */
  lemma InsightsExactly(c: Checkin, h: seq<Checkin>)
    ensures var r := Insights(c, h);
      ((exists i :: 0 <= i < |r| && r[i].MoodImprovement?) <==> MoodGain(h).Some?) &&
      (forall i :: 0 <= i < |r| && r[i].MoodImprovement? ==> Some(r[i].gain) == MoodGain(h)) &&
      (SleepConcern in r <==> PoorSleep(c)) &&
      (StressAndAnxiety in r <==> Stressed(c)) &&
      (ProductiveDay in r <==> Productive(c))
  {
    InsightsMood(c, h);
    InsightsRules(c, h);
  }

  /** The trend insight appears exactly when there is a mood gain, and carries it. */
  lemma InsightsMood(c: Checkin, h: seq<Checkin>)
    ensures var r := Insights(c, h);
      ((exists i :: 0 <= i < |r| && r[i].MoodImprovement?) <==> MoodGain(h).Some?) &&
      (forall i :: 0 <= i < |r| && r[i].MoodImprovement? ==> Some(r[i].gain) == MoodGain(h))
  {
    var g := MoodGain(h);
    var a := if g.Some? then [MoodImprovement(g.value)] else [];
    var rest := (if PoorSleep(c) then [SleepConcern] else []) +
      (if Stressed(c) then [StressAndAnxiety] else []) +
      (if Productive(c) then [ProductiveDay] else []);
    var r := Insights(c, h);
    assert r == a + rest;
    assert forall x: Insight :: x in rest ==> !x.MoodImprovement?;
    if g.Some? {
      assert r[0].MoodImprovement?;
    }
    forall i | 0 <= i < |r| && r[i].MoodImprovement?
      ensures g.Some? && Some(r[i].gain) == g
    {
      assert r[i] in r;
    }
  }

  /** The sleep, stress and productivity insights appear exactly when their rules hold. */
  lemma InsightsRules(c: Checkin, h: seq<Checkin>)
    ensures var r := Insights(c, h);
      (SleepConcern in r <==> PoorSleep(c)) &&
      (StressAndAnxiety in r <==> Stressed(c)) &&
      (ProductiveDay in r <==> Productive(c))
  {
  }

  /** A reported mood gain always exceeds one point. */
  lemma GainAboveOne(h: seq<Checkin>)
    requires MoodGain(h).Some?
    ensures MoodGain(h).value > 1.0
  {
  }

  /**
   * With exactly three check-ins the earlier slice is empty but the division
   * by 3 stays, so the trend fires whenever the three moods add up to more
   * than 3: on valid data, unless every mood is 1.
   */
  lemma TrendOnThree(h: seq<Checkin>)
    requires |h| == 3
    ensures MoodGain(h).Some? <==> MoodSum(h) > 3
  {
    assert h[0..0] == [];
    assert h[0..] == h;
  }

  /**
   * From six check-ins on, the trend compares the oldest three moods with the
   * three before them.
   */
  lemma TrendOnSix(h: seq<Checkin>)
    requires |h| >= 6
    ensures var n := |h|;
      MoodGain(h).Some? <==> MoodSum(h[n - 3..]) > MoodSum(h[n - 6..n - 3]) + 3
  {
  }

  /** Fewer than three check-ins never show a trend. */
  lemma NoTrendBelowThree(c: Checkin, h: seq<Checkin>)
    requires |h| < 3
    ensures forall i :: 0 <= i < |Insights(c, h)| ==> !Insights(c, h)[i].MoodImprovement?
  {
  }
}
