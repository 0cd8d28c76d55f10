/**
 * The statistics the wellness dashboard and analytics handlers compute
 * inline (backend/src/routes/wellness.js): metric averages, weekly buckets of
 * seven check-ins, the day streak and the correlations between metrics.
 */
module Analytics {
  import opened Wrappers
  import opened Wellness
  import opened Correlation
  import Seqs
  import opened Arith

  // ----- averages -----

  datatype Averages = Averages(mood: real, stress: real, energy: real, sleep: real, focus: real, overall: real)

  function Mood(c: Checkin): real { c.mood as real }
  function Stress(c: Checkin): real { c.stress as real }
  function Energy(c: Checkin): real { c.energy as real }
  function Sleep(c: Checkin): real { c.sleep as real }
  function Focus(c: Checkin): real { c.focus as real }

  /** `c.overallScore || 0`. */
  function Overall(c: Checkin): real
  {
    if c.overallScore.Some? then c.overallScore.value else 0.0
  }

  /** `cs.reduce((sum, c) => sum + f(c), 0)`. */
  function Total(cs: seq<Checkin>, f: Checkin -> real): real
  {
    if |cs| == 0 then 0.0 else Total(cs[..|cs| - 1], f) + f(cs[|cs| - 1])
  }

  function Mean(cs: seq<Checkin>, f: Checkin -> real): real
    requires |cs| > 0
  {
    Total(cs, f) / |cs| as real
  }

  /** The six averages of a non-empty list of check-ins. */
  function MeansOf(cs: seq<Checkin>): Averages
    requires |cs| > 0
  {
    Averages(Mean(cs, Mood), Mean(cs, Stress), Mean(cs, Energy), Mean(cs, Sleep), Mean(cs, Focus), Mean(cs, Overall))
  }

  /** `averages`: `null` when there are no check-ins. */
  function AveragesOf(cs: seq<Checkin>): (r: Option<Averages>)
    ensures r.None? <==> |cs| == 0
    ensures r.Some? ==> r.value == MeansOf(cs)
  {
    if |cs| == 0 then None else Some(MeansOf(cs))
  }

  // ----- weekly buckets -----

  /** Consecutive pieces of `k` elements, the last one possibly shorter. */
  function Chunks<T>(s: seq<T>, k: nat): seq<seq<T>>
    requires k > 0
    decreases |s|
  {
    if |s| == 0 then [] else if |s| <= k then [s] else [s[..k]] + Chunks(s[k..], k)
  }

  function Flatten<T>(ss: seq<seq<T>>): seq<T>
  {
    if |ss| == 0 then [] else ss[0] + Flatten(ss[1..])
  }

  datatype Week = Week(week: nat, averages: Averages)

  /**
   * The `weeklyTrends` loop: for `i` below `Math.ceil(checkins.length / 7)`,
   * the averages of `checkins.slice(i * 7, (i + 1) * 7)`, numbered from 1.
   */
  method WeeklyTrends(cs: seq<Checkin>) returns (weeks: seq<Week>)
    ensures |weeks| == |Chunks(cs, 7)|
    ensures forall i :: 0 <= i < |weeks| ==>
      weeks[i].week == i + 1 && |Chunks(cs, 7)[i]| > 0 && weeks[i].averages == MeansOf(Chunks(cs, 7)[i])
  {
    var n := (|cs| + 6) / 7;
    ChunkCount(cs, 7);
    weeks := [];
    var i := 0;
    while i < n
      invariant 0 <= i <= n
      invariant |weeks| == i
      invariant forall j :: 0 <= j < i ==>
        weeks[j].week == j + 1 && |Chunks(cs, 7)[j]| > 0 && weeks[j].averages == MeansOf(Chunks(cs, 7)[j])
    {
      var hi := if (i + 1) * 7 <= |cs| then (i + 1) * 7 else |cs|;
      var bucket := cs[i * 7 .. hi];
      ChunkAt(cs, 7, i);
      if |bucket| > 0 {
        weeks := weeks + [Week(i + 1, MeansOf(bucket))];
      }
      i := i + 1;
    }
  }

  lemma {:induction false} ChunkCount<T>(s: seq<T>, k: nat)
    requires k > 0
    ensures |Chunks(s, k)| == (|s| + k - 1) / k
    decreases |s|
  {
    if |s| == 0 {
      DivSmall(k - 1, k);
    } else if |s| <= k {
      DivStep(|s| - 1, k);
      DivSmall(|s| - 1, k);
    } else {
      ChunkCount(s[k..], k);
      DivStep(|s| - 1, k);
    }
  }

  /** Chunk `i` is the slice from `i * k` to `(i + 1) * k`, cut at the end of `s`. */
  lemma ChunkAt<T>(s: seq<T>, k: nat, i: nat)
    requires k > 0 && i * k < |s|
    ensures i < |Chunks(s, k)|
    ensures Chunks(s, k)[i] == s[i * k .. if (i + 1) * k <= |s| then (i + 1) * k else |s|]
    ensures |Chunks(s, k)[i]| > 0
  {
    MulSucc(i, k);
    ChunkFrom(s, k, i, i * k);
  }

  /** `ChunkAt` with the chunk's start `a = i * k` passed in. */
  lemma {:induction false} ChunkFrom<T>(s: seq<T>, k: nat, i: nat, a: nat)
    requires k > 0 && a == i * k && a < |s|
    ensures i < |Chunks(s, k)|
    ensures Chunks(s, k)[i] == s[a .. if a + k <= |s| then a + k else |s|]
    decreases i
  {
    if i > 0 {
      MulAtLeast(i, k);
      MulPred(i, k);
      var e := if a + k <= |s| then a + k else |s|;
      var t := s[k..];
      assert k <= a < e <= |s|;
      ChunkFrom(t, k, i - 1, a - k);
      SliceOfDrop(s, k, a, e);
      assert Chunks(s, k) == [s[..k]] + Chunks(t, k);
    }
  }

  lemma SliceOfDrop<T>(s: seq<T>, k: nat, x: nat, y: nat)
    requires k <= x <= y <= |s|
    ensures s[k..][x - k .. y - k] == s[x .. y]
  {
    var l, r := s[k..][x - k .. y - k], s[x .. y];
    assert |l| == |r|;
    forall j | 0 <= j < |l|
      ensures l[j] == r[j]
    {
    }
  }

  /** Putting the chunks back together gives the list again. */
  lemma {:induction false} ChunksFlatten<T>(s: seq<T>, k: nat)
    requires k > 0
    ensures Flatten(Chunks(s, k)) == s
    decreases |s|
  {
    if |s| == 0 {
    } else if |s| <= k {
      assert Flatten([s]) == s + Flatten([]);
    } else {
      ChunksFlatten(s[k..], k);
      var c := Chunks(s, k);
      assert c[1..] == Chunks(s[k..], k);
      assert s == s[..k] + s[k..];
    }
  }

  /** Every chunk but the last holds exactly `k` elements; the last holds between 1 and `k`. */
  lemma {:induction false} ChunkSizes<T>(s: seq<T>, k: nat)
    requires k > 0
    ensures forall i :: 0 <= i < |Chunks(s, k)| - 1 ==> |Chunks(s, k)[i]| == k
    ensures |Chunks(s, k)| > 0 ==> 0 < |Chunks(s, k)[|Chunks(s, k)| - 1]| <= k
    decreases |s|
  {
    if |s| > k {
      ChunkSizes(s[k..], k);
      assert Chunks(s, k)[1..] == Chunks(s[k..], k);
    }
  }

  // ----- bounds of the averages -----

  /** A total of values between `lo` and `hi` lies between `|cs| * lo` and `|cs| * hi`. */
  lemma {:induction false} TotalBounds(cs: seq<Checkin>, f: Checkin -> real, lo: real, hi: real)
    requires forall i :: 0 <= i < |cs| ==> lo <= f(cs[i]) <= hi
    ensures lo * |cs| as real <= Total(cs, f) <= hi * |cs| as real
  {
    if |cs| > 0 {
      TotalBounds(cs[..|cs| - 1], f, lo, hi);
    }
  }

  lemma MeanBounds(cs: seq<Checkin>, f: Checkin -> real, lo: real, hi: real)
    requires |cs| > 0
    requires forall i :: 0 <= i < |cs| ==> lo <= f(cs[i]) <= hi
    ensures lo <= Mean(cs, f) <= hi
  {
    TotalBounds(cs, f, lo, hi);
    var n := |cs| as real;
    var m := Mean(cs, f);
    assert m * n == Total(cs, f);
  }

  /** On check-ins the schema admits, the five metric averages stay on the 1..10 scale. */
  lemma AveragesOnScale(cs: seq<Checkin>)
    requires |cs| > 0
    requires forall i :: 0 <= i < |cs| ==> Valid(cs[i])
    ensures var a := MeansOf(cs);
      1.0 <= a.mood <= 10.0 && 1.0 <= a.stress <= 10.0 && 1.0 <= a.energy <= 10.0 &&
      1.0 <= a.sleep <= 10.0 && 1.0 <= a.focus <= 10.0
  {
    MeanBounds(cs, Mood, 1.0, 10.0);
    MeanBounds(cs, Stress, 1.0, 10.0);
    MeanBounds(cs, Energy, 1.0, 10.0);
    MeanBounds(cs, Sleep, 1.0, 10.0);
    MeanBounds(cs, Focus, 1.0, 10.0);
  }

  // ----- streak -----

  /**
   * `k` is the streak of `days` (calendar days of the check-ins, newest
   * first) on day `today`: the first `k` check-ins fall on today, yesterday,
   * and so on, and the next one, if any, does not.
   */
  predicate IsStreak(days: seq<int>, today: int, k: nat)
  {
    k <= |days| &&
    (forall i :: 0 <= i < k ==> days[i] == today - i) &&
    (k < |days| ==> days[k] != today - k)
  }

  /** The `currentStreak` loop of the dashboard. */
  method Streak(days: seq<int>, today: int) returns (streak: nat)
    ensures IsStreak(days, today, streak)
  {
    streak := 0;
    var i := 0;
    while i < |days|
      invariant 0 <= i <= |days| && streak == i
      invariant forall j :: 0 <= j < i ==> days[j] == today - j
    {
      if days[i] == today - i {
        streak := streak + 1;
      } else {
        break;
      }
      i := i + 1;
    }
  }

  /** A list of days has one streak. */
  lemma StreakUnique(days: seq<int>, today: int, k: nat, k': nat)
    requires IsStreak(days, today, k) && IsStreak(days, today, k')
    ensures k == k'
  {
  }

  /** Check-ins today, yesterday, the day before and four days ago: a streak of 3. */
  lemma StreakExample()
    ensures IsStreak([0, -1, -2, -4], 0, 3)
  {
  }

  // ----- correlations -----

  function SleepColumn(cs: seq<Checkin>): (r: seq<int>)
    ensures |r| == |cs| && forall i :: 0 <= i < |cs| ==> r[i] == cs[i].sleep
  {
    seq(|cs|, i requires 0 <= i < |cs| => cs[i].sleep)
  }

  function MoodColumn(cs: seq<Checkin>): (r: seq<int>)
    ensures |r| == |cs| && forall i :: 0 <= i < |cs| ==> r[i] == cs[i].mood
  {
    seq(|cs|, i requires 0 <= i < |cs| => cs[i].mood)
  }

  function StressColumn(cs: seq<Checkin>): (r: seq<int>)
    ensures |r| == |cs| && forall i :: 0 <= i < |cs| ==> r[i] == cs[i].stress
  {
    seq(|cs|, i requires 0 <= i < |cs| => cs[i].stress)
  }

  function EnergyColumn(cs: seq<Checkin>): (r: seq<int>)
    ensures |r| == |cs| && forall i :: 0 <= i < |cs| ==> r[i] == cs[i].energy
  {
    seq(|cs|, i requires 0 <= i < |cs| => cs[i].energy)
  }

  /** `checkin.exerciseMinutes` is truthy. */
  predicate Exercised(c: Checkin)
  {
    Given(c.exerciseMinutes)
  }

  function ExerciseColumn(cs: seq<Checkin>): (r: seq<int>)
    requires forall i :: 0 <= i < |cs| ==> Exercised(cs[i])
    ensures |r| == |cs| && forall i :: 0 <= i < |cs| ==> Exercised(cs[i]) && r[i] == cs[i].exerciseMinutes.value
  {
    seq(|cs|, i requires 0 <= i < |cs| && Exercised(cs[i]) => cs[i].exerciseMinutes.value)
  }

  datatype Correlations = Correlations(sleepMood: Coefficient, stressEnergy: Coefficient, exerciseMood: Option<Coefficient>)

  /**
   * The `correlations` object: sleep against mood and stress against energy
   * over all check-ins, exercise minutes against mood over the check-ins with
   * exercise, but only when there are more than five of them.
   */
  function CorrelationsOf(cs: seq<Checkin>): (r: Correlations)
    requires |cs| > 0
    ensures !r.sleepMood.Undefined? && !r.stressEnergy.Undefined?
    ensures r.exerciseMood.Some? <==> |Seqs.Filter(cs, Exercised)| > 5
    ensures r.exerciseMood.Some? ==> !r.exerciseMood.value.Undefined?
  {
    var e := Seqs.Filter(cs, Exercised);
    Correlations(
      Correlate(SleepColumn(cs), MoodColumn(cs)),
      Correlate(StressColumn(cs), EnergyColumn(cs)),
      if |e| > 5 then Some(Correlate(ExerciseColumn(e), MoodColumn(e))) else None)
  }

  // ----- the analytics response -----

  datatype Analysis = Analysis(total: nat, averages: Option<Averages>, trends: seq<Week>, correlations: Option<Correlations>)

  /**
   * The analytics handler over the check-ins of the period, oldest first:
   * an empty period gives no averages, no trends and no correlations.
   */
  method Analyse(cs: seq<Checkin>) returns (a: Analysis)
    ensures a.total == |cs|
    ensures |cs| == 0 ==> a.averages.None? && a.trends == [] && a.correlations.None?
    ensures |cs| > 0 ==> a.averages == Some(MeansOf(cs)) && a.correlations == Some(CorrelationsOf(cs))
    ensures |a.trends| == |Chunks(cs, 7)| == (|cs| + 6) / 7
    ensures forall i :: 0 <= i < |a.trends| ==>
      a.trends[i].week == i + 1 && |Chunks(cs, 7)[i]| > 0 && a.trends[i].averages == MeansOf(Chunks(cs, 7)[i])
  {
    ChunkCount(cs, 7);
    if |cs| == 0 {
      return Analysis(0, None, [], None);
    }
    var weeks := WeeklyTrends(cs);
    a := Analysis(|cs|, Some(MeansOf(cs)), weeks, Some(CorrelationsOf(cs)));
  }
}
