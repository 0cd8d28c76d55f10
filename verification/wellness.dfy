/**
 * Daily wellness check-ins (backend/src/routes/wellness.js): the overall
 * wellness score of one check-in and the insights generated when a check-in
 * is stored.
 */
module Wellness {
  import opened Wrappers
  import opened JsNumber

  /**
   * A stored check-in. The five core metrics are required integers; the other
   * metrics may be absent. `day` is the calendar day of `createdAt` as a day
   * number (the day before `d` is `d - 1`).
   */
  datatype Checkin = Checkin(
    mood: int, stress: int, energy: int, sleep: int, focus: int,
    hoursSlept: Option<real>, exerciseMinutes: Option<int>,
    productivity: Option<int>, motivation: Option<int>,
    anxiety: Option<int>, confidence: Option<int>,
    overallScore: Option<real>, day: int)

  /** A metric on the 1..10 scale of `checkinSchema`. */
  predicate OnScale(m: int)
  {
    1 <= m <= 10
  }

  predicate OptionalOnScale(m: Option<int>)
  {
    m.Some? ==> OnScale(m.value)
  }

  /** What `checkinSchema` admits. */
  predicate Valid(c: Checkin)
  {
    OnScale(c.mood) && OnScale(c.stress) && OnScale(c.energy) && OnScale(c.sleep) && OnScale(c.focus) &&
    OptionalOnScale(c.productivity) && OptionalOnScale(c.motivation) &&
    OptionalOnScale(c.anxiety) && OptionalOnScale(c.confidence) &&
    (c.hoursSlept.Some? ==> 0.0 <= c.hoursSlept.value <= 24.0) &&
    (c.exerciseMinutes.Some? ==> c.exerciseMinutes.value >= 0)
  }

  /** `if (checkin.x)`: present and not zero. */
  predicate Given(m: Option<int>)
  {
    m.Some? && m.value != 0
  }

  predicate GivenReal(m: Option<real>)
  {
    m.Some? && m.value != 0.0
  }

  /** The value an optional metric adds to the total, and whether it adds to the count. */
  function Term(m: Option<int>, inverted: bool): (t: (int, nat))
    ensures t.1 == if Given(m) then 1 else 0
    ensures OptionalOnScale(m) && t.1 == 1 ==> 1 <= t.0 <= 10
    ensures t.1 == 0 ==> t.0 == 0
  {
    if Given(m) then (if inverted then 11 - m.value else m.value, 1) else (0, 0)
  }

  /**
   * The total and the count of `calculateWellnessScore`: mood, 11 - stress,
   * energy, sleep and focus always count; productivity, motivation,
   * confidence and 11 - anxiety count when given.
   */
  function ScoreTerms(c: Checkin): (t: (int, nat))
    ensures 5 <= t.1 <= 9
    ensures Valid(c) ==> t.1 <= t.0 <= 10 * t.1
  {
    var core := c.mood + (11 - c.stress) + c.energy + c.sleep + c.focus;
    var p := Term(c.productivity, false);
    var m := Term(c.motivation, false);
    var f := Term(c.confidence, false);
    var a := Term(c.anxiety, true);
    (core + p.0 + m.0 + f.0 + a.0, 5 + p.1 + m.1 + f.1 + a.1)
  }

  /** `Math.round(x * 10) / 10`. */
  function Round1(x: real): (r: real)
    ensures x - 0.05 < r <= x + 0.05
  {
    (Round(x * 10.0) as real) / 10.0
  }

  /** `calculateWellnessScore(checkin)`: the mean of the counted terms, to one decimal. */
  function WellnessScore(c: Checkin): real
  {
    var t := ScoreTerms(c);
    Round1(t.0 as real / t.1 as real)
  }

  // ----- insights -----

  /** The four insights, in the order `generateInsights` may push them. */
  datatype Insight =
    | MoodImprovement(gain: real)   // TREND, MENTAL
    | SleepConcern                  // WARNING, SLEEP
    | StressAndAnxiety              // WARNING, MENTAL
    | ProductiveDay                 // ACHIEVEMENT, PRODUCTIVITY

  datatype Kind = Trend | Warning | Achievement
  datatype Priority = High | Medium

  function KindOf(i: Insight): Kind
  {
    match i
    case MoodImprovement(_) => Trend
    case SleepConcern => Warning
    case StressAndAnxiety => Warning
    case ProductiveDay => Achievement
  }

  function CategoryOf(i: Insight): string
  {
    match i
    case MoodImprovement(_) => "MENTAL"
    case SleepConcern => "SLEEP"
    case StressAndAnxiety => "MENTAL"
    case ProductiveDay => "PRODUCTIVITY"
  }

  /** Warnings are of high priority, the trend and the achievement of medium priority. */
  function PriorityOf(i: Insight): (p: Priority)
    ensures p == High <==> KindOf(i) == Warning
  {
    if i.SleepConcern? || i.StressAndAnxiety? then High else Medium
  }

  /** The fixed recommendations attached to each insight. */
  function Recommendations(i: Insight): (rs: seq<string>)
    ensures 2 <= |rs| <= 4
  {
    match i
    case MoodImprovement(_) =>
      ["Keep up the great work!", "Consider what positive changes you've made recently"]
    case SleepConcern =>
      ["Aim for 7-9 hours of sleep", "Create a consistent bedtime routine", "Limit screen time before bed"]
    case StressAndAnxiety =>
      ["Try deep breathing exercises", "Take short breaks during study/work",
       "Consider talking to someone you trust", "Practice mindfulness or meditation"]
    case ProductiveDay =>
      ["Note what made today successful", "Try to replicate these conditions tomorrow"]
  }

  /** Position of an insight in the push order. */
  function Rank(i: Insight): nat
  {
    match i
    case MoodImprovement(_) => 0
    case SleepConcern => 1
    case StressAndAnxiety => 2
    case ProductiveDay => 3
  }

  function MoodSum(h: seq<Checkin>): int
  {
    if |h| == 0 then 0 else MoodSum(h[..|h| - 1]) + h[|h| - 1].mood
  }

  /**
   * The mood trend over `recentCheckins` (newest first, as stored): the mean
   * mood of `slice(-3)` against that of `slice(-6, -3)`, both divided by 3
   * even when the second slice is shorter.
   */
  function MoodGain(h: seq<Checkin>): Option<real>
  {
    if |h| < 3 then None
    else
      var n := |h|;
      var recent := MoodSum(h[n - 3..]) as real / 3.0;
      var previous := MoodSum(h[if n >= 6 then n - 6 else 0 .. n - 3]) as real / 3.0;
      if recent > previous + 1.0 then Some(recent - previous) else None
  }

  predicate PoorSleep(c: Checkin)
  {
    c.sleep <= 4 && GivenReal(c.hoursSlept) && c.hoursSlept.value < 7.0
  }

  predicate Stressed(c: Checkin)
  {
    c.stress >= 7 && Given(c.anxiety) && c.anxiety.value >= 7
  }

  predicate Productive(c: Checkin)
  {
    Given(c.productivity) && c.focus != 0 && c.productivity.value >= 8 && c.focus >= 8
  }

  /** `generateInsights(userId, checkin, recentCheckins)`. */
  function Insights(c: Checkin, h: seq<Checkin>): seq<Insight>
  {
    var g := MoodGain(h);
    (if g.Some? then [MoodImprovement(g.value)] else []) +
    (if PoorSleep(c) then [SleepConcern] else []) +
    (if Stressed(c) then [StressAndAnxiety] else []) +
    (if Productive(c) then [ProductiveDay] else [])
  }
}
