/**
 * The assessment scorers of backend/src/routes/assessments.js: one scorer per
 * assessment type (the `SCORING_ALGORITHMS` table), the default result for a
 * type without a scorer, and the second scoring path `calculateAssessmentResults`
 * used when results are regenerated.
 */
module Scoring {
  import opened Wrappers
  import opened JsNumber
  import opened Tallies
  import opened Ranking

  datatype Question = Question(text: string, options: seq<string>, category: string, weight: real)

  /** A stored response, joined with its question. */
  datatype Response = Response(question: Question, answer: string)

  datatype SkillLevel = Advanced | Intermediate | Beginner | NoExperience

  /** The per-category record; its fields differ between scorers. */
  datatype CategoryScore =
    | Graded(score: Num, maxScore: real, percentage: Num, count: nat)       // APTITUDE
    | Share(score: Num, percentage: Num)                                    // INTEREST
    | Trait(score: Num, percentage: Num, dominantResponse: string)          // PERSONALITY
    | Mastery(score: Num, averageScore: Num, percentage: Num, level: SkillLevel) // SKILL
    | Value(score: Num, percentage: Num, importance: string)                // CAREER_VALUES
    | Frequency(count: nat)                                                 // LEARNING_STYLE: a bare number

  /** `{overallScore, percentage, categoryScores[, dominantStyle]}`. */
  datatype ScoreSheet = ScoreSheet(overallScore: Num, percentage: Num,
                                   categoryScores: seq<(string, CategoryScore)>,
                                   dominantStyle: Option<string>)

  /** `dominantStyle[0]` on `undefined` throws. */
  datatype ScoringError = TypeError

  /** Template weights are 1.0 to 1.2; no scorer is ever given a negative weight. */
  predicate WeightsNonNegative(rs: seq<Response>)
  {
    forall i :: 0 <= i < |rs| ==> rs[i].question.weight >= 0.0
  }

  // ----- lexicons -----

  /** The APTITUDE `scoreMap`. */
  function AgreementScale(answer: string): Option<int>
  {
    if answer == "Strongly Agree" then Some(5)
    else if answer == "Agree" then Some(4)
    else if answer == "Neutral" then Some(3)
    else if answer == "Disagree" then Some(2)
    else if answer == "Strongly Disagree" then Some(1)
    else None
  }

  /** The SKILL `scoreMap`. */
  function ExperienceScale(answer: string): Option<int>
  {
    if answer == "Expert" then Some(5)
    else if answer == "Advanced" then Some(4)
    else if answer == "Intermediate" then Some(3)
    else if answer == "Beginner" then Some(2)
    else if answer == "No experience" then Some(1)
    else None
  }

  /** The CAREER_VALUES `scoreMap`. */
  function ImportanceScale(answer: string): Option<int>
  {
    if answer == "Extremely Important" then Some(5)
    else if answer == "Very Important" then Some(4)
    else if answer == "Moderately Important" then Some(3)
    else if answer == "Slightly Important" then Some(2)
    else if answer == "Not Important" then Some(1)
    else None
  }

  /** `getScoreFromAnswer`: the agreement and experience scales merged, 3 for anything else. */
  function ScoreFromAnswer(answer: string): (r: int)
    ensures 1 <= r <= 5
    ensures AgreementScale(answer).Some? ==> r == AgreementScale(answer).value
    ensures ExperienceScale(answer).Some? ==> r == ExperienceScale(answer).value
    ensures AgreementScale(answer).None? && ExperienceScale(answer).None? ==> r == 3
  {
    match AgreementScale(answer)
    case Some(v) => v
    case None =>
      match ExperienceScale(answer)
      case Some(v) => v
      case None => 3
  }

  /** A lexicon lookup as a number: `scoreMap[answer]` is `undefined` for an unknown answer, which arithmetic turns into NaN. */
  function Ordinal(o: Option<int>): (r: Num)
    ensures r.Fin? <==> o.Some?
  {
    if o.Some? then Fin(o.value as real) else NaN
  }

  /** `options.indexOf(answer)`. */
  function OptionIndex(options: seq<string>, answer: string): (i: int)
    ensures -1 <= i < |options|
    ensures i >= 0 ==> options[i] == answer && answer !in options[..i]
    ensures i == -1 <==> answer !in options
  {
    if |options| == 0 then -1
    else if options[0] == answer then 0
    else
      var j := OptionIndex(options[1..], answer);
      assert options[1..][..if j >= 0 then j else 0] == options[1..if j >= 0 then j + 1 else 1];
      if j == -1 then -1 else j + 1
  }

  // ----- responses as tally items -----

  function Items(rs: seq<Response>, f: Response -> Item): (items: seq<Item>)
    ensures |items| == |rs|
    ensures forall i :: 0 <= i < |rs| ==> items[i] == f(rs[i])
  {
    seq(|rs|, i requires 0 <= i < |rs| => f(rs[i]))
  }

  /** APTITUDE: ordinal times weight, out of five times the weight. */
  function AptitudeItem(r: Response): Item
  {
    var w := r.question.weight;
    Item(r.question.category, Scale(Ordinal(AgreementScale(r.answer)), w), 5.0 * w, r.answer)
  }

  /** INTEREST: the weight, keyed by the answer text; 1.2 is the assumed maximum weight. */
  function InterestItem(r: Response): Item
  {
    Item(r.answer, Fin(r.question.weight), 1.2, r.answer)
  }

  /** PERSONALITY: the answer's 1-based position among the question's options, times the weight. */
  function PersonalityItem(r: Response): Item
  {
    var w := r.question.weight;
    Item(r.question.category, Fin((OptionIndex(r.question.options, r.answer) + 1) as real * w), 5.0 * w, r.answer)
  }

  /** SKILL: the experience ordinal; the weight is not used. */
  function SkillItem(r: Response): Item
  {
    Item(r.question.category, Ordinal(ExperienceScale(r.answer)), 5.0, r.answer)
  }

  /** CAREER_VALUES: the importance ordinal; the weight is not used. */
  function ValueItem(r: Response): Item
  {
    Item(r.question.category, Ordinal(ImportanceScale(r.answer)), 5.0, r.answer)
  }

  /** LEARNING_STYLE: one vote for the answer text. */
  function StyleItem(r: Response): Item
  {
    Item(r.answer, Fin(1.0), 1.0, r.answer)
  }

  /** `response.question.weight || 1.0`. */
  function EffectiveWeight(w: real): real
  {
    if w == 0.0 then 1.0 else w
  }

  /** `calculateAssessmentResults` for APTITUDE: `getScoreFromAnswer` times the effective weight. */
  function RegeneratedItem(r: Response): Item
  {
    var w := EffectiveWeight(r.question.weight);
    Item(r.question.category, Fin(ScoreFromAnswer(r.answer) as real * w), 5.0 * w, r.answer)
  }

  lemma AptitudeItemsDivisible(rs: seq<Response>)
    requires WeightsNonNegative(rs)
    ensures forall j :: 0 <= j < |rs| ==> Divisible(Items(rs, AptitudeItem)[j].points, Items(rs, AptitudeItem)[j].max)
  {
  }

  lemma PersonalityItemsDivisible(rs: seq<Response>)
    requires WeightsNonNegative(rs)
    ensures forall j :: 0 <= j < |rs| ==> Divisible(Items(rs, PersonalityItem)[j].points, Items(rs, PersonalityItem)[j].max)
  {
  }

  lemma RegeneratedItemsDivisible(rs: seq<Response>)
    requires WeightsNonNegative(rs)
    ensures forall j :: 0 <= j < |rs| ==> Divisible(Items(rs, RegeneratedItem)[j].points, Items(rs, RegeneratedItem)[j].max)
  {
  }

  // ----- grouping responses, defined directly on the responses -----

  function CategoryOf(r: Response): string { r.question.category }

  function AnswerOf(r: Response): string { r.answer }

  /** The distinct grouping keys of the responses, in order of first appearance. */
  function Groups(rs: seq<Response>, key: Response -> string): (g: seq<string>)
    ensures forall i :: 0 <= i < |g| ==> exists j :: 0 <= j < |rs| && key(rs[j]) == g[i]
  {
    if |rs| == 0 then []
    else
      var prev := Groups(rs[..|rs| - 1], key);
      if key(rs[|rs| - 1]) in prev then prev else prev + [key(rs[|rs| - 1])]
  }

  /** The responses whose grouping key is `k`, in order. */
  function Members(rs: seq<Response>, key: Response -> string, k: string): (m: seq<Response>)
    ensures |m| <= |rs|
  {
    if |rs| == 0 then []
    else Members(rs[..|rs| - 1], key, k) + (if key(rs[|rs| - 1]) == k then [rs[|rs| - 1]] else [])
  }

  /** Grouping the items of a scorer is grouping its responses by the items' key. */
  lemma {:induction false} GroupsBridge(rs: seq<Response>, f: Response -> Item, key: Response -> string, k: string)
    requires forall r :: f(r).key == key(r)
    ensures Seen(Items(rs, f)) == Groups(rs, key)
    ensures Matching(Items(rs, f), k) == Items(Members(rs, key, k), f)
    decreases |rs|
  {
    if |rs| > 0 {
      var pre := rs[..|rs| - 1];
      var r := rs[|rs| - 1];
      GroupsBridge(pre, f, key, k);
      var items := Items(rs, f);
      assert items[..|items| - 1] == Items(pre, f);
      var m := Members(pre, key, k);
      if key(r) == k {
        assert Items(m + [r], f) == Items(m, f) + [f(r)];
      } else {
        assert m + [] == m;
      }
    }
  }

  // ----- the scorers -----

  /** Category records of the APTITUDE kind: score, maximum, percentage and count. */
  function GradedScores(t: Table): (cs: seq<(string, CategoryScore)>)
    requires forall i :: 0 <= i < |t| ==> Divisible(t[i].1.points, t[i].1.max)
    ensures |cs| == |t|
  {
    seq(|t|, i requires 0 <= i < |t| =>
      assert Divisible(t[i].1.points, t[i].1.max);
      (t[i].0, Graded(t[i].1.points, t[i].1.max, Percent(t[i].1.points, t[i].1.max), t[i].1.count)))
  }

  /** The score sheet both APTITUDE paths build from their items. */
  function GradedSheet(items: seq<Item>): ScoreSheet
    requires forall j :: 0 <= j < |items| ==> Divisible(items[j].points, items[j].max)
  {
    EntriesDivisible(items);
    TotalsDivisible(items);
    ScoreSheet(TotalPoints(items), Percent(TotalPoints(items), TotalMax(items)), GradedScores(Tally(items)), None)
  }

  /** `SCORING_ALGORITHMS.APTITUDE`. */
  function Aptitude(rs: seq<Response>): ScoreSheet
    requires WeightsNonNegative(rs)
  {
    AptitudeItemsDivisible(rs);
    GradedSheet(Items(rs, AptitudeItem))
  }

  /** The points of an entry whose points are known to be finite. */
  function EntryPoints(e: (string, Acc)): real
  {
    if e.1.points.Fin? then e.1.points.v else 0.0
  }

  /** The answers' entries, heaviest first (ties in first-seen order). */
  function InterestRanking(rs: seq<Response>): (r: Table)
    requires WeightsNonNegative(rs)
    ensures SumPoints(Tally(Items(rs, InterestItem))).Fin?
    ensures forall i :: 0 <= i < |r| ==>
      r[i].1.points.Fin? && 0.0 <= r[i].1.points.v <= SumPoints(Tally(Items(rs, InterestItem))).v
  {
    var items := Items(rs, InterestItem);
    var t := Tally(items);
    EntriesNonNegative(items);
    var r := SortDesc(t, EntryPoints);
    RankedAtMostSum(t, r);
    r
  }

  /** `SCORING_ALGORITHMS.INTEREST`. */
  function Interest(rs: seq<Response>): ScoreSheet
    requires WeightsNonNegative(rs)
  {
    var items := Items(rs, InterestItem);
    var t := Tally(items);
    SumOfEntries(items);
    TotalsDivisible(items);
    var r := InterestRanking(rs);
    var total := SumPoints(t);
    var top := r[..Seqs.Min(3, |r|)];
    ScoreSheet(total, Percent(total, TotalMax(items)),
      seq(|top|, i requires 0 <= i < |top| =>
        (top[i].0, Share(top[i].1.points, Percent(top[i].1.points, total.v)))),
      None)
  }

  /** `SCORING_ALGORITHMS.PERSONALITY`. */
  function Personality(rs: seq<Response>): ScoreSheet
    requires WeightsNonNegative(rs)
  {
    var items := Items(rs, PersonalityItem);
    PersonalityItemsDivisible(rs);
    EntriesDivisible(items);
    TotalsDivisible(items);
    var t := Tally(items);
    ScoreSheet(TotalPoints(items), Percent(TotalPoints(items), TotalMax(items)),
      seq(|t|, i requires 0 <= i < |t| =>
        (t[i].0, Trait(t[i].1.points, Percent(t[i].1.points, t[i].1.max), t[i].1.first.answer))),
      None)
  }

  /** The SKILL level bands of an average; a NaN average fails every comparison. */
  function Level(avg: Num): SkillLevel
  {
    if avg.Fin? && avg.v >= 4.0 then Advanced
    else if avg.Fin? && avg.v >= 3.0 then Intermediate
    else if avg.Fin? && avg.v >= 2.0 then Beginner
    else NoExperience
  }

  /** `SCORING_ALGORITHMS.SKILL`. */
  function Skill(rs: seq<Response>): ScoreSheet
  {
    var items := Items(rs, SkillItem);
    var t := Tally(items);
    TallyEntries(items);
    TotalsDivisible(items);
    ScoreSheet(TotalPoints(items), Percent(TotalPoints(items), TotalMax(items)),
      seq(|t|, i requires 0 <= i < |t| =>
        var avg := DivBy(t[i].1.points, t[i].1.count as real);
        (t[i].0, Mastery(t[i].1.points, avg, Percent(avg, 5.0), Level(avg)))),
      None)
  }

  /** `SCORING_ALGORITHMS.CAREER_VALUES`: a later response overwrites its category's record. */
  function CareerValues(rs: seq<Response>): ScoreSheet
  {
    var items := Items(rs, ValueItem);
    var t := Tally(items);
    TotalsDivisible(items);
    ScoreSheet(TotalPoints(items), Percent(TotalPoints(items), TotalMax(items)),
      seq(|t|, i requires 0 <= i < |t| =>
        (t[i].0, Value(t[i].1.last.points, Percent(t[i].1.last.points, 5.0), t[i].1.last.answer))),
      None)
  }

  /** The vote count of a style entry. */
  function EntryCount(e: (string, Acc)): real
  {
    e.1.count as real
  }

  /** `SCORING_ALGORITHMS.LEARNING_STYLE`; with no responses `dominantStyle[0]` throws. */
  function LearningStyle(rs: seq<Response>): Result<ScoreSheet, ScoringError>
  {
    var t := Tally(Items(rs, StyleItem));
    if |t| == 0 then Err(TypeError)
    else
      Ok(ScoreSheet(Fin(|rs| as real), Fin(100.0),
        seq(|t|, i requires 0 <= i < |t| => (t[i].0, Frequency(t[i].1.count))),
        Some(SortDesc(t, EntryCount)[0].0)))
  }

  /** The scorer chosen by assessment type, with the default result for a type that has none. */
  function Score(kind: string, rs: seq<Response>): Result<ScoreSheet, ScoringError>
    requires WeightsNonNegative(rs)
  {
    if kind == "APTITUDE" then Ok(Aptitude(rs))
    else if kind == "INTEREST" then Ok(Interest(rs))
    else if kind == "PERSONALITY" then Ok(Personality(rs))
    else if kind == "SKILL" then Ok(Skill(rs))
    else if kind == "CAREER_VALUES" then Ok(CareerValues(rs))
    else if kind == "LEARNING_STYLE" then LearningStyle(rs)
    else Ok(ScoreSheet(Fin(|rs| as real), Fin(100.0), [], None))
  }

  /** `calculateAssessmentResults`: APTITUDE is rescored, every other type gets 3 of 5 per response. */
  function Regenerate(kind: string, rs: seq<Response>): ScoreSheet
    requires WeightsNonNegative(rs)
  {
    if kind == "APTITUDE" then
      RegeneratedItemsDivisible(rs);
      GradedSheet(Items(rs, RegeneratedItem))
    else
      var n := |rs| as real;
      ScoreSheet(Fin(3.0 * n), Percent(Fin(3.0 * n), 5.0 * n), [], None)
  }
}
