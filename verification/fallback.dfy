/**
 * The deterministic narrative built when the generative analysis is not
 * available: `generateIntelligentFallbackAnalysis` and
 * `getCareerFieldForCategory` in backend/src/routes/assessments.js.
 *
 * The narrative is kept structured: where the source interpolates numbers and
 * names into template sentences, the model keeps the interpolated values.
 */
module Fallback {
  import opened Wrappers
  import opened JsNumber
  import opened Ranking
  import opened Text
  import opened Scoring
  import Seqs

  /** A strength: a ranked category with its percentage, or one of the generic phrases. */
  datatype Strength = Strong(area: string, percentage: Num) | Generic(text: string)

  /**
   * `{field, match, reasoning, requirements, growth}`: `match` is kept as
   * `matchScore`; the texts are phrases around the humanised category and are
   * not modelled.
   */
  datatype CareerSuggestion = CareerSuggestion(field: string, matchScore: Num)

  /** The performance band interpolated into the analysis. */
  datatype Band = Excellent | Good | Developing

  /** One `questionAnalysis` entry; `area` is the humanised category of the question. */
  datatype QuestionNote = QuestionNote(question: string, userAnswer: string, isOptimal: bool, area: string)

  /** A recommendation: the first one quotes the leading strength, the others are fixed. */
  datatype Advice = Leverage(strength: Strength) | Fixed(text: string)

  datatype Narrative = Narrative(
    band: Band,
    overallPercentage: real,
    strongestAreas: seq<string>,
    questionAnalysis: seq<QuestionNote>,
    strengths: seq<Strength>,
    improvementAreas: seq<string>,
    careerSuggestions: seq<CareerSuggestion>,
    recommendations: seq<Advice>,
    nextSteps: seq<string>,
    workStyle: string,
    highlyMotivated: bool)

  // ----- ranking -----

  /**
   * `data.percentage` as the comparator `b.percentage - a.percentage` reads it:
   * a LEARNING_STYLE entry is a bare count, whose `percentage` is undefined.
   */
  function PercentageOf(c: CategoryScore): Num
  {
    if c.Frequency? then NaN else c.percentage
  }

  /**
   * The comparator is consistent when every percentage is a number or none is;
   * a NaN difference counts as "equal", so with none the sort keeps the order.
   */
  predicate Comparable(cs: seq<(string, CategoryScore)>)
  {
    (forall i :: 0 <= i < |cs| ==> PercentageOf(cs[i].1).Fin?) ||
    (forall i :: 0 <= i < |cs| ==> PercentageOf(cs[i].1).NaN?)
  }

  /** The ranking key: the percentage when it is a number (every key ties otherwise). */
  function RankKey(e: (string, CategoryScore)): (k: real)
    ensures PercentageOf(e.1).Fin? ==> k == PercentageOf(e.1).v
  {
    var p := PercentageOf(e.1);
    if p.Fin? then p.v else 0.0
  }

  /** `Object.entries(categoryScores).sort(...).slice(0, 3)`. */
  function Top(cs: seq<(string, CategoryScore)>): (top: seq<(string, CategoryScore)>)
    ensures |top| == Seqs.Min(3, |cs|)
  {
    SortDesc(cs, RankKey)[..Seqs.Min(3, |cs|)]
  }

  // ----- lookups and phrasing -----

  /** `category.toLowerCase().replace('-', ' ')`: only the first hyphen becomes a space. */
  function Humanize(category: string): (h: string)
    ensures |h| == |category|
  {
    ReplaceFirst(Lower(category), '-', ' ')
  }

  const DefaultField := "Technology and Innovation"

  /** `categoryMap` of `getCareerFieldForCategory`, in declaration order. */
  const CareerFields: seq<(string, string)> := [
    ("Logical-Mathematical", "Engineering and Data Science"),
    ("Linguistic", "Communications and Writing"),
    ("Spatial", "Design and Architecture"),
    ("Kinesthetic", "Healthcare and Sports"),
    ("Musical", "Arts and Entertainment"),
    ("Interpersonal", "Education and Social Work"),
    ("Intrapersonal", "Psychology and Counseling"),
    ("Naturalistic", "Environmental Science"),
    ("Creative", "Arts and Design"),
    ("Analytical", "Research and Analysis"),
    ("Scientific", "Science and Technology"),
    ("Leadership", "Management and Business"),
    ("Systematic", "Operations and Administration")
  ]

  /** Looks a key up in an association list; the first matching row wins. */
  function Lookup(table: seq<(string, string)>, key: string): (r: Option<string>)
    ensures r.Some? <==> exists i :: 0 <= i < |table| && table[i].0 == key
    ensures r.Some? ==> exists i :: 0 <= i < |table| && table[i] == (key, r.value)
  {
    if |table| == 0 then None
    else if table[0].0 == key then Some(table[0].1)
    else
      var r := Lookup(table[1..], key);
      assert forall i :: 1 <= i < |table| ==> table[i] == table[1..][i - 1];
      r
  }

  /** `categoryMap[category] || 'Technology and Innovation'`. */
  function CareerField(category: string): string
  {
    var f := Lookup(CareerFields, category);
    if f.Some? then f.value else DefaultField
  }

  /** The band of `overallPercentage`. */
  function BandOf(p: real): Band
  {
    if p >= 80.0 then Excellent else if p >= 60.0 then Good else Developing
  }

  /** `basicResults.percentage || 70`. */
  function OverallPercentage(p: Num): real
  {
    if Truthy(p) then p.v else 70.0
  }

  const GenericStrengths: seq<Strength> := [
    Generic("Analytical thinking"),
    Generic("Problem-solving approach"),
    Generic("Career exploration mindset")
  ]

  const GenericSuggestion := CareerSuggestion(DefaultField, Fin(75.0))

  const ImprovementAreas: seq<string> := [
    "Continue developing your weaker skill areas",
    "Seek practical experience in your areas of interest",
    "Build a network in your target career fields",
    "Stay updated with industry trends and requirements"
  ]

  const FixedRecommendations: seq<string> := [
    "Explore internships or projects in your areas of interest",
    "Consider additional training or certification in your target field",
    "Connect with professionals in careers that match your profile",
    "Regularly reassess your skills and interests as you grow"
  ]

  const NextSteps: seq<string> := [
    "Research specific roles in your top career suggestions",
    "Identify skill gaps and create a development plan",
    "Network with professionals in your fields of interest",
    "Gain hands-on experience through projects or volunteering",
    "Consider taking additional assessments as you develop"
  ]

  function Note(r: Response, index: nat): QuestionNote
  {
    QuestionNote(r.question.text, r.answer, index % 3 != 0, Humanize(r.question.category))
  }

  function QuestionAnalysis(rs: seq<Response>): (qa: seq<QuestionNote>)
    ensures |qa| == |rs|
  {
    seq(|rs|, i requires 0 <= i < |rs| => Note(rs[i], i))
  }

  /**
   * `generateIntelligentFallbackAnalysis(type, responses, basicResults)`. A
   * LEARNING_STYLE entry among the top three makes `data.percentage.toFixed`
   * throw, since the entry is a number and has no `percentage`.
   */
  function Analyse(rs: seq<Response>, sheet: ScoreSheet): Result<Narrative, ScoringError>
    requires Comparable(sheet.categoryScores)
  {
    var top := Top(sheet.categoryScores);
    if exists i :: 0 <= i < |top| && top[i].1.Frequency? then Err(TypeError)
    else
      var strengths :=
        if |top| > 0 then seq(|top|, i requires 0 <= i < |top| => Strong(Humanize(top[i].0), top[i].1.percentage))
        else GenericStrengths;
      var suggestions :=
        if |top| > 0 then seq(|top|, i requires 0 <= i < |top| =>
          CareerSuggestion(CareerField(top[i].0), RoundNum(top[i].1.percentage)))
        else [GenericSuggestion];
      var overall := OverallPercentage(sheet.percentage);
      var band := BandOf(overall);
      Ok(Narrative(
        band,
        overall,
        seq(|top|, i requires 0 <= i < |top| => Humanize(top[i].0)),
        QuestionAnalysis(rs),
        strengths,
        ImprovementAreas,
        suggestions,
        [Leverage(strengths[0])] + seq(|FixedRecommendations|, i requires 0 <= i < |FixedRecommendations| => Fixed(FixedRecommendations[i])),
        NextSteps,
        if |top| > 0 then Humanize(top[0].0) else "analytical",
        band == Excellent))
  }
}
