# GuideMitra core, modelled in Dafny

GuideMitra is a career-guidance web application: an Express/Prisma backend
and a React front end. Students take assessments, log daily wellness
check-ins, browse colleges and a timeline of events, and receive course and
career recommendations. This project models the decision logic of that
application as pure Dafny functions and proves properties about it:

- **Assessment scoring** (`Scoring`, `ScoringProperties`, `Tallies`,
  `Ranking`, `JsNumber`). These are the six scorers of `SCORING_ALGORITHMS`
  (APTITUDE, INTEREST, PERSONALITY, SKILL, CAREER_VALUES, LEARNING_STYLE),
  the default for unknown types, `getScoreFromAnswer`, and the regeneration
  path of `calculateAssessmentResults`. JavaScript numbers are `Num = Fin(real) | NaN`,
  so a lookup that misses (`undefined * weight`) yields `NaN`, as it does in
  the source.
- **The fallback narrative** (`Fallback`, `FallbackProperties`). This is
  `generateIntelligentFallbackAnalysis`: the top three categories, strengths, the
  per-question notes, career suggestions, the performance band and the fixed
  lists. It also covers `getCareerFieldForCategory`.
- **Wellness** (`Wellness`, `WellnessProperties`, `Analytics`,
  `Correlation`). This covers the wellness score of a check-in, the insight
  rules, the dashboard averages and streak, and the analytics endpoint:
  averages, weekly trends and the Pearson correlations.
- **Recommendations** (`Recommendations`). This covers role normalisation,
  the sample guide lookup and the new-skill filter, milestone numbering and
  roadmap progress, and the two rule-based fallbacks.
- **Timeline** (`Timeline`). Events are split into upcoming, past and
  reminders.
- **Colleges** (`Colleges`). This covers pagination, the sorted distinct
  program list and the grouping of locations by state.
- **Security middleware** (`Security`). This covers the null-byte
  sanitiser, the CORS origin decision and the security-header audit.
- **Registration page** (`Password`). This covers the password strength
  meter, its colour and label, the submit checks and the disabled
  condition of the submit button.

`Wrappers` (Option and Result), `Seqs` (filter, subsequence, count),
`Text` (ASCII lower-casing, stripping, splitting, string order) and
`Arith` (integer division facts) are shared helpers.

Two places where the code does something other than its surroundings
suggest; the model follows the code:

- The fallback narrative is what the AI path returns from its catch block
  as a substitute (backend/src/routes/assessments.js:1123-1127). The
  fallback itself throws for a LEARNING_STYLE result, whose category scores
  are plain counts, because `data.percentage.toFixed` is called on
  `undefined` (line 1139). The error escapes to the submit route's own catch
  block, which answers with status 500. `FallbackProperties.AnalyseFails`
  states exactly when this happens.
- PERSONALITY's `dominantResponse` carries the comment `// Most common
  response` (backend/src/routes/assessments.js:472), but the code takes
  `responses[0]`, the first response of each trait.

## Model

| member | source | states |
|---|---|---|
| Scoring.ScoreFromAnswer | backend/src/routes/assessments.js:1277-1291 | an agreement answer maps to 5..1, an experience answer maps to 5..1, and anything else maps to 3; the result is always on the 1..5 scale |
| Scoring.OptionIndex | backend/src/routes/assessments.js:453 | the index of the first option equal to the answer, or -1 exactly when the answer is not among the options |
| Scoring.Items | backend/src/routes/assessments.js:368-392 | each response contributes exactly one scored item, in response order |
| Scoring.GroupsBridge | backend/src/routes/assessments.js:386-391 | the categories of the tally are the response categories in first-appearance order, and a category's items are those of its own responses |
| Scoring.GradedScores | backend/src/routes/assessments.js:394-403 | the graded category table has one entry per tallied category |
| Scoring.InterestRanking | backend/src/routes/assessments.js:425-429 | the interest ranking sums to a finite total, and every ranked answer has a finite, non-negative weight no larger than that total |
| Scoring.Ordinal | backend/src/routes/assessments.js:535-543 | a scale lookup gives a finite number exactly when the answer is on the scale |
| Scoring.Aptitude | backend/src/routes/assessments.js:363-410 | each category is graded on exactly its own responses and the overall score sums them all, with an off-scale answer making it NaN (stated by ScoringProperties.AptitudeByCategory, AptitudeRange and AptitudeUnknownAnswer) |
| Scoring.Interest | backend/src/routes/assessments.js:412-443 | the overall score is the sum of all weights and at most three answers are kept, heaviest first (stated by ScoringProperties.InterestTop, InterestOverall and InterestPercent) |
| Scoring.Personality | backend/src/routes/assessments.js:445-481 | each trait sums its options-index points over its own responses and keeps its first response (stated by ScoringProperties.PersonalityByCategory and PersonalityRange) |
| Scoring.Skill | backend/src/routes/assessments.js:483-526 | each category averages its experience scores, ignoring weights, and gets the level of that average (stated by ScoringProperties.SkillByCategory, SkillRange and SkillIgnoresWeights) |
| Scoring.Level | backend/src/routes/assessments.js:517 | an average of 4 or more is Advanced, from 3 Intermediate, from 2 Beginner, and otherwise No experience (stated by ScoringProperties.LevelBands and LevelMonotone) |
| Scoring.CareerValues | backend/src/routes/assessments.js:528-559 | each value keeps its last answer while the overall score sums every answer (stated by ScoringProperties.CareerValuesLastWins, CareerValuesOverall and CareerValuesRange) |
| Scoring.LearningStyle | backend/src/routes/assessments.js:561-580 | each style gets its vote count and the dominant style is the earliest of the most voted; no responses is an error (stated by ScoringProperties.LearningStyleCounts and LearningStyleDominant) |
| Scoring.Score | backend/src/routes/assessments.js:717-723 | the scorer of the type is used, an unknown type scores one point per response at 100 percent, and only LEARNING_STYLE without responses fails (stated by ScoringProperties.ScoreFails and ScoreUnknownType) |
| Scoring.Regenerate | backend/src/routes/assessments.js:1225-1273 | APTITUDE is rescored with unknown answers counted as 3, and any other type gets 3 of 5 per response (stated by ScoringProperties.RegenerateAgrees, RegenerateDiffers, RegenerateRange and RegenerateOtherTypes) |
| Tallies.TallyCorrect | backend/src/routes/assessments.js:386-391 | the per-category accumulator lists each category once, in first-appearance order, and each entry holds the sum of points, the sum of maxima and the count of exactly that category's items |
| Tallies.SumOfEntries | backend/src/routes/assessments.js:383-391 | the category points add up to the overall total, and the category counts add up to the number of responses |
| Tallies.IndexOf | backend/src/routes/assessments.js:386 | the lookup finds a category's entry, and reports -1 exactly when the category has no entry yet |
| Tallies.Bump | backend/src/routes/assessments.js:386-391 | folding an item in adds to its own category's entry, or appends a new entry when there is none (stated for the whole fold by Tallies.TallyCorrect) |
| Tallies.Tally | backend/src/routes/assessments.js:383-391 | one entry per category in first-appearance order, holding the sums and count of exactly that category's items (stated by Tallies.TallyCorrect and Tallies.SumOfEntries) |
| JsNumber.Add | backend/src/routes/assessments.js:383 | a JavaScript sum is finite exactly when both operands are, and is then their real sum |
| JsNumber.Percent | backend/src/routes/assessments.js:400 | `(a / b) * 100` is finite exactly when `a` is finite and `b` is positive, and then equals the share of `a` in `b` as a percentage |
| JsNumber.Round | backend/src/routes/assessments.js:1153 | `Math.round` returns the integer nearest to `x`, with halves rounding up |
| JsNumber.RoundNum | backend/src/routes/assessments.js:1153 | rounding keeps NaN as NaN and moves a finite value by at most one half |
| ScoringProperties.AptitudeByCategory | backend/src/routes/assessments.js:363-410 | each response category gets one graded entry whose score, maximum and count are those of exactly its responses and whose percentage is that score over that maximum; the entries add up to the overall score, which sums every response, and the overall percentage is that sum over the summed maxima |
| ScoringProperties.AptitudeRange | backend/src/routes/assessments.js:374-407 | with positive weights and answers on the agreement scale, the overall percentage and every category percentage lie between 20 and 100 |
| ScoringProperties.AptitudeUnknownAnswer | backend/src/routes/assessments.js:382 | an answer outside the agreement scale makes the overall score and percentage NaN, and also the percentage of its own category |
| ScoringProperties.AptitudeExample | backend/src/routes/assessments.js:363-410 | answers "Agree" and "Neutral" with weight 1 give 7 of 10 points, which is 70 percent, in one category |
| ScoringProperties.RegenerateAgrees | backend/src/routes/assessments.js:1225-1264 | on agreement-scale answers with positive weights, the regeneration path scores APTITUDE exactly as the live scorer does |
| ScoringProperties.RegenerateDiffers | backend/src/routes/assessments.js:1277-1291 | the paths differ on the answer "Expert": the live scorer yields NaN and regeneration yields 5 points |
| ScoringProperties.RegenerateRange | backend/src/routes/assessments.js:1225-1264 | the regenerated APTITUDE percentage is always finite and lies between 20 and 100, whatever the answers |
| ScoringProperties.RegenerateOtherTypes | backend/src/routes/assessments.js:1265-1273 | every other type is regenerated as 3 points per response, 60 percent and no categories (NaN percent when there are no responses) |
| ScoringProperties.InterestTop | backend/src/routes/assessments.js:412-443 | INTEREST keeps at most three answers, each with its total weight, in non-increasing order of weight, and no answer left out outweighs one kept |
| ScoringProperties.RankedCovers | backend/src/routes/assessments.js:425-427 | the ranking holds one entry per distinct answer, so every given answer is ranked |
| ScoringProperties.InterestTotal | backend/src/routes/assessments.js:414-429 | the interest tally adds up to the sum of all weights |
| ScoringProperties.InterestOverall | backend/src/routes/assessments.js:429-433 | the INTEREST overall score is the sum of all weights |
| ScoringProperties.InterestPercent | backend/src/routes/assessments.js:430-434 | the INTEREST percentage is finite exactly when the maximum is positive, and is then the weight sum over the maximum, times 100 |
| ScoringProperties.InterestPercentCapped | backend/src/routes/assessments.js:414-434 | with weights between 0 and 1.2 the INTEREST percentage lies between 0 and 100 |
| ScoringProperties.InterestShares | backend/src/routes/assessments.js:435-441 | each kept answer's share lies between 0 and 100 when any weight is positive, and is NaN when all weights are zero |
| ScoringProperties.PersonalityByCategory | backend/src/routes/assessments.js:445-481 | each category gets one entry whose score is the sum of its responses' points, whose percentage is that score over the summed maxima of its responses, and whose dominant response is the first answer given in that category; the entries add up to the overall score, which sums every response, and the overall percentage is that sum over the summed maxima |
| ScoringProperties.PersonalityRange | backend/src/routes/assessments.js:450-480 | with answers among five options and positive weights, the overall and category percentages lie between 20 and 100 |
| ScoringProperties.PersonalityUnlistedAnswer | backend/src/routes/assessments.js:453-454 | an answer outside the options scores 0 points |
| ScoringProperties.SkillByCategory | backend/src/routes/assessments.js:483-526 | each category gets one entry whose score is the sum of its experience scores, whose average is that sum over its response count, whose percentage is that average over 5, and whose level is the band of that average; the entries add up to the overall score |
| ScoringProperties.LevelBands | backend/src/routes/assessments.js:517 | an average of 4 or more is Advanced, 3 up to 4 Intermediate, 2 up to 3 Beginner, and anything lower or not a number is No experience |
| ScoringProperties.LevelMonotone | backend/src/routes/assessments.js:517 | a higher average never gets a lower level |
| ScoringProperties.SkillIgnoresWeights | backend/src/routes/assessments.js:483-526 | SKILL scoring depends only on answers and categories, never on question weights |
| ScoringProperties.SkillRange | backend/src/routes/assessments.js:483-526 | on experience-scale answers the SKILL percentage lies between 20 and 100 |
| ScoringProperties.SkillCategoryRange | backend/src/routes/assessments.js:505-518 | on experience-scale answers every category average lies between 1 and 5 and its percentage between 20 and 100 |
| ScoringProperties.CareerValuesLastWins | backend/src/routes/assessments.js:528-559 | each category keeps the importance of its last response, that answer's ordinal score and that score over 5 as its percentage, at the position where the category first appeared |
| ScoringProperties.CareerValuesOverall | backend/src/routes/assessments.js:543-557 | the overall score sums every response, earlier answers for a value included, and the overall percentage is that sum over the summed maxima |
| ScoringProperties.CareerValuesOverwriteExample | backend/src/routes/assessments.js:543-557 | "Extremely Important" then "Not Important" for one value leave a record scoring 1 (20 percent) while the overall score is 6 of 10 (60 percent), so the records no longer add up to the overall score |
| ScoringProperties.CareerValuesRange | backend/src/routes/assessments.js:528-559 | on importance-scale answers the overall and category percentages lie between 20 and 100 |
| ScoringProperties.CareerValuesIgnoresWeights | backend/src/routes/assessments.js:528-559 | CAREER_VALUES scoring depends only on answers and categories, never on question weights |
| ScoringProperties.LearningStyleCounts | backend/src/routes/assessments.js:561-580 | LEARNING_STYLE succeeds exactly when there is a response; each style then gets its vote count, the counts add up to the number of responses, and the percentage is 100 |
| ScoringProperties.LearningStyleDominant | backend/src/routes/assessments.js:571-578 | the dominant style has the most votes, and among tied styles it is the one answered first |
| ScoringProperties.ScoreFails | backend/src/routes/assessments.js:571-578 | scoring fails only for LEARNING_STYLE without responses, where the reduce has no initial value |
| ScoringProperties.ScoreUnknownType | backend/src/routes/assessments.js:718-723 | an unknown assessment type scores one point per response at 100 percent, with no categories |
| Ranking.SortDesc | backend/src/routes/assessments.js:425-427 | the sort returns a permutation of its input in non-increasing key order |
| Ranking.SortStable | backend/src/routes/assessments.js:425-427 | elements with equal keys keep their input order |
| Ranking.HeadIsFirstMaximal | backend/src/routes/assessments.js:571-572 | the first sorted element is the earliest element with the largest key |
| Ranking.TopIsMaximal | backend/src/routes/assessments.js:1133-1135 | an element kept in the top slice has a key at least that of any element left out |
| Fallback.RankKey | backend/src/routes/assessments.js:1134 | categories are ranked by their percentage when it is a number |
| Fallback.Top | backend/src/routes/assessments.js:1133-1135 | the top list has three entries, or all of them when there are fewer |
| Fallback.Humanize | backend/src/routes/assessments.js:1139 | humanising a category keeps its length |
| Fallback.Lookup | backend/src/routes/assessments.js:1205-1222 | a table lookup succeeds exactly when the key has a row, and returns that row's value |
| Fallback.QuestionAnalysis | backend/src/routes/assessments.js:1142-1148 | there is one note per response |
| Fallback.PercentageOf | backend/src/routes/assessments.js:1134 | a graded entry is ranked by its percentage and a bare vote count by an undefined one, which makes the narrative fail (stated by FallbackProperties.TopRanked and AnalyseFails) |
| Fallback.CareerField | backend/src/routes/assessments.js:1205-1222 | a listed category gets the field of its own row and any other gets the default field (stated by FallbackProperties.CareerFieldDefault and CareerFieldRows) |
| Fallback.OverallPercentage | backend/src/routes/assessments.js:1166 | the overall percentage is reported as is, or as 70 when it is falsy (stated by FallbackProperties.BandThresholds) |
| Fallback.BandOf | backend/src/routes/assessments.js:1167 | excellent from 80, good from 60, developing below, and never lower for a higher percentage (stated by FallbackProperties.BandThresholds and BandMonotone) |
| Fallback.Analyse | backend/src/routes/assessments.js:1131-1202 | the narrative fails exactly when a top entry is a bare count, and otherwise follows the top entries one to one (stated by FallbackProperties.AnalyseFails, AnalyseContent, SuggestionMatch and NotesFollowResponses) |
| FallbackProperties.TopRanked | backend/src/routes/assessments.js:1133-1135 | with numeric percentages, the top entries come from the scores, in non-increasing order, and none left out ranks above one kept |
| FallbackProperties.TopKeepsOrder | backend/src/routes/assessments.js:1133-1135 | when no percentage is a number, the top entries are the first three in table order |
| FallbackProperties.AnalyseFails | backend/src/routes/assessments.js:1137-1140 | the narrative fails exactly when one of the top three entries is a bare vote count |
| FallbackProperties.LearningStyleNotNarrated | backend/src/routes/assessments.js:1137-1140 | every successful LEARNING_STYLE result makes the narrative fail |
| FallbackProperties.AnalyseContent | backend/src/routes/assessments.js:1137-1193 | strengths and suggestions follow the top entries one to one, or the generic texts when there are no categories; the first recommendation builds on the first strength; there are 4 improvement areas and 5 next steps |
| FallbackProperties.SuggestionMatch | backend/src/routes/assessments.js:1150-1164 | each suggestion's match score is its category percentage rounded to the nearest integer |
| FallbackProperties.BandThresholds | backend/src/routes/assessments.js:1166-1198 | the band is excellent from 80, good from 60 or when the percentage is falsy, and developing below 60; a falsy percentage is reported as 70 |
| FallbackProperties.BandMonotone | backend/src/routes/assessments.js:1167 | a higher percentage never gives a lower band |
| FallbackProperties.NotesFollowResponses | backend/src/routes/assessments.js:1142-1148 | note i carries the question text, the answer and the humanised area of response i, and is marked optimal unless i is a multiple of 3 |
| FallbackProperties.NotOptimalCount | backend/src/routes/assessments.js:1145 | one response in three, rounded up, is marked not optimal |
| FallbackProperties.CareerFieldDefault | backend/src/routes/assessments.js:1205-1222 | a category gets the default field exactly when it has no row in the field table |
| FallbackProperties.CareerFieldRows | backend/src/routes/assessments.js:1206-1220 | each listed category gets the field of its own row |
| FallbackProperties.HumanizeFirstHyphen | backend/src/routes/assessments.js:1139 | only the first hyphen of a category becomes a space |
| FallbackProperties.HumanizeExample | backend/src/routes/assessments.js:1139 | "A-B-C" is humanised to "a b-c" |
| Text.Lower | backend/src/routes/recommendations.js:92 | lower-casing maps each character on its own and keeps the length |
| Text.LowerIdempotent | backend/src/routes/recommendations.js:106 | lower-casing twice is lower-casing once |
| Text.Strip | backend/src/middleware/securityHeaders.js:201 | removing a character leaves no occurrence of it and never lengthens the string |
| Text.StripIdempotent | backend/src/middleware/securityHeaders.js:201 | removing a character twice is removing it once |
| Text.StripFilters | backend/src/middleware/securityHeaders.js:201 | removing a character keeps every other character, in order and as often as it occurs: the result is the input filtered by "is not that character" |
| Text.Split | backend/src/middleware/securityHeaders.js:111 | splitting always yields at least one piece |
| Text.SplitJoin | backend/src/middleware/securityHeaders.js:111 | joining the pieces with the separator gives back the original string |
| Text.ReplaceFirst | backend/src/routes/assessments.js:1139 | a one-character `replace` changes the first occurrence only and leaves a string without it unchanged (stated by Text.ReplaceFirstOnlyFirst, ReplaceFirstAt and ReplaceFirstAbsent) |
| Text.ReplaceFirstOnlyFirst | backend/src/routes/assessments.js:1139 | a string replace of one character changes only its first occurrence |
| Text.ReplaceFirstAt | backend/src/routes/assessments.js:1139 | the first occurrence becomes the replacement and everything before and after it is kept |
| Text.ReplaceFirstAbsent | backend/src/routes/assessments.js:1139 | a string without the pattern character comes back unchanged |
| Text.LessTotal | backend/src/routes/colleges.js:162 | the default string order ranks any two distinct strings one way or the other |
| Text.LessTransitive | backend/src/routes/colleges.js:162 | the default string order is transitive |
| Wellness.Term | backend/src/routes/wellness.js:59-74 | an optional metric counts exactly when it is present and non-zero, and then adds a value on the 1..10 scale |
| Wellness.ScoreTerms | backend/src/routes/wellness.js:46-74 | between 5 and 9 metrics count, and on valid data the total lies between 1 and 10 times the count |
| Wellness.Round1 | backend/src/routes/wellness.js:76 | rounding to one decimal moves the value by at most 0.05 |
| Wellness.PriorityOf | backend/src/routes/wellness.js:101-131 | an insight has high priority exactly when it is a warning |
| Wellness.Recommendations | backend/src/routes/wellness.js:80-151 | every insight carries between two and four recommendations |
| Wellness.WellnessScore | backend/src/routes/wellness.js:46-77 | a valid check-in scores between 1 and 10, rising with mood and falling with stress (stated by WellnessProperties.ScoreRange, ScoreMonotoneInMood, ScoreAntitoneInStress and ScoreExample) |
| Wellness.MoodGain | backend/src/routes/wellness.js:84-98 | a gain is reported only from three check-ins on, always above one point, comparing `slice(-3)` with `slice(-6, -3)` of the newest-first history (stated by WellnessProperties.GainAboveOne, TrendOnThree, TrendOnSix and NoTrendBelowThree) |
| Wellness.Insights | backend/src/routes/wellness.js:80-151 | each insight appears exactly when its rule holds, at most once and in rule order (stated by WellnessProperties.InsightsExactly and InsightsOrdered) |
| WellnessProperties.ScoreRange | backend/src/routes/wellness.js:46-77 | the wellness score of a valid check-in lies between 1 and 10 |
| WellnessProperties.ScoreMonotoneInMood | backend/src/routes/wellness.js:48 | a better mood never lowers the score |
| WellnessProperties.ScoreAntitoneInStress | backend/src/routes/wellness.js:49 | more stress never raises the score, because stress is inverted |
| WellnessProperties.ScoreCount | backend/src/routes/wellness.js:58-74 | the count is five plus one for each optional metric that is given |
| WellnessProperties.ScoreExample | backend/src/routes/wellness.js:46-77 | mood 8, stress 2, energy 7, sleep 9 and focus 6 score 7.8 |
| WellnessProperties.InsightsOrdered | backend/src/routes/wellness.js:80-151 | at most four insights, each at most once, in the order trend, sleep, stress, achievement |
| WellnessProperties.InsightsExactly | backend/src/routes/wellness.js:84-148 | each insight appears exactly when its rule holds, and the trend carries the mood gain |
| WellnessProperties.GainAboveOne | backend/src/routes/wellness.js:89 | a reported mood gain always exceeds one point |
| WellnessProperties.TrendOnThree | backend/src/routes/wellness.js:84-98 | with three check-ins in the history (the new one included) the earlier slice is empty, so the trend fires whenever their moods add up to more than 3 |
| WellnessProperties.TrendOnSix | backend/src/routes/wellness.js:84-98 | from six check-ins on, the trend fires when the moods of `slice(-3)` add up to more than those of the three before them plus 3; the history is newest first and includes the new check-in, so `slice(-3)` holds the oldest three of up to ten check-ins |
| WellnessProperties.NoTrendBelowThree | backend/src/routes/wellness.js:84 | fewer than three check-ins in the history, the new one included, never give a trend |
| Analytics.AveragesOf | backend/src/routes/wellness.js:213-220 | averages are absent exactly when there are no check-ins, and are otherwise the per-metric means |
| Analytics.MeansOf | backend/src/routes/wellness.js:590-597 | each average is the mean of its metric over all check-ins and stays on the 1..10 scale (stated by Analytics.AveragesOf and Analytics.AveragesOnScale) |
| Analytics.MeanBounds | backend/src/routes/wellness.js:590-597 | a mean of values within bounds stays within those bounds |
| Analytics.AveragesOnScale | backend/src/routes/wellness.js:590-597 | over valid check-ins the five core averages lie between 1 and 10 |
| Analytics.WeeklyTrends | backend/src/routes/wellness.js:600-614 | one entry per seven-check-in chunk, numbered from 1, each holding the means of its own non-empty chunk |
| Analytics.ChunkCount | backend/src/routes/wellness.js:601 | there are ceil(n / 7) weeks for n check-ins |
| Analytics.ChunksFlatten | backend/src/routes/wellness.js:601-603 | the weekly chunks, concatenated, give back the check-ins in order |
| Analytics.ChunkSizes | backend/src/routes/wellness.js:601-603 | every week but the last holds seven check-ins, and the last holds between one and seven |
| Analytics.Streak | backend/src/routes/wellness.js:223-238 | the streak counts the leading check-ins dated today, yesterday and so on, and stops at the first gap |
| Analytics.StreakUnique | backend/src/routes/wellness.js:229-237 | the streak is determined by the dates, so any two computations agree |
| Analytics.StreakExample | backend/src/routes/wellness.js:229-237 | check-ins today, yesterday, two days ago and four days ago give a streak of 3 |
| Analytics.SleepColumn | backend/src/routes/wellness.js:619 | the sleep column lists each check-in's sleep quality in order |
| Analytics.MoodColumn | backend/src/routes/wellness.js:619 | the mood column lists each check-in's mood in order |
| Analytics.StressColumn | backend/src/routes/wellness.js:620 | the stress column lists each check-in's stress level in order |
| Analytics.EnergyColumn | backend/src/routes/wellness.js:620 | the energy column lists each check-in's energy level in order |
| Analytics.ExerciseColumn | backend/src/routes/wellness.js:621-623 | the exercise column lists the minutes of each check-in that has exercise |
| Analytics.CorrelationsOf | backend/src/routes/wellness.js:617-625 | sleep-mood and stress-energy are always defined, and exercise-mood is computed exactly when more than five check-ins record exercise |
| Analytics.Analyse | backend/src/routes/wellness.js:579-625 | no check-ins give no averages, trends or correlations; otherwise the averages, ceil(n / 7) weekly trends and the correlations of all check-ins |
| Correlation.Spread | backend/src/routes/wellness.js:662 | each factor under the square root is never negative |
| Correlation.Correlate | backend/src/routes/wellness.js:651-665 | the coefficient is undefined exactly when the lengths differ or are zero, and a ratio always has a positive squared denominator |
| Correlation.CauchySchwarz | backend/src/routes/wellness.js:662-664 | the square of a dot product is at most the product of the squared norms |
| Correlation.CorrelateBounded | backend/src/routes/wellness.js:651-665 | the coefficient lies between -1 and 1: the squared numerator is at most the squared denominator |
| Correlation.CorrelateSymmetric | backend/src/routes/wellness.js:651-665 | correlating x with y is the same as correlating y with x |
| Correlation.CorrelateConstant | backend/src/routes/wellness.js:664 | a constant series has zero spread, so its coefficient is 0 |
| Correlation.CorrelateSelf | backend/src/routes/wellness.js:651-665 | a series correlates with itself at exactly 1, or at 0 when it is constant |
| Correlation.CorrelateNegated | backend/src/routes/wellness.js:651-665 | negating one series negates the coefficient |
| Recommendations.DropSpaces | backend/src/routes/recommendations.js:92 | leading whitespace is dropped and nothing else is removed |
| Recommendations.CollapseSpaces | backend/src/routes/recommendations.js:92 | no whitespace survives, and every character is a hyphen or one of the input's; where each hyphen goes is stated by Recommendations.CollapseRunBetween |
| Recommendations.CollapseCharacterised | backend/src/routes/recommendations.js:92 | every character other than whitespace and a hyphen is kept, in order, with nothing else of that kind added; the hyphens are those of the input plus one for each run of whitespace (their places are stated by Recommendations.CollapseRunBetween) |
| Recommendations.CollapseKeeps | backend/src/routes/recommendations.js:92 | a character other than whitespace is copied unchanged and collapsing carries on after it |
| Recommendations.CollapseWholeRun | backend/src/routes/recommendations.js:92 | a run of whitespace on its own becomes a single hyphen |
| Recommendations.CollapseAppend | backend/src/routes/recommendations.js:92 | collapsing two strings that do not meet inside a run of whitespace is collapsing each and joining the results |
| Recommendations.CollapseRunBetween | backend/src/routes/recommendations.js:92 | a run of whitespace between two pieces that do not start or end in whitespace becomes exactly one hyphen at that place, with each piece collapsed on its own |
| Recommendations.NormalizeRole | backend/src/routes/recommendations.js:92 | a normalised role holds no whitespace and no upper-case letter; what it is exactly is stated by Recommendations.NormalizeRolePieces and Recommendations.NormalizePlainRole |
| Recommendations.NormalizeRolePieces | backend/src/routes/recommendations.js:92 | a run of whitespace between two pieces becomes one hyphen in its place, with each piece normalised on its own |
| Recommendations.NormalizePlainRole | backend/src/routes/recommendations.js:92 | a role without whitespace normalises to its lower-case form, so together with the previous row the normal form is the lower-cased role with each run of whitespace replaced by one hyphen |
| Recommendations.NormalizeIdempotent | backend/src/routes/recommendations.js:92 | normalising a normalised role changes nothing |
| Recommendations.NormalizeExample | backend/src/routes/recommendations.js:92 | "A  b" normalises to "a-b" |
| Recommendations.GuideFor | backend/src/routes/recommendations.js:92-101 | the data-scientist guide is chosen exactly when the role normalises to "data-scientist", and the software-engineer guide otherwise |
| Recommendations.SuggestedNewSkills | backend/src/routes/recommendations.js:104-113 | at most five suggestions, as many as there are unknown skills up to five, each a guide skill the user lacks ignoring case |
| Recommendations.SuggestedInOrder | backend/src/routes/recommendations.js:105-113 | the suggestions keep the guide's order; they are the unknown skills of a leading part of the guide, so with five or more unknown skills they are the first five; when fewer than five are suggested, every unknown skill is among them |
| Recommendations.NothingNewToSuggest | backend/src/routes/recommendations.js:105-107 | a user who knows every skill of the guide gets no suggestions |
| Recommendations.Numbered | backend/src/routes/recommendations.js:143-146 | each created milestone keeps its title and kind and starts open |
| Recommendations.NumberedOrders | backend/src/routes/recommendations.js:143-146 | milestones are numbered 1, 2, 3 and so on, in list order: the orders strictly increase and all lie between 1 and the number of milestones |
| Recommendations.CompletedCount | backend/src/routes/recommendations.js:216 | the completed milestones and the open ones together make up the list, so the count never exceeds its length |
| Recommendations.CompletedCountEnds | backend/src/routes/recommendations.js:216 | the count equals the number of milestones exactly when every milestone is completed, and is 0 exactly when none is |
| Recommendations.Progress | backend/src/routes/recommendations.js:216-217 | the progress lies between 0 and 100 |
| Recommendations.ProgressEnds | backend/src/routes/recommendations.js:216-217 | the progress is 100 exactly when every milestone is completed, and 0 exactly when none is |
| Recommendations.RuleBasedCourses | backend/src/routes/recommendations.js:318-360 | at most three courses, in the order computer science, medicine, business |
| Recommendations.RuleBasedCoursesExactly | backend/src/routes/recommendations.js:323-357 | each course is suggested exactly when its interest or its career goal is listed |
| Recommendations.NoProfileNoCourses | backend/src/routes/recommendations.js:320-321 | missing or empty interests and goals give no courses |
| Recommendations.RuleBasedCareers | backend/src/routes/recommendations.js:438-470 | at most one career per interest, each a software engineer or a medical doctor |
| Recommendations.RuleBasedCareersFilter | backend/src/routes/recommendations.js:442-467 | the careers are the titles of the recognised interests, in interest order |
| Recommendations.RuleBasedCareersCount | backend/src/routes/recommendations.js:442-467 | there is one career per "Technology" and one per "Medicine" entry, repeats included |
| Timeline.Categorize | backend/src/routes/timeline.js:64-68 | an event is upcoming, past or a reminder exactly when its rule holds, and no category holds anything else |
| Timeline.IsUpcoming | backend/src/routes/timeline.js:65 | an open event dated now or later (stated, with the split against past events, by Timeline.Categorize and UpcomingPastPartition) |
| Timeline.IsPast | backend/src/routes/timeline.js:66 | an event dated before now or completed (stated by Timeline.Categorize, UpcomingPastPartition and CompletedIsPast) |
| Timeline.IsReminder | backend/src/routes/timeline.js:67 | an open event with a reminder date no earlier than now (stated by Timeline.Categorize and RemindersOpen) |
| Timeline.UpcomingPastPartition | backend/src/routes/timeline.js:65-66 | upcoming and past split the events: each event lands in exactly one of the two |
| Timeline.CompletedIsPast | backend/src/routes/timeline.js:65-67 | a completed event is past, never upcoming and never a reminder |
| Timeline.RemindersOpen | backend/src/routes/timeline.js:67 | every reminder is open and has a reminder date no earlier than now |
| Timeline.CategoriesKeepOrder | backend/src/routes/timeline.js:64-68 | each category keeps the query's order |
| Colleges.Skip | backend/src/routes/colleges.js:15-28 | the skip is a whole number of pages: exactly the pages before the requested one |
| Colleges.Pages | backend/src/routes/colleges.js:67 | the page count is the least number of pages that holds every row, and 0 for no rows |
| Colleges.PagesCoverResult | backend/src/routes/colleges.js:28-67 | a page is within the page count exactly when it starts before the last row |
| Colleges.AllPrograms | backend/src/routes/colleges.js:157-160 | the collected programs are exactly those that some college offers |
| Colleges.Insert | backend/src/routes/colleges.js:159 | adding a program to the set keeps it sorted and duplicate-free, and adds just that program |
| Colleges.Programs | backend/src/routes/colleges.js:157-162 | the program list is strictly sorted and holds exactly the programs some college offers |
| Colleges.SortedDistinct | backend/src/routes/colleges.js:157-162 | the program list has no duplicates |
| Colleges.ProgramsCanonical | backend/src/routes/colleges.js:157-162 | the list depends only on the set of programs, not on the order the colleges are visited |
| Colleges.Lookup | backend/src/routes/colleges.js:188 | a state lookup returns that state's group |
| Colleges.AddLocation | backend/src/routes/colleges.js:187-199 | one row creates or extends its own state's group and leaves every other state's group as it was |
| Colleges.GroupByState | backend/src/routes/colleges.js:174-199 | one group per state that has a row, holding its rows in order and their summed count (stated by Colleges.GroupByStateContents and GroupByStateDistinct) |
| Colleges.GroupByStateContents | backend/src/routes/colleges.js:174-199 | a state has a group exactly when some row belongs to it; its cities are its rows in order and its total is the sum of their counts |
| Colleges.GroupByStateDistinct | backend/src/routes/colleges.js:174-199 | no state has two groups, so the group a lookup finds is the only one for that state |
| Colleges.CitiesOfPresent | backend/src/routes/colleges.js:186-199 | a state has cities exactly when one of the rows belongs to it |
| Security.Sanitize | backend/src/middleware/securityHeaders.js:199-209 | sanitising keeps the shape of a value and its object keys, leaves everything but strings unchanged, and turns a string into the sub-list of it that drops the null bytes and keeps every other character as often as it occurs |
| Security.SanitizeClean | backend/src/middleware/securityHeaders.js:199-209 | after sanitising, no string at any depth holds a null byte |
| Security.SanitizeNoop | backend/src/middleware/securityHeaders.js:199-209 | a value without null bytes passes through unchanged |
| Security.SanitizeIdempotent | backend/src/middleware/securityHeaders.js:199-221 | sanitising twice is sanitising once |
| Security.SanitizeExample | backend/src/__tests__/example.test.js:100-102 | "test", a null byte and "string" become "teststring" |
| Security.AllowedOrigins | backend/src/middleware/securityHeaders.js:110-114 | the allow-list is never empty |
| Security.CorsDecision | backend/src/middleware/securityHeaders.js:117-128 | a request is admitted exactly when it has no origin or a listed one, and is otherwise refused with "Not allowed by CORS" |
| Security.ListedOriginsAllowed | backend/src/middleware/securityHeaders.js:110-128 | every comma-separated origin of the configured list is admitted, and the pieces join back to the configured text |
| Security.DevelopmentOrigins | backend/src/middleware/securityHeaders.js:112-128 | outside production and without a list, only the two local origins get in |
| Security.AuditHeaders | backend/src/middleware/securityHeaders.js:227-256 | a header is reported missing exactly when it is audited and not set, and the score is "A+" exactly when nothing is missing |
| Security.MissingInOrder | backend/src/middleware/securityHeaders.js:228-247 | missing headers are reported in the audit's order, each at most once |
| Security.FullMarks | backend/src/middleware/securityHeaders.js:245-254 | the score is "A+" exactly when every audited header is set |
| Password.Strength | frontend/src/pages/Register.js:45-53 | the strength is at most 5, and at most 3 for a password shorter than 6 |
| Password.StrengthCountsCriteria | frontend/src/pages/Register.js:45-53 | the strength is the number of criteria met; the property with weight is Password.StrengthMonotone, which rests on this count |
| Password.StrengthMonotone | frontend/src/pages/Register.js:45-53 | typing one more character never lowers the strength |
| Password.StrongExample | frontend/src/pages/Register.js:45-53 | "Abcdef1!xy" meets all five criteria |
| Password.ColorOf | frontend/src/pages/Register.js:55-59 | error up to strength 2, warning at 3, success from 4, in step with the label (stated by Password.ColorMatchesText) |
| Password.TextOf | frontend/src/pages/Register.js:61-65 | Weak up to strength 2, Medium at 3, Strong from 4, never Strong below six characters (stated by Password.ColorMatchesText and ShortIsNeverStrong) |
| Password.ColorMatchesText | frontend/src/pages/Register.js:55-65 | colour and label always agree: weak up to 2, medium at 3, strong from 4 |
| Password.ShortIsNeverStrong | frontend/src/pages/Register.js:47-64 | a password shorter than six characters never shows as strong |
| Password.Submit | frontend/src/pages/Register.js:67-83 | the form registers exactly when the passwords match and are at least six characters long, and otherwise gives the mismatch error first |
| Password.EnabledSubmitMatches | frontend/src/pages/Register.js:301 | a submit from an enabled button never fails the match check, and fails only when the password is too short |
| Password.SubmittedStrength | frontend/src/pages/Register.js:45-79 | every submitted password scores at least 1 |
| Password.WeakPasswordAccepted | frontend/src/pages/Register.js:45-79 | "abcdef" is submitted even though the meter shows it as weak |

## Left out

- Database access, HTTP routing, authentication and JSON responses. Every
  operation takes the rows a query would return as a parameter, in the
  query's order.
- Calls to the Gemini model. Only the fallback paths are modelled.
- Floating point. JavaScript numbers are exact reals, with NaN kept
  explicitly; rounding errors and Infinity are not modelled.
- Correlation.Correlate: the square root is not taken. The coefficient is
  returned as a numerator and a squared denominator, and the bounds are
  stated on those.
- Dates. Timestamps and calendar days are integers, one day apart per day.
  Time zones, daylight saving and `toDateString` formatting are ignored.
- `toFixed` and template strings. The narrative keeps the numbers and
  category names that its texts are built from, not the formatted text.
- Text.Lower: `toLowerCase` maps the ASCII letters only. The `\s` class
  (Text.IsSpace) is the full JavaScript set of white-space and line
  terminator characters.
- Text: string lengths count characters, not UTF-16 code units.
- Text.Less: it compares strings by Unicode code point. The default
  `Array.prototype.sort` compares UTF-16 code units, which orders characters
  above U+FFFF differently from some characters in U+E000..U+FFFF.
- Property lookups that fall through to built-in object keys such as
  `constructor` in the category maps, `SAMPLE_RECOMMENDATIONS` and
  `stateData`.
- Scoring.ScoreFromAnswer, Scoring.Aptitude, Scoring.Skill,
  Scoring.CareerValues, Scoring.Interest, Scoring.LearningStyle: an answer
  that names a built-in object property (`constructor`, `toString`,
  `valueOf`) is treated as an unknown answer. In the source,
  `scoreMap[answer] || 3` then returns the built-in function instead of 3.
  SKILL and CAREER_VALUES add that function to their running total, which
  turns the total into a string, where the model has NaN. INTEREST and
  LEARNING_STYLE find the key already set and append to the function's
  text. APTITUDE multiplies it by the weight, giving NaN as modelled.
- Fallback.Analyse: requires the category percentages to be all numeric or
  all non-numeric. A mixed table makes the source's comparator inconsistent,
  and the order `Array.prototype.sort` then produces is implementation-defined.
- Tallies.TallyCorrect, Scoring.GroupsBridge, ScoringProperties.AptitudeByCategory,
  ScoringProperties.PersonalityByCategory, ScoringProperties.SkillByCategory,
  ScoringProperties.CareerValuesLastWins, ScoringProperties.InterestTop and
  ScoringProperties.LearningStyleDominant: every per-category table is kept
  in first-appearance order, which is the key order of a JavaScript object
  only for keys that are not integer-like. JavaScript enumerates keys such
  as `"3"` or `"10"` first, in ascending numeric order. A category, trait,
  value or answer of that form would come earlier in `categoryScores`, and
  would win ties for the top interests and for the dominant learning style.
- Recommendations.GuideFor: a guide keeps its course, skill and project
  titles only, not the descriptive fields.
- Recommendations.RuleBasedCourses: a suggestion keeps its name, duration
  and career paths only, not salary ranges, colleges or exams.
- Security.AuditHeaders: header values are strings, and a header counts as
  set when it is present and non-empty.
- The Helmet, rate-limit and request-id configuration of the security
  middleware. These are settings for third-party libraries, not decisions
  made by this code.
- The user, chat and seed modules. They do no computation beyond storage
  and forwarding.
