# Curriculum alignment scoring engine, modelled in Dafny

This project models the scoring engine of a curriculum alignment tool. The
engine compares a university programme's courses with a skills catalog and a
benchmark university's skill profile. It produces:

- a per-skill coverage vector;
- cluster scores and a weighted alignment index (WAI) in [0, 100];
- the list of skill gaps;
- pairs of redundant courses;
- a depth profile and a theory/practice ratio;
- a list of recommendation drafts.

The model follows the four source files one module each, plus shared modules:

| Dafny module | file | models |
|---|---|---|
| `Records` | `records.dfy` | the records of `types/database.ts` (courses, skills, weights, gap items, recommendations) and `Array.prototype.filter` |
| `Numeric` | `numeric.dfy` | `Math.round` as floor(x + ½), `Math.min`, the final clamp |
| `Sorting` | `sorting.dfy` | `Array.prototype.sort` with a descending comparator, as a stable sort specified by "sorted and a permutation" |
| `Text` | `text.dfy` | `normalizeText` and `tokenize` |
| `SkillExtraction` | `extraction.dfy` | `extractSkillsFromCourse` and `buildProgramSkillVector` |
| `Redundancy` | `redundancy.dfy` | `arrayFromSkillIds`, `countIntersection`, `countUnion`, `computeTitleSimilarity`, `detectRedundancy` |
| `Similarity` | `similarity.dfy` | `cosineSimilarity` and `computeCoverageByCluster` |
| `Scoring` | `scoring.dfy` | `getModeMultipliers`, `runAnalysis`, `computeGaps`, `computeDepthProfile`, `computeTheoryPracticeRatio` |
| `Recommendations` | `recommendations.dfy` | `CERTIFICATION_MAP`, `generateRecommendations`, `groupGapsByCluster` |

The source works imperatively: counted loops, arrays built with `push`, and
dictionaries updated in place. Each such routine is a Dafny `method` with the
same loops. Its `ensures` ties the result to a specification function, and the
properties of the source are lemmas about that function.

Modelling choices:

- JavaScript numbers are `real`. `Math.round(x)` is `Floor(x + 0.5)`.
- `Record<string, number>` is `map<string, real>`. A missing key read with
  `|| 0` is the function `Records.Get`.
- `Math.sqrt` is a parameter `sqrt: real -> real`. Lemmas that need a real
  square root require `IsSqrtAt(sqrt, x)`: non-negative, and squaring to `x`.
- An object literal `{}` inherits the properties of Object.prototype. In
  `countIntersection` and `countUnion` this is modelled: reading an inherited
  name (`constructor`, `toString`, `__proto__`, ...) is truthy, and storing
  under `__proto__` adds no key (`Redundancy.ObjectTruthy`,
  `Redundancy.ObjectSetTrue`). Lower-cased title tokens can be `constructor`
  or `__proto__`.
- The order of `Object.entries(grouped)` is the order in which clusters first
  appear among the gaps. It is modelled as a sequence kept beside the map
  (`ClusterOrder`).

## Model

| member | source | states |
|---|---|---|
| `Records.ActiveCourses` | lib/analysis/scoring.ts:41 | keeps exactly the input courses that are active, each no more often than in the input |
| `Records.FilterSpec` | lib/recommendations/engine.ts:40 | `filter` keeps exactly the elements that pass, each no more often than in the input |
| `Records.FilterAppend` | lib/recommendations/engine.ts:40 | filtering a concatenation is the concatenation of the filtered parts, so the kept elements stay in input order |
| `Records.FilterIdempotent` | lib/analysis/skill-extraction.ts:126 | filtering twice with the same test is filtering once |
| `Records.ActiveCoursesAppend` | lib/analysis/scoring.ts:41 | the active courses of a concatenation are those of each part, in input order |
| `Records.ActiveCoursesIdempotent` | lib/analysis/skill-extraction.ts:126 | filtering active courses twice is the same as once |
| `Numeric.Round` | lib/analysis/scoring.ts:74-78 | `Math.round` lies within half a unit of its argument |
| `Numeric.RoundWithin` | lib/analysis/similarity.ts:45 | rounding a value inside an integer range stays inside it |
| `Numeric.RoundMonotone` | lib/analysis/scoring.ts:55-58 | rounding never reverses the order of two values |
| `Numeric.Clamp` | lib/analysis/scoring.ts:90 | `Math.max(0, Math.min(100, x))` lies in the range, leaves in-range values alone, and gives the nearer bound for values outside |
| `Numeric.Round2` | lib/analysis/skill-extraction.ts:149 | rounding to two decimals moves a value by at most 0.005 and lands on a multiple of 0.01 |
| `Sorting.SortDesc` | lib/analysis/skill-extraction.ts:56 | the sort result is ordered by non-increasing key and is a permutation of its input |
| `Sorting.Insert` | lib/analysis/skill-extraction.ts:56 | inserting into an ordered list keeps it ordered and adds exactly that element |
| `Sorting.SortDescMembers` | lib/analysis/skill-extraction.ts:155 | the sort keeps exactly the input's elements |
| `Sorting.SortDescProjection` | lib/analysis/skill-extraction.ts:56 | any projection of the sorted list (for example the ids) is a permutation of the same projection of the input |
| `Text.LowerChar` | lib/analysis/skill-extraction.ts:5 | lower-casing maps each upper-case ASCII letter to the letter 32 code points up and changes no other character |
| `Text.LowerString` | lib/analysis/skill-extraction.ts:5 | `toLowerCase` keeps the length and lower-cases each character |
| `Text.CleanChar` | lib/analysis/skill-extraction.ts:5-6 | upper-case ASCII letters are lower-cased; other word, whitespace and Arabic characters are kept; every other character becomes a space |
| `Text.DropSpacesSpec` | lib/analysis/skill-extraction.ts:8 | removing leading whitespace yields a suffix that starts with non-whitespace and drops only whitespace |
| `Text.DropTrailingSpacesSpec` | lib/analysis/skill-extraction.ts:8 | removing trailing whitespace yields a prefix that ends with non-whitespace and drops only whitespace |
| `Text.CollapseSpec` | lib/analysis/skill-extraction.ts:7 | replacing whitespace runs by one space keeps emptiness, keeps non-whitespace characters, writes `' '` for each run and never leaves two spaces in a row |
| `Text.NormalizedText` | lib/analysis/skill-extraction.ts:3-9 | `normalizeText` output has only word, space or Arabic characters, no leading or trailing space and no double space |
| `Text.NormalizeFixed` | lib/analysis/skill-extraction.ts:3-9 | normalized text is a fixed point of `normalizeText` |
| `Text.NormalizeIdempotent` | lib/analysis/skill-extraction.ts:3-9 | `normalizeText` applied twice equals applying it once |
| `Text.CollapseFixed` | lib/analysis/skill-extraction.ts:7 | text with normal characters and no double space is unchanged by collapsing |
| `Text.Split` | lib/analysis/skill-extraction.ts:12 | `split(' ')` returns at least one piece and no piece contains a space |
| `Text.SplitChars` | lib/analysis/skill-extraction.ts:12 | every character of every piece comes from the input |
| `Text.JoinSplit` | lib/analysis/skill-extraction.ts:12 | joining the pieces with single spaces gives back the input |
| `Text.SplitJoin` | lib/analysis/skill-extraction.ts:12 | splitting space-free pieces joined by spaces gives back the pieces |
| `Text.LongPiecesMembers` | lib/analysis/skill-extraction.ts:12 | the length filter keeps exactly the pieces longer than 2 |
| `Text.Tokenize` | lib/analysis/skill-extraction.ts:11-13 | every token has at least 3 characters, contains no space and only normal characters |
| `Text.TokenizeNormalized` | lib/analysis/skill-extraction.ts:11-13 | tokenizing normalized text gives the same tokens as tokenizing the raw text |
| `SkillExtraction.ContainsIsSubstring` | lib/analysis/skill-extraction.ts:36 | `includes` holds exactly when the substring occurs at some position |
| `SkillExtraction.PairScore` | lib/analysis/skill-extraction.ts:40-45 | one course token adds 0, 0.5 or 2; 2 exactly when it equals the keyword token, 0.5 exactly when they differ and one contains the other |
| `SkillExtraction.PairsScore` | lib/analysis/skill-extraction.ts:39-46 | the course-token loop adds between 0 and 2 per course token |
| `SkillExtraction.TokenScore` | lib/analysis/skill-extraction.ts:35-46 | one keyword token adds at most 1 for the text hit plus 2 per course token |
| `SkillExtraction.KeywordsScore` | lib/analysis/skill-extraction.ts:32-48 | `matchScore` is non-negative and 0 with no keywords |
| `SkillExtraction.NormalizedScore` | lib/analysis/skill-extraction.ts:50-52 | the normalized score of a positive raw score lies in (0, 1] |
| `SkillExtraction.MatchOf` | lib/analysis/skill-extraction.ts:26-53 | each catalog skill contributes at most one entry, for itself, with a score in (0, 1] |
| `SkillExtraction.MatchesFromBounds` | lib/analysis/skill-extraction.ts:25-54 | the loop over the catalog yields at most one entry per catalog skill, each scoring in (0, 1] |
| `SkillExtraction.MatchesFromIds` | lib/analysis/skill-extraction.ts:25-54 | the multiset of reported ids is contained in the multiset of catalog ids |
| `SkillExtraction.Extracted` | lib/analysis/skill-extraction.ts:15-57 | the result is sorted by non-increasing score and every score lies in (0, 1] |
| `SkillExtraction.ExtractedIds` | lib/analysis/skill-extraction.ts:15-57 | no skill id is reported more often than it occurs in the catalog |
| `SkillExtraction.ExtractedIdsInCatalog` | lib/analysis/skill-extraction.ts:15-57 | every reported skill id comes from the catalog |
| `SkillExtraction.ExtractedDistinct` | lib/analysis/skill-extraction.ts:15-57 | with distinct catalog ids, every skill is reported at most once |
| `SkillExtraction.TokenlessKeywordsScoreZero` | lib/analysis/skill-extraction.ts:32-48 | keywords that tokenize to nothing give `matchScore` 0 |
| `SkillExtraction.TokenlessSkillNeverMatched` | lib/analysis/skill-extraction.ts:28-33 | a skill whose keywords and names all tokenize to nothing is never reported, wherever it sits in the catalog |
| `SkillExtraction.SilentSkillSkipped` | lib/analysis/skill-extraction.ts:50-53 | a skill with no match leaves the match list as if it were not in the catalog |
| `SkillExtraction.CatalogExtractorExtractsFrom` | lib/analysis/skill-extraction.ts:72 | the extractor used by the vector only reports catalog skills with scores in (0, 1] |
| `SkillExtraction.InitVector` | lib/analysis/skill-extraction.ts:65-67 | the initial vector has exactly the catalog ids as keys, all at 0 |
| `SkillExtraction.AddMatchesKeys` | lib/analysis/skill-extraction.ts:75-79 | adding matches whose ids are already keys adds no key |
| `SkillExtraction.AddMatchesSaturates` | lib/analysis/skill-extraction.ts:75-79 | with non-negative weight each entry stays in [0, 1] and never decreases |
| `SkillExtraction.ProgramVectorKeys` | lib/analysis/skill-extraction.ts:59-83 | the program vector has a key for exactly the catalog ids |
| `SkillExtraction.ProgramVectorBounded` | lib/analysis/skill-extraction.ts:59-83 | with non-negative credits every entry lies in [0, 1] |
| `SkillExtraction.ProgramVectorMonotone` | lib/analysis/skill-extraction.ts:69-80 | with non-negative credits, folding in more courses never lowers an entry |
| `SkillExtraction.ProgramVectorIgnoresInactive` | lib/analysis/skill-extraction.ts:71 | inactive courses do not change the vector |
| `SkillExtraction.ScoreKeywordToken` | lib/analysis/skill-extraction.ts:35-46 | the inner loops add the keyword token's score |
| `SkillExtraction.ScoreKeyword` | lib/analysis/skill-extraction.ts:32-46 | the loop over one keyword's tokens adds that keyword's score |
| `SkillExtraction.ScoreSkill` | lib/analysis/skill-extraction.ts:31-47 | the loop over a skill's keywords computes `matchScore` |
| `SkillExtraction.MatchSkill` | lib/analysis/skill-extraction.ts:26-53 | the per-skill body pushes that skill's entry, if any |
| `SkillExtraction.ExtractSkillsFromCourse` | lib/analysis/skill-extraction.ts:15-57 | the method computes the extraction function, so the properties above hold for it |
| `SkillExtraction.AddCourseSkills` | lib/analysis/skill-extraction.ts:75-79 | the inner loop adds the weighted scores with saturation at 1 |
| `SkillExtraction.AddExtracted` | lib/analysis/skill-extraction.ts:70-79 | one course step: a no-op for inactive courses, else the weighted addition |
| `SkillExtraction.AddCourseToVector` | lib/analysis/skill-extraction.ts:70-79 | one course step with the catalog extractor |
| `SkillExtraction.BuildProgramSkillVector` | lib/analysis/skill-extraction.ts:59-83 | the method computes the program vector, so its keys, bounds and monotonicity hold |
| `Redundancy.SignificantIds` | lib/analysis/skill-extraction.ts:85-93 | the filtered id list is no longer than its input |
| `Redundancy.SignificantIdsMembers` | lib/analysis/skill-extraction.ts:85-93 | an id is kept exactly when some entry with that id scores above the threshold |
| `Redundancy.SignificantIdsDistinct` | lib/analysis/skill-extraction.ts:85-93 | distinct input ids give distinct kept ids |
| `Redundancy.ArrayFromSkillIds` | lib/analysis/skill-extraction.ts:85-93 | the loop computes the filtered id list |
| `Redundancy.IntersectionCount` | lib/analysis/skill-extraction.ts:95-105 | the count is at most the length of the first list; it is that length when every element hits and 0 when none does, where an element hits when it occurs in the second list or is a name every object literal inherits |
| `Redundancy.IntersectionOfDistinct` | lib/analysis/skill-extraction.ts:95-105 | when the first list has no duplicates, the count is the number of its distinct elements that hit |
| `Redundancy.HitSetPlain` | lib/analysis/skill-extraction.ts:95-105 | when the first list holds no inherited name, its elements that hit are exactly those of the set intersection |
| `Redundancy.IntersectionAtMostUnion` | lib/analysis/skill-extraction.ts:95-112 | with no duplicates and no `__proto__` in the first list, the intersection count is at most the union count |
| `Redundancy.DuplicatesExceedUnion` | lib/analysis/skill-extraction.ts:95-112 | with a duplicate in the first list the intersection count (2) exceeds the union count (1) |
| `Redundancy.CountIntersection` | lib/analysis/skill-extraction.ts:95-105 | the lookup-object loops compute the intersection count, inherited names included |
| `Redundancy.CountUnion` | lib/analysis/skill-extraction.ts:107-112 | the key-object loops compute the number of distinct ids in both lists other than `__proto__` |
| `Redundancy.ObjectSetTrue` | lib/analysis/skill-extraction.ts:99-110 | storing `true` in an object literal adds the key, except `__proto__`, which leaves the object unchanged; other entries are kept |
| `Redundancy.Ratio` | lib/analysis/skill-extraction.ts:136 | the ratio is non-negative, 0 for an empty union and at most 1 when the intersection is at most the union |
| `Redundancy.JaccardBounded` | lib/analysis/skill-extraction.ts:134-136 | the Jaccard ratio lies in [0, 1] when the first list has no duplicates and no `__proto__` |
| `Redundancy.JaccardSymmetric` | lib/analysis/skill-extraction.ts:134-136 | for lists without duplicates and without inherited names the ratio does not depend on argument order |
| `Redundancy.JaccardAboveOne` | lib/analysis/skill-extraction.ts:162-164 | a duplicated token in the first title makes the ratio 2 |
| `Redundancy.JaccardConstructor` | lib/analysis/skill-extraction.ts:95-112 | a first-list token `constructor` hits without occurring in the second list: the ratio of [constructor, theory] to [advanced, algorithms] is 0.25 |
| `Redundancy.JaccardProto` | lib/analysis/skill-extraction.ts:95-112 | a `__proto__` token hits but never counts in the union: the ratio of [__proto__, basics] to [basics] is 2, and of [__proto__] to itself 0 |
| `Redundancy.JaccardAsymmetric` | lib/analysis/skill-extraction.ts:95-112 | with an inherited name the ratio depends on argument order: 0.5 one way, 0 the other |
| `Redundancy.ShortNotInherited` | lib/analysis/skill-extraction.ts:97 | no string shorter than seven characters is an inherited name |
| `Redundancy.TitleSimilarityTokenless` | lib/analysis/skill-extraction.ts:161 | the title similarity is 0 when either title has no tokens |
| `Redundancy.TitleSimilarityBounded` | lib/analysis/skill-extraction.ts:158-165 | the title similarity is non-negative, and at most 1 when the first title's tokens are distinct and none is `__proto__` |
| `Redundancy.ComputeTitleSimilarity` | lib/analysis/skill-extraction.ts:158-165 | the method computes the title similarity |
| `Redundancy.RowMembers` | lib/analysis/skill-extraction.ts:128-152 | the inner loop emits exactly what some later index j emits |
| `Redundancy.TriangleMembers` | lib/analysis/skill-extraction.ts:127-153 | the double loop emits exactly what some pair i < j emits |
| `Redundancy.RedundantPairsMembers` | lib/analysis/skill-extraction.ts:127-153 | a pair is in the unsorted list exactly when it is reported at some i < j |
| `Redundancy.RedundanciesWith` | lib/analysis/skill-extraction.ts:155 | the result is sorted by non-increasing overlap |
| `Redundancy.RedundanciesMembers` | lib/analysis/skill-extraction.ts:114-156 | sorting keeps exactly the pairs of the double loop over the active courses |
| `Redundancy.RoundedBlendAtLeast` | lib/analysis/skill-extraction.ts:145-149 | a blend above 0.4 rounds to an overlap of at least 0.4 |
| `Redundancy.RedundantPairShape` | lib/analysis/skill-extraction.ts:127-153 | each pair is (earlier, later) in the active list and has overlap at least 0.4 |
| `Redundancy.RedundanciesActive` | lib/analysis/skill-extraction.ts:126-153 | both courses of every reported pair are active input courses, and the overlap is at least 0.4 |
| `Redundancy.RedundantPairsNoMirror` | lib/analysis/skill-extraction.ts:127-128 | with distinct course ids there is no self-pair and never both (A, B) and (B, A) |
| `Redundancy.RedundanciesNoMirror` | lib/analysis/skill-extraction.ts:114-156 | the same for the sorted result |
| `Redundancy.SkillArraysOfCourse` | lib/analysis/skill-extraction.ts:121-124 | with distinct course ids each course's stored array is its own significant skill ids |
| `Redundancy.StoreSkillArray` | lib/analysis/skill-extraction.ts:122-123 | one step stores the course's significant ids under its id |
| `Redundancy.RedundantPairAt` | lib/analysis/skill-extraction.ts:129-151 | the inner body pushes the pair for (i, j), if any |
| `Redundancy.RedundantPairsWith` | lib/analysis/skill-extraction.ts:128-152 | the inner loop pushes the row for i |
| `Redundancy.RedundantPairs` | lib/analysis/skill-extraction.ts:127-153 | the double loop pushes all rows in order |
| `Redundancy.DetectRedundancy` | lib/analysis/skill-extraction.ts:114-156 | the method computes the redundancy list, so every property above holds for it |
| `Similarity.DotSymmetric` | lib/analysis/similarity.ts:16 | the dot product does not depend on argument order |
| `Similarity.DotSelfNonNegative` | lib/analysis/similarity.ts:17-18 | a squared magnitude is non-negative |
| `Similarity.DotNonNegative` | lib/analysis/similarity.ts:16 | vectors with non-negative entries have a non-negative dot product |
| `Similarity.DotSelfPositive` | lib/analysis/similarity.ts:17 | one non-zero entry makes the squared magnitude positive |
| `Similarity.DotZeroKeys` | lib/analysis/similarity.ts:13-15 | keys whose product is 0 do not change the dot product |
| `Similarity.CauchySchwarz` | lib/analysis/similarity.ts:13-19 | the squared dot product is at most the product of the squared magnitudes |
| `Similarity.SqrtZero` | lib/analysis/similarity.ts:21-22 | a square root is 0 exactly at 0 |
| `Similarity.CosineZeroMagnitude` | lib/analysis/similarity.ts:21-24 | the result is 0 when either squared magnitude is 0 |
| `Similarity.CosineSymmetric` | lib/analysis/similarity.ts:1-26 | the result does not depend on argument order |
| `Similarity.CosineOfBounded` | lib/analysis/similarity.ts:21-25 | a non-negative dot product within the Cauchy–Schwarz bound gives a result in [0, 1] |
| `Similarity.CosineBounded` | lib/analysis/similarity.ts:1-26 | for vectors with non-negative entries the result lies in [0, 1] |
| `Similarity.CosineOfSelf` | lib/analysis/similarity.ts:21-25 | equal positive dot product and magnitudes give 1 |
| `Similarity.CosineSelf` | lib/analysis/similarity.ts:1-26 | a vector with a non-zero entry has similarity 1 with itself |
| `Similarity.DotOverMoreKeys` | lib/analysis/similarity.ts:5-8 | summing over more keys than the vectors have changes nothing |
| `Similarity.CosineReadsOnlyValues` | lib/analysis/similarity.ts:5-15 | vectors that read the same under `|| 0` (for example after adding zero-valued keys) have the same similarity |
| `Similarity.KeyUnion` | lib/analysis/similarity.ts:5-8 | the key-set loops compute the union of both key sets |
| `Similarity.Accumulate` | lib/analysis/similarity.ts:9-19 | the loop computes the dot product and both squared magnitudes over the keys |
| `Similarity.CosineSimilarity` | lib/analysis/similarity.ts:1-26 | the method computes the cosine, so symmetry, bounds and the zero guard hold |
| `Similarity.TalliesSpec` | lib/analysis/similarity.ts:34-40 | a cluster gets a tally exactly when some skill has it, and the tally is the cluster's total and skill count |
| `Similarity.ClusterSizePositive` | lib/analysis/similarity.ts:34-40 | a cluster's skill count is positive exactly when some skill carries it |
| `Similarity.ClusterTotalBounded` | lib/analysis/similarity.ts:38 | with entries in [0, 1] a cluster's total lies between 0 and its skill count |
| `Similarity.CoverageSpec` | lib/analysis/similarity.ts:28-50 | a cluster is a key exactly when some skill carries it, and its value is round(100 · mean of its skills' entries) |
| `Similarity.CoverageBounded` | lib/analysis/similarity.ts:42-47 | with entries in [0, 1] every cluster's coverage lies in [0, 100] |
| `Similarity.ComputeCoverageByCluster` | lib/analysis/similarity.ts:28-50 | the method computes the coverage map, so the properties above hold |
| `Scoring.ModeMultipliers` | lib/analysis/scoring.ts:27-37 | theory and practice sum to 2; future beats market exactly outside teaching mode; theory beats practice exactly in research mode |
| `Scoring.ScaledScore` | lib/analysis/scoring.ts:55-57 | a scaled cluster score is at most 100, non-negative for non-negative inputs, 0 for raw 0, the rounded product when under the cap, and exactly 100 when the product rounds to 100 or more |
| `Scoring.CappedScore` | lib/analysis/scoring.ts:56-58 | an unscaled cluster score is the raw coverage capped at 100 |
| `Scoring.ScoresOf` | lib/analysis/scoring.ts:50-58 | all four cluster scores are at most 100 |
| `Scoring.ScoresBounded` | lib/analysis/scoring.ts:50-58 | with non-negative coverage all four scores lie in [0, 100] |
| `Scoring.MissingClusterScoresZero` | lib/analysis/scoring.ts:50-53 | a cluster missing from the coverage map scores 0 |
| `Scoring.WaiScore` | lib/analysis/scoring.ts:60-78 | the returned WAI lies in [0, 100] |
| `Scoring.CompositeOfEqual` | lib/analysis/scoring.ts:60-71 | four equal cluster scores give that score as composite, whatever the weights |
| `Scoring.WaiScoreUniform` | lib/analysis/scoring.ts:66-78 | equal cluster scores x and similarity x/100 give WAI x clamped to [0, 100] |
| `Scoring.CompositeBounded` | lib/analysis/scoring.ts:60-71 | non-negative weights with a positive sum and scores in [0, 100] give a composite in [0, 100] |
| `Scoring.WaiBlendBounded` | lib/analysis/scoring.ts:73-78 | a composite in [0, 100], a similarity in [0, 1] and a top weight in [0, 100] give a blend in [0, 100] |
| `Scoring.WaiScoreUnclamped` | lib/analysis/scoring.ts:60-78 | under those bounds the final clamp never changes the rounded blend |
| `Scoring.GapCandidates` | lib/analysis/scoring.ts:111-125 | the loop pushes no more gaps than there are skills |
| `Scoring.GapCandidatesMembers` | lib/analysis/scoring.ts:111-125 | an item is a candidate exactly when some skill has expected > 0 and coverage < 0.7 · expected, and it carries that skill's rounded values |
| `Scoring.GapOfPositive` | lib/analysis/scoring.ts:115-122 | a gap item's gap is non-negative and its coverage is at most its expected value |
| `Scoring.Gaps` | lib/analysis/scoring.ts:127 | the gap list holds the smaller of 20 and the number of candidates, sorted by non-increasing gap |
| `Scoring.GapsFromCandidates` | lib/analysis/scoring.ts:127 | the returned gaps are a sub-multiset of the candidates, and with at most 20 candidates all are returned |
| `Scoring.GapsAreLargest` | lib/analysis/scoring.ts:127 | no dropped candidate has a larger gap than a returned one |
| `Scoring.ComputeGaps` | lib/analysis/scoring.ts:104-128 | the method computes the gap list |
| `Scoring.LevelCreditsPartition` | lib/analysis/scoring.ts:132-138 | the three levels' credits sum to the total credits |
| `Scoring.LevelCreditsBounded` | lib/analysis/scoring.ts:136-138 | with non-negative credits each level's credits lie between 0 and the total |
| `Scoring.DepthBounded` | lib/analysis/scoring.ts:130-145 | with non-negative credits each depth value lies in [0, 100] |
| `Scoring.DepthSum` | lib/analysis/scoring.ts:130-145 | the three depth values sum to 99–101, and are 33/34/33 with no credits |
| `Scoring.ComputeDepthProfile` | lib/analysis/scoring.ts:130-145 | the method computes the depth profile |
| `Scoring.CourseSplit` | lib/analysis/scoring.ts:152-161 | a course's theory and practice credits sum to its credits; a basic or core course is 70% theory, an applied elective 40%, an advanced elective 50% |
| `Scoring.SplitTotalCredits` | lib/analysis/scoring.ts:151-164 | the total theory plus practice credits equals the total credits, both non-negative for non-negative credits |
| `Scoring.SplitTotalTheoryHeavy` | lib/analysis/scoring.ts:152-154 | when every course is basic or core, theory is 70% of the credits |
| `Scoring.TheoryPracticeSum` | lib/analysis/scoring.ts:164-170 | the two percentages sum to 100 or 101, and are 50/50 with no credits |
| `Scoring.TheoryPracticeBounded` | lib/analysis/scoring.ts:147-171 | with non-negative credits both percentages lie in [0, 100] |
| `Scoring.TheoryPracticeTheoryHeavy` | lib/analysis/scoring.ts:147-171 | all-basic-or-core programmes with credits give 70/30 |
| `Scoring.ComputeTheoryPracticeRatio` | lib/analysis/scoring.ts:147-171 | the method computes the ratio |
| `Scoring.OverlapSumBounds` | lib/analysis/scoring.ts:83 | overlaps of at least 0.4, at most 1 or at least 0 sum to at least 0.4n, at most n or at least 0 |
| `Scoring.RedundancyScoreOfDetected` | lib/analysis/scoring.ts:81-84 | the redundancy score is 0 with no redundant pairs, else at least 40 |
| `Scoring.RedundancyScoreAtMost` | lib/analysis/scoring.ts:81-84 | overlaps in [0, 1] give a score in [0, 100] |
| `Scoring.ComputeRedundancyScore` | lib/analysis/scoring.ts:81-84 | the reduce computes the redundancy score |
| `Scoring.AnalysisOf` | lib/analysis/scoring.ts:39-102 | the output's WAI is in [0, 100], the cluster scores are at most 100, and the gap summary has at most 20 items sorted by gap |
| `Scoring.AnalysisActiveOnly` | lib/analysis/scoring.ts:41-87 | the analysis depends only on the active courses |
| `Scoring.AnalysisRedundancy` | lib/analysis/scoring.ts:81-84 | redundant pairs name active input courses; the redundancy score is 0 with none, else at least 40 |
| `Scoring.AnalysisWaiUnclamped` | lib/analysis/scoring.ts:39-102 | with non-negative inputs the cluster scores lie in [0, 100] and the WAI is the rounded blend of composite and cosine, unclamped |
| `Scoring.CoverageNonNegative` | lib/analysis/scoring.ts:48 | with entries in [0, 1], every coverage value lies in [0, 100] |
| `Scoring.RunAnalysis` | lib/analysis/scoring.ts:39-102 | the method computes the analysis, so every property above holds |
| `Scoring.ClusterScoresOf` | lib/analysis/scoring.ts:50-58 | the method computes the four cluster scores |
| `Scoring.ComputeWaiScore` | lib/analysis/scoring.ts:60-78 | the unclamped WAI, once clamped, is the returned WAI |
| `Recommendations.Take` | lib/recommendations/engine.ts:41 | `slice(0, n)` has min(length, n) elements, the first ones |
| `Recommendations.FindSkill` | lib/recommendations/engine.ts:71-72 | `find` fails exactly when no catalog skill has the id, and otherwise returns the first one that does |
| `Recommendations.UnknownSkillNeverRelated` | lib/recommendations/engine.ts:71-72 | a gap whose skill id is not in the catalog never matches a certification |
| `Recommendations.RelatedMeansKeywordMatch` | lib/recommendations/engine.ts:73-76 | a matching gap's catalog skill has a keyword or lower-cased name that contains, or is contained in, one of the certification's skills |
| `Recommendations.ClusterOrderSpec` | lib/recommendations/engine.ts:118-127 | the key order lists each cluster that occurs among the gaps, exactly once |
| `Recommendations.GroupsPartition` | lib/recommendations/engine.ts:118-127 | the group lengths sum to the number of gaps |
| `Recommendations.GroupsMembers` | lib/recommendations/engine.ts:118-127 | a cluster has a group exactly when a gap has it, and its group holds exactly that cluster's gaps |
| `Recommendations.ClusterGapsStep` | lib/recommendations/engine.ts:124 | appending a gap appends it to its own cluster's group only, keeping input order |
| `Recommendations.GroupGapsByCluster` | lib/recommendations/engine.ts:118-127 | the loop builds, in key order, one group per occurring cluster holding that cluster's gaps in input order |
| `Recommendations.GroupGapsByClusterIsGroupsOf` | lib/recommendations/engine.ts:118-127 | that result is the grouping map |
| `Recommendations.MissingSkillRecsSpec` | lib/recommendations/engine.ts:40-51 | item i belongs to the i-th gap below 10% coverage in gap-list order, for the first 5: it links exactly that gap's skill and is critical exactly when its gap exceeds 50, else high |
| `Recommendations.MicroModuleRecsSpec` | lib/recommendations/engine.ts:53-64 | item i belongs to the i-th gap with coverage in [10, 40) in gap-list order, for the first 5: it links exactly that gap's skill and is high exactly when its gap exceeds 30, else medium |
| `Recommendations.MissingAndMicroDisjoint` | lib/recommendations/engine.ts:40-53 | no gap qualifies for both kinds, and a gap with coverage of at least 40 qualifies for neither |
| `Recommendations.CertificationRecLinks` | lib/recommendations/engine.ts:70-88 | a certification item is medium and links a non-empty set of ids: exactly the ids of the cluster's matching gaps |
| `Recommendations.CertificationRecPresent` | lib/recommendations/engine.ts:79 | a certification yields one item when some gap of its cluster matches it, else none |
| `Recommendations.ClusterCertificationRecs` | lib/recommendations/engine.ts:69-90 | at most one item per certification of the cluster |
| `Recommendations.CertificationRecsSpec` | lib/recommendations/engine.ts:66-91 | every certification item is medium, non-empty, and links only ids of gaps whose skill is in the catalog |
| `Recommendations.CurriculumRecs` | lib/recommendations/engine.ts:93-113 | exactly one `curriculum_change` item when WAI < 70: critical with the first min(n, 5) gap ids below 50, high with the first min(n, 3) from 50 to 69, and none from 70 up |
| `Recommendations.RecommendationsOrder` | lib/recommendations/engine.ts:36-115 | every item carries the analysis id, and the kinds come in the order missing skill, micro module, certification, curriculum change |
| `Recommendations.RecommendationsRanked` | lib/recommendations/engine.ts:36-115 | the same ordering holds for any certification table |
| `Recommendations.AddPerGap` | lib/recommendations/engine.ts:41-51 | a `for ... of` loop with `push` appends one item per gap, in order |
| `Recommendations.AddClusterCertifications` | lib/recommendations/engine.ts:69-90 | the loop over one cluster's certifications appends their items in table order |
| `Recommendations.AddCertifications` | lib/recommendations/engine.ts:66-91 | the loop over the grouped clusters appends each cluster's certification items in key order |
| `Recommendations.GenerateRecommendations` | lib/recommendations/engine.ts:36-116 | the method computes the recommendation list, so every property above holds |

## Left out

- IEEE-754 arithmetic: numbers are exact reals, so rounding artefacts such as `Math.round(x * 100) / 100` or `expected * 0.7` are not reproduced.
- Scoring.RunAnalysis: requires the four cluster weights not to sum to 0. The source divides by that sum and yields NaN, which the real-number model has no value for.
- `Math.sqrt` is a parameter of the model. Results about the cosine require that it is a true square root at the two squared magnitudes.
- `toLowerCase` is modelled for ASCII letters only. `\w` is `[A-Za-z0-9_]` and `\s` is the ECMAScript whitespace set written out. Unicode case mapping is left out.
- Program-mode, cluster, level and category strings outside the enumerations of `types/database.ts` are left out. So the `default:` branch of `getModeMultipliers` is reachable only as `teaching`, and the `|| []` fallback for clusters missing from `CERTIFICATION_MAP` never applies.
- Scoring.ModeMultipliers: the contract states the relations between the four multipliers, not their values. The values are the literals of the switch.
- Recommendation `title`, `title_ar` and `description` texts, and the `id` and `created_at` columns, are display or storage fields. They are not modelled.
- Course and skill fields the engine never reads (`program_id`, `semester`, `description` of a skill, `source`, `weight_default`, timestamps) are dropped.
- The `theory` and `practice` mode multipliers are modelled as data, but `runAnalysis` never reads them, so no score depends on them.
- Gap items carry `coverage`, `benchmark_expected` and `gap` as integers, since `computeGaps` rounds them. `generateRecommendations` takes `waiScore` as an integer, as `runAnalysis` produces it.
- The analysis input's benchmark is reduced to its `skill_profile_json` vector, the only field `runAnalysis` reads.
- Recommendations.CertificationRecLinks: states the linked ids as a set, both directions, not their order. The order is that of the cluster's gaps, by construction.
- Recommendations.AddCertifications: receives the certification table as a function parameter, so the loop is proved for any table. GenerateRecommendations passes the constant table.
- Sorting is modelled as one stable sort, the one ECMAScript 2019 requires. Clients rely only on "sorted and a permutation".
- Skill and course ids used as keys of the object literals `vector` (lib/analysis/skill-extraction.ts:63), `keySet` (lib/analysis/similarity.ts:5) and `courseSkillArrays` (lib/analysis/skill-extraction.ts:119) are modelled as `map` keys with no inherited entries. An id equal to an Object.prototype property name, which database ids are not, is left out there.
- `detectRedundancy` stores skill arrays for every course, active or not, keyed by course id. As in the source, a later course with the same id overwrites an earlier one. Properties that need each course's own array assume distinct course ids.
