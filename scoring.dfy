/**
 * The scoring orchestrator (lib/analysis/scoring.ts): the program-mode
 * multipliers, the capped cluster scores, the weighted composite blended with
 * the overall cosine similarity into the WAI score, the gap list, the depth
 * profile, the theory/practice split, the redundancy score, and runAnalysis,
 * which composes them over the active courses.
 */
module Scoring {
  import opened Records
  import opened Numeric
  import opened Sorting
  import opened SkillExtraction
  import opened Redundancy
  import opened Similarity

  // ---------------------------------------------------------------------------
  // getModeMultipliers

  datatype Multipliers = Multipliers(theory: real, practice: real, future: real, market: real)

  /** The multiplier table; `teaching` is also the `default` branch. */
  function ModeMultipliers(mode: ProgramMode): (m: Multipliers)
    ensures m.theory + m.practice == 2.0
    ensures m.future > 0.0 && m.market > 0.0
    ensures m.future > m.market <==> mode != Teaching
    ensures m.theory > m.practice <==> mode == Research
  {
    match mode
    case Research => Multipliers(1.2, 0.8, 1.3, 0.7)
    case Hybrid => Multipliers(1.0, 1.0, 1.1, 0.9)
    case Teaching => Multipliers(0.8, 1.2, 0.9, 1.3)
  }

  // ---------------------------------------------------------------------------
  // Cluster scores

  /** `coverageByCluster[cluster] || 0`. */
  function RawScore(coverage: map<SkillCluster, int>, c: SkillCluster): int {
    if c in coverage then coverage[c] else 0
  }

  /** `Math.min(Math.round(raw * multiplier), 100)`. */
  function ScaledScore(raw: int, multiplier: real): (r: int)
    ensures r <= 100
    ensures raw >= 0 && multiplier >= 0.0 ==> r >= 0
    ensures r < 100 ==> Mul(raw as real, multiplier) - 0.5 < r as real <= Mul(raw as real, multiplier) + 0.5
    ensures raw == 0 ==> r == 0
    ensures r == 100 <==> Mul(raw as real, multiplier) + 0.5 >= 100.0
  {
    if raw >= 0 && multiplier >= 0.0 then
      ProductNonNegative(raw as real, multiplier);
      MinInt(Round(Mul(raw as real, multiplier)), 100)
    else
      MinInt(Round(Mul(raw as real, multiplier)), 100)
  }

  /** `Math.min(Math.round(raw), 100)`: an integer percentage capped at 100. */
  function CappedScore(raw: int): (r: int)
    ensures r == MinInt(raw, 100)
  {
    RoundInteger(raw);
    MinInt(Round(raw as real), 100)
  }

  datatype ClusterScores = ClusterScores(market: int, core: int, future: int, soft: int)

  /** The four cluster scores of runAnalysis. */
  function ScoresOf(coverage: map<SkillCluster, int>, m: Multipliers): (s: ClusterScores)
    ensures s.market <= 100 && s.core <= 100 && s.future <= 100 && s.soft <= 100
  {
    ClusterScores(
      ScaledScore(RawScore(coverage, MarketSkills), m.market),
      CappedScore(RawScore(coverage, CoreAcademic)),
      ScaledScore(RawScore(coverage, FutureSkills), m.future),
      CappedScore(RawScore(coverage, SoftSkills)))
  }

  /** Every score lies in [0, 100] for one of the mode tables and coverage values that are not negative. */
  lemma ScoresBounded(coverage: map<SkillCluster, int>, mode: ProgramMode)
    requires forall c :: c in coverage ==> coverage[c] >= 0
    ensures var s := ScoresOf(coverage, ModeMultipliers(mode));
      0 <= s.market <= 100 && 0 <= s.core <= 100 && 0 <= s.future <= 100 && 0 <= s.soft <= 100
  {
  }

  /** A cluster missing from the coverage reads as 0 and scores 0. */
  lemma MissingClusterScoresZero(coverage: map<SkillCluster, int>, m: Multipliers)
    ensures MarketSkills !in coverage ==> ScoresOf(coverage, m).market == 0
    ensures CoreAcademic !in coverage ==> ScoresOf(coverage, m).core == 0
    ensures FutureSkills !in coverage ==> ScoresOf(coverage, m).future == 0
    ensures SoftSkills !in coverage ==> ScoresOf(coverage, m).soft == 0
  {
  }

  // ---------------------------------------------------------------------------
  // The composite and the WAI score

  function TotalWeight(w: ScoringWeights): real {
    w.marketSkillsWeight + w.coreSkillsWeight + w.futureSkillsWeight + w.softSkillsWeight
  }

  /** The numerator of `clusterComposite`. */
  function WeightedSum(s: ClusterScores, w: ScoringWeights): real {
    Mul(s.market as real, w.marketSkillsWeight) + Mul(s.core as real, w.coreSkillsWeight)
      + Mul(s.future as real, w.futureSkillsWeight) + Mul(s.soft as real, w.softSkillsWeight)
  }

  /** `clusterComposite`: the weighted mean of the four cluster scores. */
  function Composite(s: ClusterScores, w: ScoringWeights): real
    requires TotalWeight(w) != 0.0
  {
    WeightedSum(s, w) / TotalWeight(w)
  }

  /** The argument of Math.round in `waiScore`: the composite and `similarity * 100`, blended by the top weight. */
  function WaiBlend(composite: real, similarity: real, topWeight: real): real {
    (Mul(composite, 100.0 - topWeight) + Mul(similarity * 100.0, topWeight)) / 100.0
  }

  /** The returned `waiScore`: the rounded blend, clamped to [0, 100]. */
  function WaiScore(s: ClusterScores, similarity: real, w: ScoringWeights): (r: int)
    requires TotalWeight(w) != 0.0
    ensures 0 <= r <= 100
  {
    Clamp(Round(WaiBlend(Composite(s, w), similarity, w.waiTopWeight)), 0, 100)
  }

  /** Equal cluster scores `x` have the weighted mean `x`, whatever the weights. */
  lemma CompositeOfEqual(s: ClusterScores, w: ScoringWeights, x: int)
    requires TotalWeight(w) != 0.0
    requires s.market == x && s.core == x && s.future == x && s.soft == x
    ensures Composite(s, w) == x as real
  {
    var t := TotalWeight(w);
    assert WeightedSum(s, w) == Mul(x as real, t);
    assert Mul(x as real, t) / t == x as real;
  }

  /** When every cluster score and the similarity percentage are the same `x`, the WAI score is `x`, clamped. */
  lemma WaiScoreUniform(s: ClusterScores, similarity: real, w: ScoringWeights, x: int)
    requires TotalWeight(w) != 0.0
    requires s.market == x && s.core == x && s.future == x && s.soft == x
    requires similarity * 100.0 == x as real
    ensures WaiScore(s, similarity, w) == Clamp(x, 0, 100)
  {
    CompositeOfEqual(s, w, x);
    var top := w.waiTopWeight;
    assert Mul(x as real, 100.0 - top) + Mul(x as real, top) == 100.0 * x as real;
    assert WaiBlend(x as real, similarity, top) == x as real;
    RoundInteger(x);
  }

  lemma QuotientWithin(x: real, t: real)
    requires t > 0.0 && 0.0 <= x <= 100.0 * t
    ensures 0.0 <= x / t <= 100.0
  {
  }

  /** Non-negative weights with a positive sum keep the composite of scores in [0, 100] within [0, 100]. */
  lemma CompositeBounded(s: ClusterScores, w: ScoringWeights)
    requires w.marketSkillsWeight >= 0.0 && w.coreSkillsWeight >= 0.0
    requires w.futureSkillsWeight >= 0.0 && w.softSkillsWeight >= 0.0
    requires TotalWeight(w) > 0.0
    requires 0 <= s.market <= 100 && 0 <= s.core <= 100 && 0 <= s.future <= 100 && 0 <= s.soft <= 100
    ensures 0.0 <= Composite(s, w) <= 100.0
  {
    ProductNonNegative(s.market as real, w.marketSkillsWeight);
    ProductNonNegative(s.core as real, w.coreSkillsWeight);
    ProductNonNegative(s.future as real, w.futureSkillsWeight);
    ProductNonNegative(s.soft as real, w.softSkillsWeight);
    ProductMonotone(s.market as real, 100.0, w.marketSkillsWeight);
    ProductMonotone(s.core as real, 100.0, w.coreSkillsWeight);
    ProductMonotone(s.future as real, 100.0, w.futureSkillsWeight);
    ProductMonotone(s.soft as real, 100.0, w.softSkillsWeight);
    QuotientWithin(WeightedSum(s, w), TotalWeight(w));
  }

  /** A composite and a similarity percentage in [0, 100], blended by a top weight in [0, 100], stay in [0, 100]. */
  lemma WaiBlendBounded(composite: real, similarity: real, topWeight: real)
    requires 0.0 <= composite <= 100.0 && 0.0 <= similarity <= 1.0 && 0.0 <= topWeight <= 100.0
    ensures 0.0 <= WaiBlend(composite, similarity, topWeight) <= 100.0
  {
    ProductNonNegative(composite, 100.0 - topWeight);
    ProductNonNegative(similarity * 100.0, topWeight);
    ProductMonotone(composite, 100.0, 100.0 - topWeight);
    ProductMonotone(similarity * 100.0, 100.0, topWeight);
  }

  /** With such weights, scores and similarity the clamp never binds: the WAI score is the rounded blend. */
  lemma WaiScoreUnclamped(s: ClusterScores, similarity: real, w: ScoringWeights)
    requires w.marketSkillsWeight >= 0.0 && w.coreSkillsWeight >= 0.0
    requires w.futureSkillsWeight >= 0.0 && w.softSkillsWeight >= 0.0
    requires TotalWeight(w) > 0.0 && 0.0 <= w.waiTopWeight <= 100.0
    requires 0 <= s.market <= 100 && 0 <= s.core <= 100 && 0 <= s.future <= 100 && 0 <= s.soft <= 100
    requires 0.0 <= similarity <= 1.0
    ensures WaiScore(s, similarity, w) == Round(WaiBlend(Composite(s, w), similarity, w.waiTopWeight))
  {
    CompositeBounded(s, w);
    WaiBlendBounded(Composite(s, w), similarity, w.waiTopWeight);
    RoundWithin(WaiBlend(Composite(s, w), similarity, w.waiTopWeight), 0, 100);
  }

  // ---------------------------------------------------------------------------
  // computeGaps

  function GapKey(g: GapItem): real { g.gap as real }

  /** The gap test of computeGaps. */
  predicate IsGap(coverage: real, expected: real) {
    expected > 0.0 && coverage < expected * 0.7
  }

  /** The item pushed for a skill with the given coverage and benchmark expectation. */
  function GapOf(skill: Skill, coverage: real, expected: real): GapItem {
    GapItem(skill.id, skill.name, skill.cluster,
      Round(coverage * 100.0), Round(expected * 100.0), Round((expected - coverage) * 100.0))
  }

  /** `gaps` after the loop over the given skills, before sorting. */
  function GapCandidates(programVector: Vector, benchmarkVector: Vector, skills: seq<Skill>): (r: seq<GapItem>)
    ensures |r| <= |skills|
  {
    if skills == [] then []
    else
      var skill := skills[|skills| - 1];
      var coverage := Get(programVector, skill.id);
      var expected := Get(benchmarkVector, skill.id);
      GapCandidates(programVector, benchmarkVector, skills[..|skills| - 1])
        + (if IsGap(coverage, expected) then [GapOf(skill, coverage, expected)] else [])
  }

  /** computeGaps: the candidates sorted by non-increasing gap, first 20. */
  function Gaps(programVector: Vector, benchmarkVector: Vector, skills: seq<Skill>): (r: seq<GapItem>)
    ensures |r| == MinInt(|GapCandidates(programVector, benchmarkVector, skills)|, 20)
    ensures SortedDesc(r, GapKey)
  {
    var sorted := SortDesc(GapCandidates(programVector, benchmarkVector, skills), GapKey);
    sorted[..MinInt(|sorted|, 20)]
  }

  /** A skill's gap is listed exactly when the skill passes the gap test. */
  lemma {:induction false} GapCandidatesMembers(programVector: Vector, benchmarkVector: Vector, skills: seq<Skill>, g: GapItem)
    ensures g in GapCandidates(programVector, benchmarkVector, skills) <==>
      exists k :: 0 <= k < |skills| &&
        IsGap(Get(programVector, skills[k].id), Get(benchmarkVector, skills[k].id)) &&
        g == GapOf(skills[k], Get(programVector, skills[k].id), Get(benchmarkVector, skills[k].id))
    decreases |skills|
  {
    if skills != [] {
      var prefix := skills[..|skills| - 1];
      GapCandidatesMembers(programVector, benchmarkVector, prefix, g);
      assert forall k :: 0 <= k < |prefix| ==> prefix[k] == skills[k];
    }
  }

  /** A listed gap is never negative and its coverage does not exceed its expectation. */
  lemma GapOfPositive(skill: Skill, coverage: real, expected: real)
    requires IsGap(coverage, expected)
    ensures GapOf(skill, coverage, expected).gap >= 0
    ensures GapOf(skill, coverage, expected).coverage <= GapOf(skill, coverage, expected).benchmarkExpected
  {
    RoundMonotone(coverage * 100.0, expected * 100.0);
  }

  /** Every reported gap is a candidate; with at most 20 candidates, all of them are reported. */
  lemma GapsFromCandidates(programVector: Vector, benchmarkVector: Vector, skills: seq<Skill>, g: GapItem)
    ensures g in Gaps(programVector, benchmarkVector, skills) ==> g in GapCandidates(programVector, benchmarkVector, skills)
    ensures multiset(Gaps(programVector, benchmarkVector, skills)) <= multiset(GapCandidates(programVector, benchmarkVector, skills))
    ensures |GapCandidates(programVector, benchmarkVector, skills)| <= 20 ==>
      multiset(Gaps(programVector, benchmarkVector, skills)) == multiset(GapCandidates(programVector, benchmarkVector, skills))
  {
    var candidates := GapCandidates(programVector, benchmarkVector, skills);
    var sorted := SortDesc(candidates, GapKey);
    SortDescMembers(candidates, GapKey, g);
    assert |sorted| <= 20 ==> sorted[..MinInt(|sorted|, 20)] == sorted;
    assert sorted == sorted[..MinInt(|sorted|, 20)] + sorted[MinInt(|sorted|, 20)..];
  }

  /** A candidate left out of the 20 has a gap no larger than any reported one. */
  lemma GapsAreLargest(programVector: Vector, benchmarkVector: Vector, skills: seq<Skill>, x: GapItem, y: GapItem)
    requires x in Gaps(programVector, benchmarkVector, skills)
    requires y in GapCandidates(programVector, benchmarkVector, skills) && y !in Gaps(programVector, benchmarkVector, skills)
    ensures x.gap >= y.gap
  {
    var candidates := GapCandidates(programVector, benchmarkVector, skills);
    var sorted := SortDesc(candidates, GapKey);
    var n := MinInt(|sorted|, 20);
    SortDescMembers(candidates, GapKey, y);
    var j :| 0 <= j < |sorted| && sorted[j] == y;
    var i :| 0 <= i < n && sorted[i] == x;
    assert forall k :: 0 <= k < n ==> sorted[k] in sorted[..n];
    assert GapKey(sorted[i]) >= GapKey(sorted[j]);
  }

  /** computeGaps. */
  method ComputeGaps(programVector: Vector, benchmarkVector: Vector, skills: seq<Skill>) returns (r: seq<GapItem>)
    ensures r == Gaps(programVector, benchmarkVector, skills)
  {
    var gaps: seq<GapItem> := [];
    for i := 0 to |skills|
      invariant gaps == GapCandidates(programVector, benchmarkVector, skills[..i])
    {
      assert skills[..i + 1][..i] == skills[..i];
      var skill := skills[i];
      var coverage := Get(programVector, skill.id);
      var expected := Get(benchmarkVector, skill.id);
      if expected > 0.0 && coverage < expected * 0.7 {
        gaps := gaps + [GapItem(skill.id, skill.name, skill.cluster,
          Round(coverage * 100.0), Round(expected * 100.0), Round((expected - coverage) * 100.0))];
      }
    }
    assert skills[..|skills|] == skills;
    var sorted := SortDesc(gaps, GapKey);
    r := sorted[..MinInt(|sorted|, 20)];
  }

  // ---------------------------------------------------------------------------
  // computeDepthProfile

  datatype DepthProfile = DepthProfile(basic: int, applied: int, advanced: int)

  /** `courses.reduce((sum, c) => sum + c.credits, 0)`. */
  function TotalCredits(courses: seq<Course>): real {
    if courses == [] then 0.0 else TotalCredits(courses[..|courses| - 1]) + courses[|courses| - 1].credits
  }

  /** `profile[level]`: the credits of the courses at that level. */
  function LevelCredits(courses: seq<Course>, level: CourseLevel): real {
    if courses == [] then 0.0
    else
      var course := courses[|courses| - 1];
      LevelCredits(courses[..|courses| - 1], level) + (if course.level == level then course.credits else 0.0)
  }

  /** `Math.round((part / total) * 100)`. */
  function Percent(part: real, total: real): int
    requires total != 0.0
  {
    Round((part / total) * 100.0)
  }

  /** computeDepthProfile's result. */
  function Depth(courses: seq<Course>): DepthProfile {
    var total := TotalCredits(courses);
    if total == 0.0 then DepthProfile(33, 34, 33)
    else DepthProfile(
      Percent(LevelCredits(courses, Basic), total),
      Percent(LevelCredits(courses, Applied), total),
      Percent(LevelCredits(courses, Advanced), total))
  }

  /** The three levels split the total credits. */
  lemma {:induction false} LevelCreditsPartition(courses: seq<Course>)
    ensures LevelCredits(courses, Basic) + LevelCredits(courses, Applied) + LevelCredits(courses, Advanced)
      == TotalCredits(courses)
    decreases |courses|
  {
    if courses != [] {
      LevelCreditsPartition(courses[..|courses| - 1]);
    }
  }

  /** With non-negative credits, a level's credits lie between 0 and the total. */
  lemma {:induction false} LevelCreditsBounded(courses: seq<Course>, level: CourseLevel)
    requires forall i :: 0 <= i < |courses| ==> courses[i].credits >= 0.0
    ensures 0.0 <= LevelCredits(courses, level) <= TotalCredits(courses)
    decreases |courses|
  {
    if courses != [] {
      var prefix := courses[..|courses| - 1];
      assert forall i :: 0 <= i < |prefix| ==> prefix[i] == courses[i];
      LevelCreditsBounded(prefix, level);
    }
  }

  lemma PercentBounded(part: real, total: real)
    requires 0.0 <= part <= total && total > 0.0
    ensures 0 <= Percent(part, total) <= 100
  {
    QuotientAtMostOne(part, total);
    RoundWithin((part / total) * 100.0, 0, 100);
  }

  /** With non-negative credits every depth value lies in [0, 100]. */
  lemma DepthBounded(courses: seq<Course>)
    requires forall i :: 0 <= i < |courses| ==> courses[i].credits >= 0.0
    ensures var d := Depth(courses); 0 <= d.basic <= 100 && 0 <= d.applied <= 100 && 0 <= d.advanced <= 100
  {
    var total := TotalCredits(courses);
    if total != 0.0 {
      LevelCreditsBounded(courses, Basic);
      LevelCreditsBounded(courses, Applied);
      LevelCreditsBounded(courses, Advanced);
      PercentBounded(LevelCredits(courses, Basic), total);
      PercentBounded(LevelCredits(courses, Applied), total);
      PercentBounded(LevelCredits(courses, Advanced), total);
    }
  }

  /** The three shares of a split total sum to 100 before rounding. */
  lemma SharesOfWhole(a: real, b: real, c: real, total: real)
    requires total != 0.0 && a + b + c == total
    ensures (a / total) * 100.0 + (b / total) * 100.0 + (c / total) * 100.0 == 100.0
  {
    assert a / total + b / total + c / total == (a + b + c) / total;
  }

  /** The three rounded percentages add up to 100 give or take 1 (and are exactly 100 with no credits). */
  lemma DepthSum(courses: seq<Course>)
    ensures var d := Depth(courses); 99 <= d.basic + d.applied + d.advanced <= 101
    ensures TotalCredits(courses) == 0.0 ==> Depth(courses) == DepthProfile(33, 34, 33)
  {
    var total := TotalCredits(courses);
    if total != 0.0 {
      LevelCreditsPartition(courses);
      SharesOfWhole(LevelCredits(courses, Basic), LevelCredits(courses, Applied), LevelCredits(courses, Advanced), total);
    }
  }

  /** computeDepthProfile. */
  method ComputeDepthProfile(courses: seq<Course>) returns (d: DepthProfile)
    ensures d == Depth(courses)
  {
    var totalCredits := 0.0;
    for i := 0 to |courses|
      invariant totalCredits == TotalCredits(courses[..i])
    {
      assert courses[..i + 1][..i] == courses[..i];
      totalCredits := totalCredits + courses[i].credits;
    }
    assert courses[..|courses|] == courses;
    if totalCredits == 0.0 {
      return DepthProfile(33, 34, 33);
    }
    var profile: map<CourseLevel, real> := map[Basic := 0.0, Applied := 0.0, Advanced := 0.0];
    for i := 0 to |courses|
      invariant Basic in profile && Applied in profile && Advanced in profile
      invariant forall level :: level in profile ==> profile[level] == LevelCredits(courses[..i], level)
    {
      assert courses[..i + 1][..i] == courses[..i];
      var course := courses[i];
      var before := if course.level in profile then profile[course.level] else 0.0;
      profile := profile[course.level := before + course.credits];
    }
    assert courses[..|courses|] == courses;
    d := DepthProfile(
      Round((profile[Basic] / totalCredits) * 100.0),
      Round((profile[Applied] / totalCredits) * 100.0),
      Round((profile[Advanced] / totalCredits) * 100.0));
  }

  // ---------------------------------------------------------------------------
  // computeTheoryPracticeRatio

  datatype Split = Split(theory: real, practice: real)

  /** A course's theory and practice credits: 70/30 for basic or core courses, else 40/60 for applied, else 50/50. */
  function CourseSplit(course: Course): (s: Split)
    ensures s.theory + s.practice == course.credits
    ensures course.credits >= 0.0 ==> s.theory >= 0.0 && s.practice >= 0.0
    ensures course.category == Core ==> s.theory == course.credits * 0.7
    ensures course.level == Basic ==> s.theory == course.credits * 0.7
    ensures course.level == Applied && course.category != Core ==> s.theory == course.credits * 0.4
    ensures course.level == Advanced && course.category != Core ==> s.theory == course.credits * 0.5
  {
    if course.level == Basic || course.category == Core then Split(course.credits * 0.7, course.credits * 0.3)
    else if course.level == Applied then Split(course.credits * 0.4, course.credits * 0.6)
    else Split(course.credits * 0.5, course.credits * 0.5)
  }

  /** `theoryCredits` and `practiceCredits` after the loop over the given courses. */
  function SplitTotal(courses: seq<Course>): Split {
    if courses == [] then Split(0.0, 0.0)
    else
      var prev := SplitTotal(courses[..|courses| - 1]);
      var s := CourseSplit(courses[|courses| - 1]);
      Split(prev.theory + s.theory, prev.practice + s.practice)
  }

  /** Every credit goes to theory or to practice. */
  lemma {:induction false} SplitTotalCredits(courses: seq<Course>)
    ensures SplitTotal(courses).theory + SplitTotal(courses).practice == TotalCredits(courses)
    ensures (forall i :: 0 <= i < |courses| ==> courses[i].credits >= 0.0) ==>
      SplitTotal(courses).theory >= 0.0 && SplitTotal(courses).practice >= 0.0
    decreases |courses|
  {
    if courses != [] {
      var prefix := courses[..|courses| - 1];
      assert forall i :: 0 <= i < |prefix| ==> prefix[i] == courses[i];
      SplitTotalCredits(prefix);
    }
  }

  /** When every course is basic or core, the theory credits are 70% of the total. */
  lemma {:induction false} SplitTotalTheoryHeavy(courses: seq<Course>)
    requires forall i :: 0 <= i < |courses| ==> courses[i].level == Basic || courses[i].category == Core
    ensures SplitTotal(courses).theory == TotalCredits(courses) * 0.7
    decreases |courses|
  {
    if courses != [] {
      var prefix := courses[..|courses| - 1];
      assert forall i :: 0 <= i < |prefix| ==> prefix[i] == courses[i];
      SplitTotalTheoryHeavy(prefix);
    }
  }

  datatype TheoryPractice = TheoryPractice(theory: int, practice: int)

  /** computeTheoryPracticeRatio's result. */
  function TheoryPracticeRatio(courses: seq<Course>): TheoryPractice {
    var s := SplitTotal(courses);
    var total := s.theory + s.practice;
    if total == 0.0 then TheoryPractice(50, 50)
    else TheoryPractice(Percent(s.theory, total), Percent(s.practice, total))
  }

  /** The second of two shares of a total, as a percentage, is 100 minus the first. */
  lemma ShareComplement(a: real, b: real)
    requires a + b != 0.0
    ensures (b / (a + b)) * 100.0 == 100.0 - (a / (a + b)) * 100.0
  {
    var t := a + b;
    assert a / t + b / t == (a + b) / t;
    assert t / t == 1.0;
  }

  lemma RoundComplement(x: real)
    ensures 100 <= Round(x) + Round(100.0 - x) <= 101
  {
  }

  /** Two shares of one total round to 100 or, when both end in exactly .5, to 101. */
  lemma TwoSharesSum(a: real, b: real)
    requires a + b != 0.0
    ensures 100 <= Percent(a, a + b) + Percent(b, a + b) <= 101
  {
    ShareComplement(a, b);
    RoundComplement((a / (a + b)) * 100.0);
  }

  /** The two percentages sum to 100 or 101; with no credits they are 50/50. */
  lemma TheoryPracticeSum(courses: seq<Course>)
    ensures var r := TheoryPracticeRatio(courses); 100 <= r.theory + r.practice <= 101
    ensures TotalCredits(courses) == 0.0 ==> TheoryPracticeRatio(courses) == TheoryPractice(50, 50)
  {
    var s := SplitTotal(courses);
    SplitTotalCredits(courses);
    if s.theory + s.practice != 0.0 {
      TwoSharesSum(s.theory, s.practice);
    }
  }

  /** With non-negative credits both percentages lie in [0, 100]. */
  lemma TheoryPracticeBounded(courses: seq<Course>)
    requires forall i :: 0 <= i < |courses| ==> courses[i].credits >= 0.0
    ensures var r := TheoryPracticeRatio(courses); 0 <= r.theory <= 100 && 0 <= r.practice <= 100
  {
    var s := SplitTotal(courses);
    SplitTotalCredits(courses);
    if s.theory + s.practice != 0.0 {
      PercentBounded(s.theory, s.theory + s.practice);
      PercentBounded(s.practice, s.theory + s.practice);
    }
  }

  /** A program of basic or core courses only, with some credits, is 70% theory and 30% practice. */
  lemma TheoryPracticeTheoryHeavy(courses: seq<Course>)
    requires forall i :: 0 <= i < |courses| ==> courses[i].level == Basic || courses[i].category == Core
    requires TotalCredits(courses) != 0.0
    ensures TheoryPracticeRatio(courses) == TheoryPractice(70, 30)
  {
    var s := SplitTotal(courses);
    var total := TotalCredits(courses);
    SplitTotalCredits(courses);
    SplitTotalTheoryHeavy(courses);
    ScaledShare(total, 0.7);
    ScaledShare(total, 0.3);
  }

  lemma ScaledShare(t: real, c: real)
    requires t != 0.0
    ensures (t * c) / t == c
  {
  }

  /** computeTheoryPracticeRatio. */
  method ComputeTheoryPracticeRatio(courses: seq<Course>) returns (r: TheoryPractice)
    ensures r == TheoryPracticeRatio(courses)
  {
    var theoryCredits := 0.0;
    var practiceCredits := 0.0;
    for i := 0 to |courses|
      invariant Split(theoryCredits, practiceCredits) == SplitTotal(courses[..i])
    {
      assert courses[..i + 1][..i] == courses[..i];
      var course := courses[i];
      if course.level == Basic || course.category == Core {
        theoryCredits := theoryCredits + course.credits * 0.7;
        practiceCredits := practiceCredits + course.credits * 0.3;
      } else if course.level == Applied {
        theoryCredits := theoryCredits + course.credits * 0.4;
        practiceCredits := practiceCredits + course.credits * 0.6;
      } else {
        theoryCredits := theoryCredits + course.credits * 0.5;
        practiceCredits := practiceCredits + course.credits * 0.5;
      }
    }
    assert courses[..|courses|] == courses;
    var total := theoryCredits + practiceCredits;
    if total == 0.0 {
      return TheoryPractice(50, 50);
    }
    r := TheoryPractice(Round((theoryCredits / total) * 100.0), Round((practiceCredits / total) * 100.0));
  }

  // ---------------------------------------------------------------------------
  // redundancyScore

  /** `redundantCourses.reduce((sum, r) => sum + r.overlap, 0)`. */
  function OverlapSum(pairs: seq<RedundantPair>): real {
    if pairs == [] then 0.0 else OverlapSum(pairs[..|pairs| - 1]) + pairs[|pairs| - 1].overlap
  }

  /** `redundancyScore`: the mean overlap as a rounded percentage, 0 with no pairs. */
  function RedundancyScore(pairs: seq<RedundantPair>): int {
    if |pairs| > 0 then Round(OverlapSum(pairs) / |pairs| as real * 100.0) else 0
  }

  /** Overlaps of at least 0.4 sum to at least 0.4 per pair; overlaps of at most 1 to at most 1 per pair. */
  lemma {:induction false} OverlapSumBounds(pairs: seq<RedundantPair>)
    ensures (forall k :: 0 <= k < |pairs| ==> pairs[k].overlap >= 0.4) ==> OverlapSum(pairs) >= 0.4 * |pairs| as real
    ensures (forall k :: 0 <= k < |pairs| ==> pairs[k].overlap <= 1.0) ==> OverlapSum(pairs) <= |pairs| as real
    ensures (forall k :: 0 <= k < |pairs| ==> pairs[k].overlap >= 0.0) ==> OverlapSum(pairs) >= 0.0
    decreases |pairs|
  {
    if pairs != [] {
      var prefix := pairs[..|pairs| - 1];
      assert forall k :: 0 <= k < |prefix| ==> prefix[k] == pairs[k];
      OverlapSumBounds(prefix);
    }
  }

  lemma MeanAtLeast(sum: real, n: real)
    requires n > 0.0 && sum >= 0.4 * n
    ensures sum / n * 100.0 >= 40.0
  {
  }

  /** Every reported pair overlaps by at least 0.4, so any redundancy at all scores at least 40. */
  lemma RedundancyScoreOfDetected(courses: seq<Course>, skills: seq<Skill>)
    ensures Redundancies(courses, skills) == [] ==> RedundancyScore(Redundancies(courses, skills)) == 0
    ensures Redundancies(courses, skills) != [] ==> RedundancyScore(Redundancies(courses, skills)) >= 40
  {
    var pairs := Redundancies(courses, skills);
    forall k | 0 <= k < |pairs|
      ensures pairs[k].overlap >= 0.4
    {
      RedundanciesActive(courses, CatalogExtractor(skills), pairs[k]);
    }
    OverlapSumBounds(pairs);
    if pairs != [] {
      MeanAtLeast(OverlapSum(pairs), |pairs| as real);
      RoundMonotone(40.0, OverlapSum(pairs) / |pairs| as real * 100.0);
      RoundInteger(40);
    }
  }

  /** Overlaps of at most 1 keep the redundancy score at most 100. */
  lemma RedundancyScoreAtMost(pairs: seq<RedundantPair>)
    requires forall k :: 0 <= k < |pairs| ==> 0.0 <= pairs[k].overlap <= 1.0
    ensures 0 <= RedundancyScore(pairs) <= 100
  {
    OverlapSumBounds(pairs);
    if pairs != [] {
      var n := |pairs| as real;
      QuotientAtMostOne(OverlapSum(pairs), n);
      RoundWithin(OverlapSum(pairs) / n * 100.0, 0, 100);
    }
  }

  /** The redundancyScore expression, over the pairs detectRedundancy returned. */
  method ComputeRedundancyScore(redundantCourses: seq<RedundantPair>) returns (score: int)
    ensures score == RedundancyScore(redundantCourses)
  {
    if |redundantCourses| == 0 {
      return 0;
    }
    var sum := 0.0;
    for i := 0 to |redundantCourses|
      invariant sum == OverlapSum(redundantCourses[..i])
    {
      assert redundantCourses[..i + 1][..i] == redundantCourses[..i];
      sum := sum + redundantCourses[i].overlap;
    }
    assert redundantCourses[..|redundantCourses|] == redundantCourses;
    score := Round(sum / |redundantCourses| as real * 100.0);
  }

  // ---------------------------------------------------------------------------
  // runAnalysis

  datatype AnalysisOutput = AnalysisOutput(
    waiScore: int,
    marketSkillsScore: int,
    coreSkillsScore: int,
    futureSkillsScore: int,
    softSkillsScore: int,
    coverageScore: map<SkillCluster, int>,
    gapSummary: seq<GapItem>,
    redundancyScore: int,
    theoryPracticeRatio: TheoryPractice,
    depthProfile: DepthProfile,
    redundantCourses: seq<RedundantPair>)

  /** runAnalysis's result, given the active courses, the program vector, the overall similarity and the detected pairs. */
  function AnalysisOf(active: seq<Course>, skills: seq<Skill>, benchmarkVector: Vector, weights: ScoringWeights,
                      mode: ProgramMode, programVector: Vector, similarity: real, redundant: seq<RedundantPair>): (r: AnalysisOutput)
    requires TotalWeight(weights) != 0.0
    ensures 0 <= r.waiScore <= 100
    ensures r.marketSkillsScore <= 100 && r.coreSkillsScore <= 100 && r.futureSkillsScore <= 100 && r.softSkillsScore <= 100
    ensures |r.gapSummary| <= 20 && SortedDesc(r.gapSummary, GapKey)
  {
    var coverage := Coverage(programVector, skills);
    var s := ScoresOf(coverage, ModeMultipliers(mode));
    AnalysisOutput(WaiScore(s, similarity, weights), s.market, s.core, s.future, s.soft, coverage,
      Gaps(programVector, benchmarkVector, skills), RedundancyScore(redundant),
      TheoryPracticeRatio(active), Depth(active), redundant)
  }

  /** runAnalysis(courses, skills, benchmark, weights, mode), with Math.sqrt taken to be `sqrt`. */
  ghost function Analysis(courses: seq<Course>, skills: seq<Skill>, benchmarkVector: Vector, weights: ScoringWeights,
                          mode: ProgramMode, sqrt: real -> real): AnalysisOutput
    requires TotalWeight(weights) != 0.0
  {
    var active := ActiveCourses(courses);
    var programVector := ProgramVector(active, skills);
    AnalysisOf(active, skills, benchmarkVector, weights, mode, programVector,
      Cosine(programVector, benchmarkVector, sqrt), Redundancies(active, skills))
  }

  /** Only the active courses matter: filtering the input first changes nothing. */
  lemma AnalysisActiveOnly(courses: seq<Course>, skills: seq<Skill>, benchmarkVector: Vector, weights: ScoringWeights,
                           mode: ProgramMode, sqrt: real -> real)
    requires TotalWeight(weights) != 0.0
    ensures Analysis(ActiveCourses(courses), skills, benchmarkVector, weights, mode, sqrt)
      == Analysis(courses, skills, benchmarkVector, weights, mode, sqrt)
  {
    ActiveCoursesIdempotent(courses);
  }

  /** Every reported pair joins two active input courses, and the redundancy score is 0 exactly without pairs and at least 40 otherwise. */
  lemma AnalysisRedundancy(courses: seq<Course>, skills: seq<Skill>, benchmarkVector: Vector, weights: ScoringWeights,
                           mode: ProgramMode, sqrt: real -> real, p: RedundantPair)
    requires TotalWeight(weights) != 0.0
    ensures var r := Analysis(courses, skills, benchmarkVector, weights, mode, sqrt);
      p in r.redundantCourses ==> exists c1, c2 ::
        c1 in courses && c2 in courses && c1.isActive && c2.isActive && p.course1 == c1.id && p.course2 == c2.id
    ensures var r := Analysis(courses, skills, benchmarkVector, weights, mode, sqrt);
      (r.redundantCourses == [] ==> r.redundancyScore == 0) && (r.redundantCourses != [] ==> r.redundancyScore >= 40)
  {
    var active := ActiveCourses(courses);
    RedundancyScoreOfDetected(active, skills);
    if p in Redundancies(active, skills) {
      RedundanciesActive(active, CatalogExtractor(skills), p);
    }
  }

  /**
   * With non-negative credits, benchmark entries and weights (of positive sum), a top weight in [0, 100]
   * and `sqrt` a square root at both squared magnitudes, every cluster score lies in [0, 100] and the
   * final clamp of waiScore never binds.
   */
  lemma AnalysisWaiUnclamped(courses: seq<Course>, skills: seq<Skill>, benchmarkVector: Vector, weights: ScoringWeights,
                             mode: ProgramMode, sqrt: real -> real)
    requires forall i :: 0 <= i < |courses| ==> courses[i].credits >= 0.0
    requires NonNegative(benchmarkVector)
    requires weights.marketSkillsWeight >= 0.0 && weights.coreSkillsWeight >= 0.0
    requires weights.futureSkillsWeight >= 0.0 && weights.softSkillsWeight >= 0.0
    requires TotalWeight(weights) > 0.0 && 0.0 <= weights.waiTopWeight <= 100.0
    requires var v := ProgramVector(ActiveCourses(courses), skills);
      IsSqrtAt(sqrt, Dot(AllKeys(v, benchmarkVector), v, v)) &&
      IsSqrtAt(sqrt, Dot(AllKeys(v, benchmarkVector), benchmarkVector, benchmarkVector))
    ensures var r := Analysis(courses, skills, benchmarkVector, weights, mode, sqrt);
      0 <= r.marketSkillsScore <= 100 && 0 <= r.coreSkillsScore <= 100 &&
      0 <= r.futureSkillsScore <= 100 && 0 <= r.softSkillsScore <= 100
    ensures var active := ActiveCourses(courses);
      var v := ProgramVector(active, skills);
      var s := ScoresOf(Coverage(v, skills), ModeMultipliers(mode));
      Analysis(courses, skills, benchmarkVector, weights, mode, sqrt).waiScore
        == Round(WaiBlend(Composite(s, weights), Cosine(v, benchmarkVector, sqrt), weights.waiTopWeight))
  {
    var active := ActiveCourses(courses);
    var v := ProgramVector(active, skills);
    var coverage := Coverage(v, skills);
    ActiveCreditsNonNegative(courses);
    ProgramVectorBounded(active, skills);
    VectorEntriesBounded(v, skills);
    CoverageNonNegative(v, skills);
    ScoresBounded(coverage, mode);
    CosineBounded(v, benchmarkVector, sqrt);
    WaiScoreUnclamped(ScoresOf(coverage, ModeMultipliers(mode)), Cosine(v, benchmarkVector, sqrt), weights);
  }

  lemma ActiveCreditsNonNegative(courses: seq<Course>)
    requires forall i :: 0 <= i < |courses| ==> courses[i].credits >= 0.0
    ensures var active := ActiveCourses(courses); forall i :: 0 <= i < |active| ==> active[i].credits >= 0.0
  {
    var active := ActiveCourses(courses);
    forall i | 0 <= i < |active|
      ensures active[i].credits >= 0.0
    {
      assert active[i] in courses;
    }
  }

  /** Entries in [0, 1] read in [0, 1] at every skill, and the vector is non-negative. */
  lemma VectorEntriesBounded(v: Vector, skills: seq<Skill>)
    requires UnitBounded(v)
    ensures forall k :: 0 <= k < |skills| ==> 0.0 <= Get(v, skills[k].id) <= 1.0
    ensures NonNegative(v)
  {
  }

  /** Coverage values are in [0, 100] for vectors with entries in [0, 1]. */
  lemma CoverageNonNegative(v: Vector, skills: seq<Skill>)
    requires forall k :: 0 <= k < |skills| ==> 0.0 <= Get(v, skills[k].id) <= 1.0
    ensures forall c :: c in Coverage(v, skills) ==> 0 <= Coverage(v, skills)[c] <= 100
  {
    forall c | c in Coverage(v, skills)
      ensures 0 <= Coverage(v, skills)[c] <= 100
    {
      CoverageBounded(v, skills, c);
    }
  }

  /** runAnalysis. */
  method RunAnalysis(courses: seq<Course>, skills: seq<Skill>, benchmarkVector: Vector, weights: ScoringWeights,
                     programMode: ProgramMode, sqrt: real -> real) returns (out: AnalysisOutput)
    requires TotalWeight(weights) != 0.0
    ensures out == Analysis(courses, skills, benchmarkVector, weights, programMode, sqrt)
  {
    var activeCourses := ActiveCourses(courses);
    var modeMultipliers := ModeMultipliers(programMode);
    var programVector := BuildProgramSkillVector(activeCourses, skills);
    var overallSimilarity := CosineSimilarity(programVector, benchmarkVector, sqrt);
    var coverageByCluster := ComputeCoverageByCluster(programVector, skills);
    var scores := ClusterScoresOf(coverageByCluster, modeMultipliers);
    var waiScore := ComputeWaiScore(scores, overallSimilarity, weights);
    var gaps := ComputeGaps(programVector, benchmarkVector, skills);
    var redundantCourses := DetectRedundancy(activeCourses, skills);
    var redundancyScore := ComputeRedundancyScore(redundantCourses);
    var depthProfile := ComputeDepthProfile(activeCourses);
    var theoryPracticeRatio := ComputeTheoryPracticeRatio(activeCourses);
    out := AnalysisOutput(Clamp(waiScore, 0, 100), scores.market, scores.core, scores.future, scores.soft,
      coverageByCluster, gaps, redundancyScore, theoryPracticeRatio, depthProfile, redundantCourses);
  }

  /** The four cluster-score statements of runAnalysis. */
  method ClusterScoresOf(coverageByCluster: map<SkillCluster, int>, modeMultipliers: Multipliers) returns (s: ClusterScores)
    ensures s == ScoresOf(coverageByCluster, modeMultipliers)
  {
    var marketSkillsRaw := RawScore(coverageByCluster, MarketSkills);
    var coreSkillsRaw := RawScore(coverageByCluster, CoreAcademic);
    var futureSkillsRaw := RawScore(coverageByCluster, FutureSkills);
    var softSkillsRaw := RawScore(coverageByCluster, SoftSkills);
    var marketSkillsScore := MinInt(Round(Mul(marketSkillsRaw as real, modeMultipliers.market)), 100);
    var coreSkillsScore := MinInt(Round(coreSkillsRaw as real), 100);
    var futureSkillsScore := MinInt(Round(Mul(futureSkillsRaw as real, modeMultipliers.future)), 100);
    var softSkillsScore := MinInt(Round(softSkillsRaw as real), 100);
    s := ClusterScores(marketSkillsScore, coreSkillsScore, futureSkillsScore, softSkillsScore);
  }

  /** The `totalWeight`, `clusterComposite`, `similarityComponent` and `waiScore` statements of runAnalysis (before the final clamp). */
  method ComputeWaiScore(scores: ClusterScores, overallSimilarity: real, weights: ScoringWeights) returns (waiScore: int)
    requires TotalWeight(weights) != 0.0
    ensures Clamp(waiScore, 0, 100) == WaiScore(scores, overallSimilarity, weights)
  {
    var totalWeight := weights.marketSkillsWeight + weights.coreSkillsWeight + weights.futureSkillsWeight + weights.softSkillsWeight;
    var clusterComposite :=
      (Mul(scores.market as real, weights.marketSkillsWeight) + Mul(scores.core as real, weights.coreSkillsWeight)
        + Mul(scores.future as real, weights.futureSkillsWeight) + Mul(scores.soft as real, weights.softSkillsWeight))
      / totalWeight;
    var similarityComponent := overallSimilarity * 100.0;
    waiScore := Round((Mul(clusterComposite, 100.0 - weights.waiTopWeight) + Mul(similarityComponent, weights.waiTopWeight)) / 100.0);
  }
}
