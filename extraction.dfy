/**
 * extractSkillsFromCourse and buildProgramSkillVector
 * (lib/analysis/skill-extraction.ts).
 */
module SkillExtraction {
  import opened Records
  import opened Text
  import opened Numeric
  import opened Sorting

  /** One entry of extractSkillsFromCourse's result. */
  datatype SkillMatch = SkillMatch(skillId: string, score: real)

  function MatchScoreOf(m: SkillMatch): real { m.score }
  function MatchIdOf(m: SkillMatch): string { m.skillId }
  function SkillIdOf(s: Skill): string { s.id }

  /** The ids of a skill catalog. */
  function SkillIdSet(skills: seq<Skill>): set<string> {
    set s | s in skills :: s.id
  }

  /** String.prototype.includes. */
  predicate Contains(s: string, sub: string)
    decreases |s|
  {
    sub <= s || (|s| > 0 && Contains(s[1..], sub))
  }

  /** `sub` occurs in `s` at position `i`. */
  predicate OccursAt(s: string, sub: string, i: int) {
    0 <= i <= |s| - |sub| && s[i..i + |sub|] == sub
  }

  /** `Contains` is the substring test. */
  lemma {:induction false} ContainsIsSubstring(s: string, sub: string)
    ensures Contains(s, sub) <==> exists i :: OccursAt(s, sub, i)
    decreases |s|
  {
    if sub <= s {
      assert OccursAt(s, sub, 0);
    } else if |s| > 0 {
      ContainsIsSubstring(s[1..], sub);
      if Contains(s[1..], sub) {
        var i :| OccursAt(s[1..], sub, i);
        assert s[i + 1..i + 1 + |sub|] == s[1..][i..i + |sub|];
        assert OccursAt(s, sub, i + 1);
      }
      if exists i :: OccursAt(s, sub, i) {
        var i :| OccursAt(s, sub, i);
        assert i != 0;
        assert s[1..][i - 1..i - 1 + |sub|] == s[i..i + |sub|];
        assert OccursAt(s[1..], sub, i - 1);
      }
    }
  }

  /** The normalized text of a course: title, Arabic title, description and code. */
  function CourseText(c: Course): string {
    NormalizeText(c.title + " " + c.titleAr + " " + c.description + " " + c.code)
  }

  /** What one course token adds for one keyword token: 2 when equal, 0.5 when one contains the other. */
  function PairScore(ct: string, kwToken: string): (r: real)
    ensures r == 0.0 || r == 0.5 || r == 2.0
    ensures r == 2.0 <==> ct == kwToken
    ensures r == 0.5 <==> ct != kwToken && (Contains(ct, kwToken) || Contains(kwToken, ct))
  {
    if ct == kwToken then 2.0
    else if Contains(ct, kwToken) || Contains(kwToken, ct) then 0.5
    else 0.0
  }

  /** The inner loop over course tokens, for one keyword token. */
  function PairsScore(courseTokens: seq<string>, kwToken: string): (r: real)
    ensures 0.0 <= r <= 2.0 * |courseTokens| as real
  {
    if courseTokens == [] then 0.0
    else
      PairsScore(courseTokens[..|courseTokens| - 1], kwToken)
        + PairScore(courseTokens[|courseTokens| - 1], kwToken)
  }

  /** One keyword token: 1 for a hit anywhere in the course text, plus its token pairs. */
  function TokenScore(courseText: string, courseTokens: seq<string>, kwToken: string): (r: real)
    ensures 0.0 <= r <= 1.0 + 2.0 * |courseTokens| as real
  {
    (if Contains(courseText, kwToken) then 1.0 else 0.0) + PairsScore(courseTokens, kwToken)
  }

  /** All tokens of one keyword. */
  function TokensScore(courseText: string, courseTokens: seq<string>, kwTokens: seq<string>): (r: real)
    ensures r >= 0.0
    ensures kwTokens == [] ==> r == 0.0
  {
    if kwTokens == [] then 0.0
    else
      TokensScore(courseText, courseTokens, kwTokens[..|kwTokens| - 1])
        + TokenScore(courseText, courseTokens, kwTokens[|kwTokens| - 1])
  }

  /** The raw match score of a list of keywords. */
  function KeywordsScore(courseText: string, courseTokens: seq<string>, keywords: seq<string>): (r: real)
    ensures r >= 0.0
    ensures keywords == [] ==> r == 0.0
  {
    if keywords == [] then 0.0
    else
      KeywordsScore(courseText, courseTokens, keywords[..|keywords| - 1])
        + TokensScore(courseText, courseTokens, Tokenize(keywords[|keywords| - 1]))
  }

  /** The candidate keywords of a skill: its normalized keywords, then the tokens of its names. */
  function AllKeywords(skill: Skill): seq<string> {
    MapSeq(skill.keywords, NormalizeText) + Tokenize(skill.name + " " + skill.nameAr)
  }

  /** min(raw / (2 * keyword count), 1). */
  function NormalizedScore(raw: real, keywordCount: nat): (r: real)
    requires raw > 0.0 && keywordCount > 0
    ensures 0.0 < r <= 1.0
  {
    Min(raw / (keywordCount as real * 2.0), 1.0)
  }

  /** The entry a single skill contributes: none when its raw score is 0. */
  function MatchOf(courseText: string, courseTokens: seq<string>, skill: Skill): (r: seq<SkillMatch>)
    ensures |r| <= 1
    ensures forall k :: 0 <= k < |r| ==> r[k].skillId == skill.id && 0.0 < r[k].score <= 1.0
  {
    var keywords := AllKeywords(skill);
    var raw := KeywordsScore(courseText, courseTokens, keywords);
    if raw > 0.0 then [SkillMatch(skill.id, NormalizedScore(raw, |keywords|))] else []
  }

  /** The single-skill step of the catalog loop, for a fixed course. */
  function CourseScorer(courseText: string, courseTokens: seq<string>): Skill -> seq<SkillMatch> {
    skill => MatchOf(courseText, courseTokens, skill)
  }

  /** A step that reports at most one entry, for the skill itself, with a score in (0, 1]. */
  ghost predicate ScoresOwnSkill(scorer: Skill -> seq<SkillMatch>) {
    && (forall skill :: |scorer(skill)| <= 1)
    && (forall skill, k :: 0 <= k < |scorer(skill)| ==>
          scorer(skill)[k].skillId == skill.id && 0.0 < scorer(skill)[k].score <= 1.0)
  }

  lemma CourseScorerScoresOwnSkill(courseText: string, courseTokens: seq<string>)
    ensures ScoresOwnSkill(CourseScorer(courseText, courseTokens))
  {
    var scorer := CourseScorer(courseText, courseTokens);
    forall skill
      ensures |scorer(skill)| <= 1
      ensures forall k :: 0 <= k < |scorer(skill)| ==>
        scorer(skill)[k].skillId == skill.id && 0.0 < scorer(skill)[k].score <= 1.0
    {
      assert scorer(skill) == MatchOf(courseText, courseTokens, skill);
    }
  }

  /** The catalog loop: the steps' entries, in catalog order. */
  function MatchesFrom(skills: seq<Skill>, scorer: Skill -> seq<SkillMatch>): seq<SkillMatch> {
    if skills == [] then []
    else MatchesFrom(skills[..|skills| - 1], scorer) + scorer(skills[|skills| - 1])
  }

  /** The matches of a catalog, in catalog order, before sorting. */
  function MatchesIn(courseText: string, courseTokens: seq<string>, skills: seq<Skill>): seq<SkillMatch> {
    MatchesFrom(skills, CourseScorer(courseText, courseTokens))
  }

  /** At most one entry per catalog skill, each with a score in (0, 1]. */
  lemma {:induction false} MatchesFromBounds(skills: seq<Skill>, scorer: Skill -> seq<SkillMatch>)
    requires ScoresOwnSkill(scorer)
    ensures |MatchesFrom(skills, scorer)| <= |skills|
    ensures forall k :: 0 <= k < |MatchesFrom(skills, scorer)| ==> 0.0 < MatchesFrom(skills, scorer)[k].score <= 1.0
    decreases |skills|
  {
    if skills != [] {
      var prefix := skills[..|skills| - 1];
      MatchesFromBounds(prefix, scorer);
      var prev := MatchesFrom(prefix, scorer);
      var step := scorer(skills[|skills| - 1]);
      var r := prev + step;
      forall k | 0 <= k < |r|
        ensures 0.0 < r[k].score <= 1.0
      {
        if k >= |prev| {
          assert r[k] == step[k - |prev|];
        }
      }
    }
  }

  /** The matches of a concatenated catalog are the concatenated matches. */
  lemma {:induction false} MatchesFromAppend(a: seq<Skill>, b: seq<Skill>, scorer: Skill -> seq<SkillMatch>)
    ensures MatchesFrom(a + b, scorer) == MatchesFrom(a, scorer) + MatchesFrom(b, scorer)
    decreases |b|
  {
    if b == [] {
      assert a + b == a;
    } else {
      var init := b[..|b| - 1];
      MatchesFromAppend(a, init, scorer);
      assert (a + b)[..|a + b| - 1] == a + init;
      assert (a + b)[|a + b| - 1] == b[|b| - 1];
    }
  }

  /** No catalog id is matched more often than it occurs in the catalog. */
  lemma {:induction false} MatchesFromIds(skills: seq<Skill>, scorer: Skill -> seq<SkillMatch>)
    requires ScoresOwnSkill(scorer)
    ensures multiset(MapSeq(MatchesFrom(skills, scorer), MatchIdOf)) <= multiset(MapSeq(skills, SkillIdOf))
    decreases |skills|
  {
    if skills != [] {
      var prefix := skills[..|skills| - 1];
      var skill := skills[|skills| - 1];
      MatchesFromIds(prefix, scorer);
      var prev := MatchesFrom(prefix, scorer);
      var step := scorer(skill);
      assert skills == prefix + [skill];
      MapSeqConcat(prefix, [skill], SkillIdOf);
      MapSeqConcat(prev, step, MatchIdOf);
      if step != [] {
        assert |step| == 1 && step[0].skillId == skill.id;
        assert MapSeq(step, MatchIdOf) == MapSeq([skill], SkillIdOf);
      } else {
        assert MapSeq(step, MatchIdOf) == [];
      }
    }
  }

  /**
   * The result of extractSkillsFromCourse: one entry per catalog skill with a
   * positive raw score, sorted by non-increasing score.
   */
  function Extracted(course: Course, skills: seq<Skill>): (r: seq<SkillMatch>)
    ensures SortedDesc(r, MatchScoreOf)
    ensures forall k :: 0 <= k < |r| ==> 0.0 < r[k].score <= 1.0
  {
    var text := CourseText(course);
    var ms := MatchesIn(text, Tokenize(text), skills);
    CourseScorerScoresOwnSkill(text, Tokenize(text));
    MatchesFromBounds(skills, CourseScorer(text, Tokenize(text)));
    var r := SortDesc(ms, MatchScoreOf);
    forall k | 0 <= k < |r|
      ensures 0.0 < r[k].score <= 1.0
    {
      assert r[k] in multiset(ms);
      var j :| 0 <= j < |ms| && ms[j] == r[k];
    }
    r
  }

  /** Each catalog skill id is extracted at most as often as it occurs in the catalog. */
  lemma ExtractedIds(course: Course, skills: seq<Skill>)
    ensures multiset(MapSeq(Extracted(course, skills), MatchIdOf)) <= multiset(MapSeq(skills, SkillIdOf))
  {
    var text := CourseText(course);
    var ms := MatchesIn(text, Tokenize(text), skills);
    SortDescProjection(ms, MatchScoreOf, MatchIdOf);
    CourseScorerScoresOwnSkill(text, Tokenize(text));
    MatchesFromIds(skills, CourseScorer(text, Tokenize(text)));
  }

  /** Every extracted skill id is a catalog id. */
  lemma ExtractedIdsInCatalog(course: Course, skills: seq<Skill>)
    ensures forall m :: m in Extracted(course, skills) ==> m.skillId in SkillIdSet(skills)
  {
    var r := Extracted(course, skills);
    ExtractedIds(course, skills);
    forall m | m in r
      ensures m.skillId in SkillIdSet(skills)
    {
      var k :| 0 <= k < |r| && r[k] == m;
      assert MapSeq(r, MatchIdOf)[k] == m.skillId;
      assert m.skillId in multiset(MapSeq(r, MatchIdOf));
      assert m.skillId in multiset(MapSeq(skills, SkillIdOf));
      var j :| 0 <= j < |skills| && MapSeq(skills, SkillIdOf)[j] == m.skillId;
      assert skills[j] in skills;
    }
  }

  /** With distinct catalog ids, no skill id is extracted twice. */
  lemma ExtractedDistinct(course: Course, skills: seq<Skill>)
    requires Distinct(MapSeq(skills, SkillIdOf))
    ensures Distinct(MapSeq(Extracted(course, skills), MatchIdOf))
  {
    var ids := MapSeq(Extracted(course, skills), MatchIdOf);
    var catalog := MapSeq(skills, SkillIdOf);
    ExtractedIds(course, skills);
    forall i, j | 0 <= i < j < |ids|
      ensures ids[i] != ids[j]
    {
      if ids[i] == ids[j] {
        TwiceCounted(ids, i, j);
        DistinctCountedOnce(catalog, ids[i]);
        assert false;
      }
    }
  }

  /** An element at two positions is counted at least twice. */
  lemma TwiceCounted<T>(s: seq<T>, i: int, j: int)
    requires 0 <= i < j < |s| && s[i] == s[j]
    ensures multiset(s)[s[i]] >= 2
  {
    assert s == s[..j] + s[j..];
    assert s[i] in s[..j];
    assert s[j] in s[j..];
  }

  /** In a sequence without repetitions every element is counted at most once. */
  lemma {:induction false} DistinctCountedOnce<T>(s: seq<T>, x: T)
    requires Distinct(s)
    ensures multiset(s)[x] <= 1
    decreases |s|
  {
    if s != [] {
      DistinctCountedOnce(s[1..], x);
      assert s == [s[0]] + s[1..];
      if s[0] == x {
        assert x !in s[1..];
      }
    }
  }

  /** Keywords that all tokenize to nothing score nothing. */
  lemma {:induction false} TokenlessKeywordsScoreZero(courseText: string, courseTokens: seq<string>, keywords: seq<string>)
    requires forall k :: k in keywords ==> Tokenize(k) == []
    ensures KeywordsScore(courseText, courseTokens, keywords) == 0.0
    decreases |keywords|
  {
    if keywords != [] {
      var prefix := keywords[..|keywords| - 1];
      assert forall k :: k in prefix ==> k in keywords;
      assert keywords[|keywords| - 1] in keywords;
      TokenlessKeywordsScoreZero(courseText, courseTokens, prefix);
    }
  }

  /**
   * A skill whose candidate keywords all tokenize to nothing is never
   * matched: removing it from the catalog changes no match.
   */
  lemma TokenlessSkillNeverMatched(courseText: string, courseTokens: seq<string>, before: seq<Skill>, skill: Skill, after: seq<Skill>)
    requires forall k :: k in AllKeywords(skill) ==> Tokenize(k) == []
    ensures MatchesIn(courseText, courseTokens, before + [skill] + after) == MatchesIn(courseText, courseTokens, before + after)
  {
    var scorer := CourseScorer(courseText, courseTokens);
    TokenlessKeywordsScoreZero(courseText, courseTokens, AllKeywords(skill));
    assert scorer(skill) == [];
    SilentSkillSkipped(before, skill, after, scorer);
  }

  /** A skill whose step reports nothing can be removed from the catalog. */
  lemma SilentSkillSkipped(before: seq<Skill>, skill: Skill, after: seq<Skill>, scorer: Skill -> seq<SkillMatch>)
    requires scorer(skill) == []
    ensures MatchesFrom(before + [skill] + after, scorer) == MatchesFrom(before + after, scorer)
  {
    MatchesFromAppend(before + [skill], after, scorer);
    MatchesFromAppend(before, [skill], scorer);
    MatchesFromAppend(before, after, scorer);
    assert [skill][..0] == [];
    assert MatchesFrom([skill], scorer) == [];
  }

  /** `score * creditWeight`. */
  function Weighted(score: real, weight: real): real {
    score * weight
  }

  /** The accumulation of one inner loop of buildProgramSkillVector. */
  function AddMatches(v: Vector, ms: seq<SkillMatch>, weight: real): Vector {
    if ms == [] then v
    else
      var prev := AddMatches(v, ms[..|ms| - 1], weight);
      var m := ms[|ms| - 1];
      prev[m.skillId := Min(Get(prev, m.skillId) + Weighted(m.score, weight), 1.0)]
  }

  /** extractSkillsFromCourse against a fixed catalog, as a function of the course. */
  function CatalogExtractor(skills: seq<Skill>): Course -> seq<SkillMatch> {
    c => Extracted(c, skills)
  }

  /** Every extracted entry names a catalog skill and has a score in (0, 1]. */
  ghost predicate ExtractsFrom(extract: Course -> seq<SkillMatch>, skills: seq<Skill>) {
    forall c, k :: 0 <= k < |extract(c)| ==>
      extract(c)[k].skillId in SkillIdSet(skills) && 0.0 < extract(c)[k].score <= 1.0
  }

  /** extractSkillsFromCourse only reports catalog skills, with scores in (0, 1]. */
  lemma CatalogExtractorExtractsFrom(skills: seq<Skill>)
    ensures ExtractsFrom(CatalogExtractor(skills), skills)
  {
    var extract := CatalogExtractor(skills);
    forall c, k | 0 <= k < |extract(c)|
      ensures extract(c)[k].skillId in SkillIdSet(skills) && 0.0 < extract(c)[k].score <= 1.0
    {
      assert extract(c) == Extracted(c, skills);
      ExtractedIdsInCatalog(c, skills);
      assert extract(c)[k] in Extracted(c, skills);
    }
  }

  /** The effect of one course on the vector: inactive courses change nothing. */
  function AddCourse(v: Vector, course: Course, extract: Course -> seq<SkillMatch>): Vector {
    if course.isActive then AddMatches(v, extract(course), course.credits / 3.0) else v
  }

  /** The vector with every catalog skill id at 0. */
  function InitVector(skills: seq<Skill>): (v: Vector)
    ensures v.Keys == SkillIdSet(skills)
    ensures forall k :: k in v ==> v[k] == 0.0
  {
    if skills == [] then map[]
    else
      var prefix := skills[..|skills| - 1];
      assert skills == prefix + [skills[|skills| - 1]];
      InitVector(prefix)[skills[|skills| - 1].id := 0.0]
  }

  /** The accumulation over the courses, for a given per-course extraction. */
  function VectorWith(courses: seq<Course>, skills: seq<Skill>, extract: Course -> seq<SkillMatch>): Vector {
    if courses == [] then InitVector(skills)
    else AddCourse(VectorWith(courses[..|courses| - 1], skills, extract), courses[|courses| - 1], extract)
  }

  /** buildProgramSkillVector's result. */
  function ProgramVector(courses: seq<Course>, skills: seq<Skill>): Vector {
    VectorWith(courses, skills, CatalogExtractor(skills))
  }

  /** Entries in [0, 1]. */
  ghost predicate UnitBounded(v: Vector) {
    forall k :: k in v ==> 0.0 <= v[k] <= 1.0
  }

  /** Every entry of `v` is at most the same entry of `w`. */
  ghost predicate PointwiseLe(v: Vector, w: Vector) {
    forall k :: k in v ==> k in w && v[k] <= w[k]
  }

  /** Folding matches in keeps the keys when every match id is already a key. */
  lemma {:induction false} AddMatchesKeys(v: Vector, ms: seq<SkillMatch>, weight: real)
    requires forall k :: 0 <= k < |ms| ==> ms[k].skillId in v
    ensures AddMatches(v, ms, weight).Keys == v.Keys
    decreases |ms|
  {
    if ms != [] {
      AddMatchesKeys(v, ms[..|ms| - 1], weight);
    }
  }

  /** With a non-negative weight the fold stays in [0, 1] and never lowers an entry. */
  lemma {:induction false} AddMatchesSaturates(v: Vector, ms: seq<SkillMatch>, weight: real)
    requires weight >= 0.0 && UnitBounded(v)
    requires forall k :: 0 <= k < |ms| ==> 0.0 <= ms[k].score <= 1.0
    ensures UnitBounded(AddMatches(v, ms, weight))
    ensures PointwiseLe(v, AddMatches(v, ms, weight))
    decreases |ms|
  {
    if ms != [] {
      var m := ms[|ms| - 1];
      AddMatchesSaturates(v, ms[..|ms| - 1], weight);
      var prev := AddMatches(v, ms[..|ms| - 1], weight);
      assert 0.0 <= Weighted(m.score, weight);
      assert 0.0 <= Get(prev, m.skillId) <= 1.0;
      var value := Min(Get(prev, m.skillId) + Weighted(m.score, weight), 1.0);
      var next := prev[m.skillId := value];
      assert next == AddMatches(v, ms, weight);
      forall k | k in next
        ensures 0.0 <= next[k] <= 1.0
      {
        if k != m.skillId {
          assert next[k] == prev[k];
        }
      }
      forall k | k in v
        ensures k in next && v[k] <= next[k]
      {
        if k == m.skillId {
          assert v[k] <= prev[k];
        }
      }
    }
  }

  /** The vector has exactly one key per catalog skill id. */
  lemma {:induction false} VectorWithKeys(courses: seq<Course>, skills: seq<Skill>, extract: Course -> seq<SkillMatch>)
    requires ExtractsFrom(extract, skills)
    ensures VectorWith(courses, skills, extract).Keys == SkillIdSet(skills)
    decreases |courses|
  {
    if courses != [] {
      var c := courses[|courses| - 1];
      VectorWithKeys(courses[..|courses| - 1], skills, extract);
      if c.isActive {
        AddMatchesKeys(VectorWith(courses[..|courses| - 1], skills, extract), extract(c), c.credits / 3.0);
      }
    }
  }

  /** With non-negative credits every entry stays in [0, 1]. */
  lemma {:induction false} VectorWithBounded(courses: seq<Course>, skills: seq<Skill>, extract: Course -> seq<SkillMatch>)
    requires ExtractsFrom(extract, skills)
    requires forall i :: 0 <= i < |courses| ==> courses[i].credits >= 0.0
    ensures UnitBounded(VectorWith(courses, skills, extract))
    decreases |courses|
  {
    if courses != [] {
      var c := courses[|courses| - 1];
      VectorWithBounded(courses[..|courses| - 1], skills, extract);
      if c.isActive {
        AddMatchesSaturates(VectorWith(courses[..|courses| - 1], skills, extract), extract(c), c.credits / 3.0);
      }
    }
  }

  /** With non-negative credits, folding in more courses never lowers an entry. */
  lemma {:induction false} VectorWithMonotone(courses: seq<Course>, skills: seq<Skill>, extract: Course -> seq<SkillMatch>, n: nat)
    requires n <= |courses|
    requires ExtractsFrom(extract, skills)
    requires forall i :: 0 <= i < |courses| ==> courses[i].credits >= 0.0
    ensures PointwiseLe(VectorWith(courses[..n], skills, extract), VectorWith(courses, skills, extract))
    decreases |courses|
  {
    if n < |courses| {
      var prefix := courses[..|courses| - 1];
      var c := courses[|courses| - 1];
      assert prefix[..n] == courses[..n];
      VectorWithMonotone(prefix, skills, extract, n);
      VectorWithBounded(prefix, skills, extract);
      if c.isActive {
        AddMatchesSaturates(VectorWith(prefix, skills, extract), extract(c), c.credits / 3.0);
      }
    } else {
      assert courses[..n] == courses;
    }
  }

  /** Inactive courses have no effect: the vector of the active courses alone is the same. */
  lemma {:induction false} VectorWithIgnoresInactive(courses: seq<Course>, skills: seq<Skill>, extract: Course -> seq<SkillMatch>)
    ensures VectorWith(ActiveCourses(courses), skills, extract) == VectorWith(courses, skills, extract)
    decreases |courses|
  {
    if courses != [] {
      var prefix := courses[..|courses| - 1];
      var c := courses[|courses| - 1];
      VectorWithIgnoresInactive(prefix, skills, extract);
      var a := ActiveCourses(prefix);
      if c.isActive {
        var b := a + [c];
        assert ActiveCourses(courses) == b;
        assert b[..|b| - 1] == a && b[|b| - 1] == c;
      } else {
        assert ActiveCourses(courses) == a;
      }
    }
  }

  /** buildProgramSkillVector has exactly one key per catalog skill id. */
  lemma ProgramVectorKeys(courses: seq<Course>, skills: seq<Skill>)
    ensures ProgramVector(courses, skills).Keys == SkillIdSet(skills)
  {
    CatalogExtractorExtractsFrom(skills);
    VectorWithKeys(courses, skills, CatalogExtractor(skills));
  }

  /** With non-negative credits every coverage value of buildProgramSkillVector is in [0, 1]. */
  lemma ProgramVectorBounded(courses: seq<Course>, skills: seq<Skill>)
    requires forall i :: 0 <= i < |courses| ==> courses[i].credits >= 0.0
    ensures UnitBounded(ProgramVector(courses, skills))
  {
    CatalogExtractorExtractsFrom(skills);
    VectorWithBounded(courses, skills, CatalogExtractor(skills));
  }

  /** With non-negative credits, adding courses never lowers a coverage value. */
  lemma ProgramVectorMonotone(courses: seq<Course>, skills: seq<Skill>, n: nat)
    requires n <= |courses|
    requires forall i :: 0 <= i < |courses| ==> courses[i].credits >= 0.0
    ensures PointwiseLe(ProgramVector(courses[..n], skills), ProgramVector(courses, skills))
  {
    CatalogExtractorExtractsFrom(skills);
    VectorWithMonotone(courses, skills, CatalogExtractor(skills), n);
  }

  /** buildProgramSkillVector depends only on the active courses. */
  lemma ProgramVectorIgnoresInactive(courses: seq<Course>, skills: seq<Skill>)
    ensures ProgramVector(ActiveCourses(courses), skills) == ProgramVector(courses, skills)
  {
    VectorWithIgnoresInactive(courses, skills, CatalogExtractor(skills));
  }

  /** The innermost loop of extractSkillsFromCourse: one keyword token against the course. */
  method ScoreKeywordToken(courseText: string, courseTokens: seq<string>, kwToken: string) returns (score: real)
    ensures score == TokenScore(courseText, courseTokens, kwToken)
  {
    score := 0.0;
    if Contains(courseText, kwToken) {
      score := score + 1.0;
    }
    ghost var hit := score;
    var cti := 0;
    while cti < |courseTokens|
      invariant 0 <= cti <= |courseTokens|
      invariant score == hit + PairsScore(courseTokens[..cti], kwToken)
    {
      var ct := courseTokens[cti];
      if ct == kwToken {
        score := score + 2.0;
      } else if Contains(ct, kwToken) || Contains(kwToken, ct) {
        score := score + 0.5;
      }
      assert courseTokens[..cti + 1][..cti] == courseTokens[..cti];
      cti := cti + 1;
    }
    assert courseTokens[..cti] == courseTokens;
  }

  /** The loop over one keyword's tokens in extractSkillsFromCourse: what that keyword adds. */
  method ScoreKeyword(courseText: string, courseTokens: seq<string>, keyword: string) returns (score: real)
    ensures score == TokensScore(courseText, courseTokens, Tokenize(keyword))
  {
    var kwTokens := Tokenize(keyword);
    score := 0.0;
    var kwi := 0;
    while kwi < |kwTokens|
      invariant 0 <= kwi <= |kwTokens|
      invariant score == TokensScore(courseText, courseTokens, kwTokens[..kwi])
    {
      var add := ScoreKeywordToken(courseText, courseTokens, kwTokens[kwi]);
      score := score + add;
      assert kwTokens[..kwi + 1][..kwi] == kwTokens[..kwi];
      kwi := kwi + 1;
    }
    assert kwTokens[..kwi] == kwTokens;
  }

  /** The keyword loops of extractSkillsFromCourse for one skill: its raw score. */
  method ScoreSkill(courseText: string, courseTokens: seq<string>, allKeywords: seq<string>) returns (matchScore: real)
    ensures matchScore == KeywordsScore(courseText, courseTokens, allKeywords)
  {
    matchScore := 0.0;
    var ki := 0;
    while ki < |allKeywords|
      invariant 0 <= ki <= |allKeywords|
      invariant matchScore == KeywordsScore(courseText, courseTokens, allKeywords[..ki])
    {
      var add := ScoreKeyword(courseText, courseTokens, allKeywords[ki]);
      assert KeywordsScore(courseText, courseTokens, allKeywords[..ki + 1])
        == KeywordsScore(courseText, courseTokens, allKeywords[..ki]) + add by {
        assert allKeywords[..ki + 1][..ki] == allKeywords[..ki];
      }
      matchScore := matchScore + add;
      ki := ki + 1;
    }
    assert allKeywords[..ki] == allKeywords;
  }

  /** The body of extractSkillsFromCourse's catalog loop: the entry of one skill, if any. */
  method MatchSkill(courseText: string, courseTokens: seq<string>, skill: Skill) returns (r: seq<SkillMatch>)
    ensures r == MatchOf(courseText, courseTokens, skill)
  {
    var allKeywords := AllKeywords(skill);
    var matchScore := ScoreSkill(courseText, courseTokens, allKeywords);
    if matchScore > 0.0 {
      r := [SkillMatch(skill.id, Min(matchScore / (|allKeywords| as real * 2.0), 1.0))];
    } else {
      r := [];
    }
  }

  /** extractSkillsFromCourse. */
  method ExtractSkillsFromCourse(course: Course, skills: seq<Skill>) returns (r: seq<SkillMatch>)
    ensures r == Extracted(course, skills)
  {
    var courseText := CourseText(course);
    var courseTokens := Tokenize(courseText);
    var matches: seq<SkillMatch> := [];
    var si := 0;
    while si < |skills|
      invariant 0 <= si <= |skills|
      invariant matches == MatchesIn(courseText, courseTokens, skills[..si])
    {
      var entry := MatchSkill(courseText, courseTokens, skills[si]);
      assert skills[..si + 1][..si] == skills[..si];
      assert entry == CourseScorer(courseText, courseTokens)(skills[si]);
      matches := matches + entry;
      si := si + 1;
    }
    assert skills[..si] == skills;
    r := SortDesc(matches, MatchScoreOf);
  }

  /** The inner loop of buildProgramSkillVector: one course's matches, weighted by its credits. */
  method AddCourseSkills(start: Vector, courseSkills: seq<SkillMatch>, creditWeight: real) returns (vector: Vector)
    ensures vector == AddMatches(start, courseSkills, creditWeight)
  {
    vector := start;
    var csi := 0;
    while csi < |courseSkills|
      invariant 0 <= csi <= |courseSkills|
      invariant vector == AddMatches(start, courseSkills[..csi], creditWeight)
    {
      var skillId := courseSkills[csi].skillId;
      var score := courseSkills[csi].score;
      assert courseSkills[..csi + 1][..csi] == courseSkills[..csi];
      vector := vector[skillId := Min(Get(vector, skillId) + Weighted(score, creditWeight), 1.0)];
      csi := csi + 1;
    }
    assert courseSkills[..csi] == courseSkills;
  }

  /** One pass of buildProgramSkillVector's course loop, for an extraction already computed. */
  method AddExtracted(vector: Vector, course: Course, extract: Course -> seq<SkillMatch>, courseSkills: seq<SkillMatch>) returns (next: Vector)
    requires course.isActive ==> courseSkills == extract(course)
    ensures next == AddCourse(vector, course, extract)
  {
    next := vector;
    if course.isActive {
      next := AddCourseSkills(vector, courseSkills, course.credits / 3.0);
    }
  }

  /** One pass of buildProgramSkillVector's course loop. */
  method AddCourseToVector(vector: Vector, course: Course, skills: seq<Skill>) returns (next: Vector)
    ensures next == AddCourse(vector, course, CatalogExtractor(skills))
  {
    var courseSkills := [];
    if course.isActive {
      courseSkills := ExtractSkillsFromCourse(course, skills);
    }
    next := AddExtracted(vector, course, CatalogExtractor(skills), courseSkills);
  }

  /** buildProgramSkillVector. */
  method BuildProgramSkillVector(courses: seq<Course>, skills: seq<Skill>) returns (vector: Vector)
    ensures vector == ProgramVector(courses, skills)
  {
    vector := map[];
    var i := 0;
    while i < |skills|
      invariant 0 <= i <= |skills|
      invariant vector == InitVector(skills[..i])
    {
      assert skills[..i + 1][..i] == skills[..i];
      vector := vector[skills[i].id := 0.0];
      i := i + 1;
    }
    assert skills[..i] == skills;
    var ci := 0;
    while ci < |courses|
      invariant 0 <= ci <= |courses|
      invariant vector == VectorWith(courses[..ci], skills, CatalogExtractor(skills))
    {
      assert courses[..ci + 1][..ci] == courses[..ci];
      vector := AddCourseToVector(vector, courses[ci], skills);
      ci := ci + 1;
    }
    assert courses[..ci] == courses;
  }
}
