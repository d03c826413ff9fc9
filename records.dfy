/**
 * The records the engine reads and produces (types/database.ts). Only the
 * fields the engine touches are kept; identifiers, timestamps and display-only
 * fields it never reads are dropped.
 */
module Records {

  datatype CourseLevel = Basic | Applied | Advanced
  datatype CourseCategory = Core | Elective
  datatype SkillCluster = MarketSkills | CoreAcademic | FutureSkills | SoftSkills
  datatype ProgramMode = Teaching | Research | Hybrid
  datatype RecommendationType = MicroModule | MissingSkill | Certification | CurriculumChange
  datatype Priority = Low | Medium | High | Critical

  datatype Course = Course(
    id: string,
    code: string,
    title: string,
    titleAr: string,
    description: string,
    credits: real,
    level: CourseLevel,
    category: CourseCategory,
    isActive: bool)

  datatype Skill = Skill(
    id: string,
    name: string,
    nameAr: string,
    cluster: SkillCluster,
    keywords: seq<string>)

  /** A skill-coverage vector: skill id to coverage (Record<string, number>). */
  type Vector = map<string, real>

  datatype ScoringWeights = ScoringWeights(
    marketSkillsWeight: real,
    coreSkillsWeight: real,
    futureSkillsWeight: real,
    softSkillsWeight: real,
    waiTopWeight: real)

  datatype GapItem = GapItem(
    skillId: string,
    skillName: string,
    cluster: SkillCluster,
    coverage: int,
    benchmarkExpected: int,
    gap: int)

  /** A recommendation draft; its display texts are not modelled. */
  datatype Recommendation = Recommendation(
    analysisId: string,
    kind: RecommendationType,
    priority: Priority,
    linkedSkillIds: seq<string>)

  /** `vector[key] || 0`: an absent key reads as 0. */
  function Get(v: Vector, key: string): real {
    if key in v then v[key] else 0.0
  }

  /** `s.filter(keep)`. */
  function Filter<T>(s: seq<T>, keep: T -> bool): seq<T> {
    if s == [] then []
    else Filter(s[..|s| - 1], keep) + (if keep(s[|s| - 1]) then [s[|s| - 1]] else [])
  }

  /** Filter keeps exactly the elements that satisfy `keep`, each no more often than in `s`. */
  lemma {:induction false} FilterSpec<T>(s: seq<T>, keep: T -> bool)
    ensures |Filter(s, keep)| <= |s|
    ensures multiset(Filter(s, keep)) <= multiset(s)
    ensures forall i :: 0 <= i < |Filter(s, keep)| ==> Filter(s, keep)[i] in s && keep(Filter(s, keep)[i])
    ensures forall i :: 0 <= i < |s| && keep(s[i]) ==> s[i] in Filter(s, keep)
    decreases |s|
  {
    if s != [] {
      var prefix := s[..|s| - 1];
      var last := s[|s| - 1];
      FilterSpec(prefix, keep);
      var r := Filter(s, keep);
      var p := Filter(prefix, keep);
      assert r == p + (if keep(last) then [last] else []);
      assert s == prefix + [last];
      forall i | 0 <= i < |r|
        ensures r[i] in s && keep(r[i])
      {
        if i < |p| {
          assert r[i] == p[i] && p[i] in prefix;
        }
      }
      forall i | 0 <= i < |s| && keep(s[i])
        ensures s[i] in r
      {
        if i < |prefix| {
          assert s[i] == prefix[i];
        }
      }
    }
  }

  /** Filtering a concatenation filters each part and keeps their order. */
  lemma {:induction false} FilterAppend<T>(s: seq<T>, t: seq<T>, keep: T -> bool)
    ensures Filter(s + t, keep) == Filter(s, keep) + Filter(t, keep)
    decreases |t|
  {
    if t != [] {
      var init := t[..|t| - 1];
      var last := t[|t| - 1];
      assert (s + t)[..|s + t| - 1] == s + init;
      assert (s + t)[|s + t| - 1] == last;
      FilterAppend(s, init, keep);
    } else {
      assert s + t == s;
    }
  }

  /** Filtering twice with the same test is filtering once. */
  lemma {:induction false} FilterIdempotent<T>(s: seq<T>, keep: T -> bool)
    ensures Filter(Filter(s, keep), keep) == Filter(s, keep)
    decreases |s|
  {
    if s != [] {
      var prefix := s[..|s| - 1];
      var last := s[|s| - 1];
      var tail := if keep(last) then [last] else [];
      FilterIdempotent(prefix, keep);
      FilterAppend(Filter(prefix, keep), tail, keep);
      if keep(last) {
        assert Filter(tail, keep) == Filter([], keep) + [last];
      }
    }
  }

  predicate IsActive(c: Course) { c.isActive }

  /** `courses.filter(c => c.is_active)`. */
  function ActiveCourses(courses: seq<Course>): (r: seq<Course>)
    ensures |r| <= |courses|
    ensures multiset(r) <= multiset(courses)
    ensures forall c :: c in r <==> c in courses && c.isActive
  {
    FilterSpec(courses, IsActive);
    Filter(courses, IsActive)
  }

  /** The active courses of a concatenation are those of each part, in order. */
  lemma ActiveCoursesAppend(courses: seq<Course>, more: seq<Course>)
    ensures ActiveCourses(courses + more) == ActiveCourses(courses) + ActiveCourses(more)
  {
    FilterAppend(courses, more, IsActive);
  }

  /** Filtering an already filtered list changes nothing. */
  lemma ActiveCoursesIdempotent(courses: seq<Course>)
    ensures ActiveCourses(ActiveCourses(courses)) == ActiveCourses(courses)
  {
    FilterIdempotent(courses, IsActive);
  }

  /** The elements of a sequence. */
  function Elems<T>(s: seq<T>): set<T> {
    set x | x in s
  }

  lemma ElemsOne<T>(a: T)
    ensures Elems([a]) == {a}
  {
  }

  lemma ElemsTwo<T>(a: T, b: T)
    ensures Elems([a, b]) == {a, b}
  {
    assert forall k :: k in [a, b] <==> k == a || k == b;
  }

  /** No element occurs twice. */
  predicate Distinct<T(==)>(s: seq<T>) {
    forall i, j :: 0 <= i < j < |s| ==> s[i] != s[j]
  }

  /** Dropping the last element of a list without duplicates leaves one without duplicates that lacks it. */
  lemma DistinctInit<T>(s: seq<T>)
    requires Distinct(s) && s != []
    ensures Distinct(s[..|s| - 1])
    ensures s[|s| - 1] !in Elems(s[..|s| - 1])
    ensures Elems(s) == Elems(s[..|s| - 1]) + {s[|s| - 1]}
  {
    var prefix := s[..|s| - 1];
    assert s == prefix + [s[|s| - 1]];
    assert forall k :: 0 <= k < |prefix| ==> prefix[k] == s[k] && s[k] != s[|s| - 1];
  }
}
