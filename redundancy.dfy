/**
 * arrayFromSkillIds, countIntersection, countUnion, computeTitleSimilarity and
 * detectRedundancy (lib/analysis/skill-extraction.ts).
 */
module Redundancy {
  import opened Records
  import opened Text
  import opened Numeric
  import opened Sorting
  import opened SkillExtraction

  /** One entry of detectRedundancy's result. */
  datatype RedundantPair = RedundantPair(course1: string, course2: string, overlap: real)

  function OverlapOf(p: RedundantPair): real { p.overlap }
  function CourseIdOf(c: Course): string { c.id }

  // ---------------------------------------------------------------------------
  // arrayFromSkillIds

  /** The ids of the entries scoring above `threshold`, in their order. */
  function SignificantIds(extracted: seq<SkillMatch>, threshold: real): (r: seq<string>)
    ensures |r| <= |extracted|
  {
    if extracted == [] then []
    else
      var last := extracted[|extracted| - 1];
      SignificantIds(extracted[..|extracted| - 1], threshold) + (if last.score > threshold then [last.skillId] else [])
  }

  /** An id is kept exactly when some entry with that id scores above the threshold. */
  lemma {:induction false} SignificantIdsMembers(extracted: seq<SkillMatch>, threshold: real, id: string)
    ensures id in SignificantIds(extracted, threshold) <==>
      exists k :: 0 <= k < |extracted| && extracted[k].skillId == id && extracted[k].score > threshold
    decreases |extracted|
  {
    if extracted != [] {
      var prefix := extracted[..|extracted| - 1];
      var last := extracted[|extracted| - 1];
      SignificantIdsMembers(prefix, threshold, id);
      assert SignificantIds(extracted, threshold) ==
        SignificantIds(prefix, threshold) + (if last.score > threshold then [last.skillId] else []);
      if exists k :: 0 <= k < |prefix| && prefix[k].skillId == id && prefix[k].score > threshold {
        var k :| 0 <= k < |prefix| && prefix[k].skillId == id && prefix[k].score > threshold;
        assert extracted[k] == prefix[k];
      }
      if exists k :: 0 <= k < |extracted| && extracted[k].skillId == id && extracted[k].score > threshold {
        var k :| 0 <= k < |extracted| && extracted[k].skillId == id && extracted[k].score > threshold;
        if k < |prefix| {
          assert prefix[k] == extracted[k];
        }
      }
    }
  }

  /** Entries with pairwise distinct ids give pairwise distinct kept ids. */
  lemma {:induction false} SignificantIdsDistinct(extracted: seq<SkillMatch>, threshold: real)
    requires Distinct(MapSeq(extracted, MatchIdOf))
    ensures Distinct(SignificantIds(extracted, threshold))
    decreases |extracted|
  {
    if extracted != [] {
      var n := |extracted| - 1;
      var prefix := extracted[..n];
      var ids := MapSeq(extracted, MatchIdOf);
      assert MapSeq(prefix, MatchIdOf) == ids[..n];
      SignificantIdsDistinct(prefix, threshold);
      var last := extracted[n];
      var kept := SignificantIds(prefix, threshold);
      if last.score > threshold {
        SignificantIdsMembers(prefix, threshold, last.skillId);
        forall k | 0 <= k < |prefix|
          ensures prefix[k].skillId != last.skillId
        {
          assert ids[k] == prefix[k].skillId && ids[n] == last.skillId;
        }
        var r := kept + [last.skillId];
        forall i, j | 0 <= i < j < |r|
          ensures r[i] != r[j]
        {
          if j == |r| - 1 {
            assert r[i] in kept;
          } else {
            assert r[i] == kept[i] && r[j] == kept[j];
          }
        }
      }
    }
  }

  /** arrayFromSkillIds. */
  method ArrayFromSkillIds(extracted: seq<SkillMatch>, threshold: real) returns (result: seq<string>)
    ensures result == SignificantIds(extracted, threshold)
  {
    result := [];
    for i := 0 to |extracted|
      invariant result == SignificantIds(extracted[..i], threshold)
    {
      assert extracted[..i + 1][..i] == extracted[..i];
      if extracted[i].score > threshold {
        result := result + [extracted[i].skillId];
      }
    }
    assert extracted[..|extracted|] == extracted;
  }

  // ---------------------------------------------------------------------------
  // countIntersection and countUnion

  /**
   * The property names an object literal `{}` inherits from Object.prototype (ECMAScript 2023
   * with Annex B). Reading any of them from such an object yields a function or, for
   * `__proto__`, Object.prototype itself: a truthy value.
   */
  predicate IsInheritedName(k: string) {
    || k == "constructor" || k == "hasOwnProperty" || k == "isPrototypeOf" || k == "propertyIsEnumerable"
    || k == "toLocaleString" || k == "toString" || k == "valueOf" || k == ProtoKey
    || k == "__defineGetter__" || k == "__defineSetter__" || k == "__lookupGetter__" || k == "__lookupSetter__"
  }

  /** The accessor key: storing a non-object under it leaves an object literal unchanged. */
  const ProtoKey := "__proto__"

  /** `if (obj[k])` on an object literal whose own entries are `obj`. */
  predicate ObjectTruthy(obj: map<string, bool>, k: string) {
    (k in obj && obj[k]) || IsInheritedName(k)
  }

  /** `obj[k] = true` on an object literal whose own entries are `obj`. */
  function ObjectSetTrue(obj: map<string, bool>, k: string): (r: map<string, bool>)
    ensures r.Keys == if k == ProtoKey then obj.Keys else obj.Keys + {k}
    ensures forall x :: x in obj && x != k ==> x in r && r[x] == obj[x]
    ensures k != ProtoKey ==> k in r && r[k]
  {
    if k == ProtoKey then obj else obj[k := true]
  }

  /** Whether `lookup[k]` is truthy once every element of `arr2` was stored: `k` is one of them or inherited. */
  predicate Hits(arr2: seq<string>, k: string) {
    k in arr2 || IsInheritedName(k)
  }

  /** The number of positions of `arr1` whose element hits (duplicates in `arr1` count again). */
  function IntersectionCount(arr1: seq<string>, arr2: seq<string>): (r: nat)
    ensures r <= |arr1|
    ensures (forall i :: 0 <= i < |arr1| ==> Hits(arr2, arr1[i])) ==> r == |arr1|
    ensures (forall i :: 0 <= i < |arr1| ==> !Hits(arr2, arr1[i])) ==> r == 0
  {
    if arr1 == [] then 0
    else IntersectionCount(arr1[..|arr1| - 1], arr2) + (if Hits(arr2, arr1[|arr1| - 1]) then 1 else 0)
  }

  /** The number of own keys after storing every element of both lists: `__proto__` never becomes one. */
  function UnionCount(arr1: seq<string>, arr2: seq<string>): nat {
    |(Elems(arr1) + Elems(arr2)) - {ProtoKey}|
  }

  /** The distinct elements of `arr1` that hit. */
  function HitSet(arr1: seq<string>, arr2: seq<string>): set<string> {
    set k | k in arr1 && Hits(arr2, k)
  }

  /** Without duplicates in `arr1`, the count is the number of its elements that occur in `arr2` or are inherited names. */
  lemma {:induction false} IntersectionOfDistinct(arr1: seq<string>, arr2: seq<string>)
    requires Distinct(arr1)
    ensures IntersectionCount(arr1, arr2) == |HitSet(arr1, arr2)|
    decreases |arr1|
  {
    if arr1 != [] {
      var prefix := arr1[..|arr1| - 1];
      var last := arr1[|arr1| - 1];
      DistinctInit(arr1);
      IntersectionOfDistinct(prefix, arr2);
      assert last !in prefix;
      assert arr1 == prefix + [last];
      HitSetSnoc(prefix, last, arr2);
    }
  }

  lemma HitSetSnoc(prefix: seq<string>, last: string, arr2: seq<string>)
    ensures HitSet(prefix + [last], arr2) == HitSet(prefix, arr2) + (if Hits(arr2, last) then {last} else {})
  {
    assert forall k :: k in prefix + [last] <==> k in prefix || k == last;
  }

  /** When `arr1` holds no inherited name, the elements that hit are those of the set intersection. */
  lemma HitSetPlain(arr1: seq<string>, arr2: seq<string>)
    requires forall i :: 0 <= i < |arr1| ==> !IsInheritedName(arr1[i])
    ensures HitSet(arr1, arr2) == Elems(arr1) * Elems(arr2)
  {
    forall k | k in HitSet(arr1, arr2)
      ensures k in arr2
    {
      var i :| 0 <= i < |arr1| && arr1[i] == k;
    }
  }

  /** Jaccard's numerator never exceeds its denominator when `arr1` has no duplicates and no `__proto__`. */
  lemma IntersectionAtMostUnion(arr1: seq<string>, arr2: seq<string>)
    requires Distinct(arr1) && ProtoKey !in arr1
    ensures IntersectionCount(arr1, arr2) <= UnionCount(arr1, arr2)
  {
    IntersectionOfDistinct(arr1, arr2);
    assert HitSet(arr1, arr2) <= (Elems(arr1) + Elems(arr2)) - {ProtoKey};
    SubsetCard(HitSet(arr1, arr2), (Elems(arr1) + Elems(arr2)) - {ProtoKey});
  }

  lemma SubsetCard<T>(a: set<T>, b: set<T>)
    requires a <= b
    ensures |a| <= |b|
  {
    assert b == a + (b - a);
  }

  /** With duplicates in the first list, the count exceeds the union. */
  lemma DuplicatesExceedUnion()
    ensures IntersectionCount(["abc", "abc"], ["abc"]) == 2
    ensures UnionCount(["abc", "abc"], ["abc"]) == 1
  {
    assert ["abc", "abc"][..1] == ["abc"];
    assert (Elems(["abc", "abc"]) + Elems(["abc"])) - {ProtoKey} == {"abc"};
  }

  /** countIntersection. */
  method CountIntersection(arr1: seq<string>, arr2: seq<string>) returns (count: nat)
    ensures count == IntersectionCount(arr1, arr2)
  {
    count := 0;
    var lookup: map<string, bool> := map[];
    for i := 0 to |arr2|
      invariant lookup.Keys == Elems(arr2[..i]) - {ProtoKey}
      invariant forall k :: k in lookup ==> lookup[k]
    {
      assert arr2[..i + 1] == arr2[..i] + [arr2[i]];
      lookup := ObjectSetTrue(lookup, arr2[i]);
    }
    assert arr2[..|arr2|] == arr2;
    for j := 0 to |arr1|
      invariant count == IntersectionCount(arr1[..j], arr2)
    {
      assert arr1[..j + 1][..j] == arr1[..j];
      if ObjectTruthy(lookup, arr1[j]) {
        count := count + 1;
      }
    }
    assert arr1[..|arr1|] == arr1;
  }

  /** countUnion. */
  method CountUnion(arr1: seq<string>, arr2: seq<string>) returns (count: nat)
    ensures count == UnionCount(arr1, arr2)
  {
    var all: map<string, bool> := map[];
    for i := 0 to |arr1|
      invariant all.Keys == Elems(arr1[..i]) - {ProtoKey}
    {
      assert arr1[..i + 1] == arr1[..i] + [arr1[i]];
      all := ObjectSetTrue(all, arr1[i]);
    }
    assert arr1[..|arr1|] == arr1;
    for j := 0 to |arr2|
      invariant all.Keys == (Elems(arr1) + Elems(arr2[..j])) - {ProtoKey}
    {
      assert arr2[..j + 1] == arr2[..j] + [arr2[j]];
      all := ObjectSetTrue(all, arr2[j]);
    }
    assert arr2[..|arr2|] == arr2;
    count := |all.Keys|;
  }

  // ---------------------------------------------------------------------------
  // Jaccard ratio and title similarity

  /** `unionCount > 0 ? intersectionCount / unionCount : 0`. */
  function Ratio(intersection: nat, union: nat): (r: real)
    ensures r >= 0.0
    ensures union == 0 ==> r == 0.0
    ensures intersection <= union ==> r <= 1.0
  {
    if union > 0 then intersection as real / union as real else 0.0
  }

  /** Jaccard similarity of two id lists, as countIntersection/countUnion compute it. */
  function Jaccard(arr1: seq<string>, arr2: seq<string>): real {
    Ratio(IntersectionCount(arr1, arr2), UnionCount(arr1, arr2))
  }

  /** computeTitleSimilarity: Jaccard similarity of the title tokens, 0 when either has none. */
  function TitleSimilarity(title1: string, title2: string): real {
    var tokens1 := Tokenize(title1);
    var tokens2 := Tokenize(title2);
    if |tokens1| == 0 || |tokens2| == 0 then 0.0 else Jaccard(tokens1, tokens2)
  }

  /** Jaccard lies in [0, 1] when the first list has no duplicates and no `__proto__`. */
  lemma JaccardBounded(arr1: seq<string>, arr2: seq<string>)
    requires Distinct(arr1) && ProtoKey !in arr1
    ensures 0.0 <= Jaccard(arr1, arr2) <= 1.0
  {
    IntersectionAtMostUnion(arr1, arr2);
  }

  /** Jaccard is symmetric on lists without duplicates and without inherited names. */
  lemma JaccardSymmetric(arr1: seq<string>, arr2: seq<string>)
    requires Distinct(arr1) && Distinct(arr2)
    requires forall i :: 0 <= i < |arr1| ==> !IsInheritedName(arr1[i])
    requires forall i :: 0 <= i < |arr2| ==> !IsInheritedName(arr2[i])
    ensures Jaccard(arr1, arr2) == Jaccard(arr2, arr1)
  {
    IntersectionOfDistinct(arr1, arr2);
    IntersectionOfDistinct(arr2, arr1);
    HitSetPlain(arr1, arr2);
    HitSetPlain(arr2, arr1);
    assert Elems(arr1) * Elems(arr2) == Elems(arr2) * Elems(arr1);
    assert Elems(arr1) + Elems(arr2) == Elems(arr2) + Elems(arr1);
  }

  /** A repeated token can push the ratio above 1. */
  lemma JaccardAboveOne()
    ensures Jaccard(["abc", "abc"], ["abc"]) == 2.0
  {
    DuplicatesExceedUnion();
  }

  /** Every inherited name has at least seven characters. */
  lemma ShortNotInherited(k: string)
    requires |k| < 7
    ensures !IsInheritedName(k)
  {
  }

  /** An inherited name hits without being in the second list: a title token `constructor` matches in every title. */
  lemma JaccardConstructor()
    ensures Jaccard(["constructor", "theory"], ["advanced", "algorithms"]) == 0.25
  {
    ConstructorCounts(["constructor", "theory"], ["advanced", "algorithms"]);
  }

  lemma ConstructorCounts(arr1: seq<string>, arr2: seq<string>)
    requires arr1 == ["constructor", "theory"] && arr2 == ["advanced", "algorithms"]
    ensures IntersectionCount(arr1, arr2) == 1 && UnionCount(arr1, arr2) == 4
  {
    assert IntersectionCount(arr1, arr2) == 1 by {
      assert arr1[..1] == ["constructor"] && arr1[..1][..0] == [];
      ShortNotInherited("theory");
      assert Hits(arr2, "constructor") && !Hits(arr2, "theory");
    }
    ElemsTwo("constructor", "theory");
    ElemsTwo("advanced", "algorithms");
    assert {"constructor", "theory"} + {"advanced", "algorithms"} - {ProtoKey} == {"constructor", "theory", "advanced", "algorithms"};
  }

  /** `__proto__` hits but never counts in the union, which can push the ratio to 2. */
  lemma JaccardProto()
    ensures Jaccard([ProtoKey, "basics"], ["basics"]) == 2.0
    ensures Jaccard([ProtoKey], [ProtoKey]) == 0.0
  {
    var arr1 := [ProtoKey, "basics"];
    assert arr1[..1] == [ProtoKey] && arr1[..1][..0] == [];
    assert Hits(["basics"], ProtoKey) && Hits(["basics"], "basics");
    ElemsTwo(ProtoKey, "basics");
    ElemsOne("basics");
    ElemsOne(ProtoKey);
    assert {ProtoKey, "basics"} + {"basics"} - {ProtoKey} == {"basics"};
  }

  /** Once an inherited name occurs, the ratio depends on the argument order. */
  lemma JaccardAsymmetric()
    ensures Jaccard(["constructor"], ["theory"]) == 0.5
    ensures Jaccard(["theory"], ["constructor"]) == 0.0
  {
    ShortNotInherited("theory");
    assert Hits(["theory"], "constructor") && !Hits(["constructor"], "theory");
    assert ["constructor"][..0] == [] && ["theory"][..0] == [];
    ElemsOne("constructor");
    ElemsOne("theory");
    assert {"constructor"} + {"theory"} - {ProtoKey} == {"constructor", "theory"};
  }

  /** A title without tokens has similarity 0 with every title, in either position. */
  lemma TitleSimilarityTokenless(title1: string, title2: string)
    requires Tokenize(title1) == [] || Tokenize(title2) == []
    ensures TitleSimilarity(title1, title2) == 0.0
  {
  }

  /** Title similarity is never negative, and at most 1 when the first title's tokens are distinct. */
  lemma TitleSimilarityBounded(title1: string, title2: string)
    ensures TitleSimilarity(title1, title2) >= 0.0
    ensures Distinct(Tokenize(title1)) && ProtoKey !in Tokenize(title1) ==> TitleSimilarity(title1, title2) <= 1.0
  {
    if Distinct(Tokenize(title1)) && ProtoKey !in Tokenize(title1) {
      JaccardBounded(Tokenize(title1), Tokenize(title2));
    }
  }

  /** computeTitleSimilarity. */
  method ComputeTitleSimilarity(title1: string, title2: string) returns (r: real)
    ensures r == TitleSimilarity(title1, title2)
  {
    var tokens1 := Tokenize(title1);
    var tokens2 := Tokenize(title2);
    if |tokens1| == 0 || |tokens2| == 0 {
      return 0.0;
    }
    var intersectionCount := CountIntersection(tokens1, tokens2);
    var unionCount := CountUnion(tokens1, tokens2);
    r := if unionCount > 0 then intersectionCount as real / unionCount as real else 0.0;
  }

  // ---------------------------------------------------------------------------
  // detectRedundancy

  /**
   * `courseSkillArrays`: each course id mapped to the ids its extraction scores
   * above 0.2; a later course with the same id replaces an earlier one.
   */
  function SkillArrays(courses: seq<Course>, extract: Course -> seq<SkillMatch>): map<string, seq<string>> {
    if courses == [] then map[]
    else
      var last := courses[|courses| - 1];
      SkillArrays(courses[..|courses| - 1], extract)[last.id := SignificantIds(extract(last), 0.2)]
  }

  /** `courseSkillArrays[id] || []`. */
  function SkillsOf(arrays: map<string, seq<string>>, id: string): seq<string> {
    if id in arrays then arrays[id] else []
  }

  /** `overlap * 0.7 + titleSimilarity * 0.3`. */
  function Blend(skills1: seq<string>, skills2: seq<string>, title1: string, title2: string): real {
    Jaccard(skills1, skills2) * 0.7 + TitleSimilarity(title1, title2) * 0.3
  }

  /**
   * What the inner loop body pushes for the pair (i, j) of active courses:
   * nothing or one pair (nothing for positions that are not such a pair).
   */
  function PairOf(active: seq<Course>, arrays: map<string, seq<string>>, i: nat, j: nat): seq<RedundantPair> {
    if !(i < j < |active|) then []
    else
      var skills1 := SkillsOf(arrays, active[i].id);
      var skills2 := SkillsOf(arrays, active[j].id);
      if |skills1| == 0 || |skills2| == 0 then []
      else
        var combined := Blend(skills1, skills2, active[i].title, active[j].title);
        if combined > 0.4 then [RedundantPair(active[i].id, active[j].id, Round2(combined))] else []
  }

  function PairEmitter(active: seq<Course>, arrays: map<string, seq<string>>): (nat, nat) -> seq<RedundantPair> {
    (i: nat, j: nat) => PairOf(active, arrays, i, j)
  }

  /** What `for (j = i + 1; j < jEnd; j++)` pushes, in loop order. */
  function Row<T>(emit: (nat, nat) -> seq<T>, i: nat, jEnd: nat): seq<T>
    decreases jEnd
  {
    if jEnd <= i + 1 then [] else Row(emit, i, jEnd - 1) + emit(i, jEnd - 1)
  }

  /** What the first `iEnd` passes of `for (i = 0; i < n; i++) for (j = i + 1; j < n; j++)` push. */
  function Triangle<T>(emit: (nat, nat) -> seq<T>, n: nat, iEnd: nat): seq<T> {
    if iEnd == 0 then [] else Triangle(emit, n, iEnd - 1) + Row(emit, iEnd - 1, n)
  }

  lemma {:induction false} RowMembers<T>(emit: (nat, nat) -> seq<T>, i: nat, jEnd: nat, p: T)
    ensures p in Row(emit, i, jEnd) <==> exists j: nat :: i < j < jEnd && p in emit(i, j)
    decreases jEnd
  {
    if jEnd > i + 1 {
      RowMembers(emit, i, jEnd - 1, p);
    }
  }

  /** The nested loops visit exactly the pairs i < j < n with i < iEnd. */
  lemma {:induction false} TriangleMembers<T>(emit: (nat, nat) -> seq<T>, n: nat, iEnd: nat, p: T)
    ensures p in Triangle(emit, n, iEnd) <==> exists i: nat, j: nat :: i < iEnd && i < j < n && p in emit(i, j)
    decreases iEnd
  {
    if iEnd > 0 {
      var earlier := Triangle(emit, n, iEnd - 1);
      var row := Row(emit, iEnd - 1, n);
      TriangleMembers(emit, n, iEnd - 1, p);
      RowMembers(emit, iEnd - 1, n, p);
      assert Triangle(emit, n, iEnd) == earlier + row;
      if p in earlier {
        var i: nat, j: nat :| i < iEnd - 1 && i < j < n && p in emit(i, j);
        assert i < iEnd;
      } else if p in row {
        var j: nat :| iEnd - 1 < j < n && p in emit(iEnd - 1, j);
        assert iEnd - 1 < iEnd;
      }
      if exists i: nat, j: nat :: i < iEnd && i < j < n && p in emit(i, j) {
        var i: nat, j: nat :| i < iEnd && i < j < n && p in emit(i, j);
        if i < iEnd - 1 {
          assert p in earlier;
        } else {
          assert p in row;
        }
      }
    }
  }

  /** The pairs pushed by the nested loops of detectRedundancy, in push order. */
  function RedundantPairsOf(active: seq<Course>, arrays: map<string, seq<string>>): seq<RedundantPair> {
    Triangle(PairEmitter(active, arrays), |active|, |active|)
  }

  /** detectRedundancy's result, for a given per-course extraction. */
  function RedundanciesWith(courses: seq<Course>, extract: Course -> seq<SkillMatch>): (r: seq<RedundantPair>)
    ensures SortedDesc(r, OverlapOf)
  {
    SortDesc(RedundantPairsOf(ActiveCourses(courses), SkillArrays(courses, extract)), OverlapOf)
  }

  /** detectRedundancy(courses, skills). */
  function Redundancies(courses: seq<Course>, skills: seq<Skill>): seq<RedundantPair> {
    RedundanciesWith(courses, CatalogExtractor(skills))
  }

  /**
   * The pair `p` is reported for the active courses at positions i < j: both
   * have significant skills, the blend exceeds 0.4 and `p` carries their ids
   * in list order and the blend rounded to two decimals.
   */
  ghost predicate ReportedAt(active: seq<Course>, arrays: map<string, seq<string>>, i: int, j: int, p: RedundantPair) {
    0 <= i < j < |active| &&
    var skills1 := SkillsOf(arrays, active[i].id);
    var skills2 := SkillsOf(arrays, active[j].id);
    |skills1| > 0 && |skills2| > 0 &&
    Blend(skills1, skills2, active[i].title, active[j].title) > 0.4 &&
    p == RedundantPair(active[i].id, active[j].id, Round2(Blend(skills1, skills2, active[i].title, active[j].title)))
  }

  lemma PairOfReported(active: seq<Course>, arrays: map<string, seq<string>>, i: nat, j: nat, p: RedundantPair)
    ensures p in PairOf(active, arrays, i, j) <==> ReportedAt(active, arrays, i, j, p)
  {
  }

  /** The nested loops push a pair exactly when some earlier/later pair of active courses meets the rule. */
  lemma RedundantPairsMembers(active: seq<Course>, arrays: map<string, seq<string>>, p: RedundantPair)
    ensures p in RedundantPairsOf(active, arrays) <==> exists i, j :: ReportedAt(active, arrays, i, j, p)
  {
    var emit := PairEmitter(active, arrays);
    TriangleMembers(emit, |active|, |active|, p);
    if p in RedundantPairsOf(active, arrays) {
      var i: nat, j: nat :| i < |active| && i < j < |active| && p in emit(i, j);
      PairOfReported(active, arrays, i, j, p);
    }
    if exists i, j :: ReportedAt(active, arrays, i, j, p) {
      var i, j :| ReportedAt(active, arrays, i, j, p);
      PairOfReported(active, arrays, i, j, p);
      assert p in emit(i, j);
    }
  }

  /** A pair is reported exactly when some earlier/later pair of active courses meets the rule. */
  lemma RedundanciesMembers(courses: seq<Course>, extract: Course -> seq<SkillMatch>, p: RedundantPair)
    ensures p in RedundanciesWith(courses, extract) <==> p in RedundantPairsOf(ActiveCourses(courses), SkillArrays(courses, extract))
  {
    var pairs := RedundantPairsOf(ActiveCourses(courses), SkillArrays(courses, extract));
    SortDescMembers(pairs, OverlapOf, p);
  }

  /** A blend above 0.4 is reported as at least 0.40. */
  lemma RoundedBlendAtLeast(b: real)
    requires b > 0.4
    ensures Round2(b) >= 0.4
  {
    RoundMonotone(40.0, b * 100.0);
    RoundInteger(40);
  }

  /** Every pushed pair names the active courses at positions i < j and has overlap at least 0.40. */
  lemma RedundantPairShape(active: seq<Course>, arrays: map<string, seq<string>>, p: RedundantPair)
    requires p in RedundantPairsOf(active, arrays)
    ensures exists i, j :: 0 <= i < j < |active| && p.course1 == active[i].id && p.course2 == active[j].id
    ensures p.overlap >= 0.4
  {
    RedundantPairsMembers(active, arrays, p);
    var i, j :| ReportedAt(active, arrays, i, j, p);
    RoundedBlendAtLeast(Blend(SkillsOf(arrays, active[i].id), SkillsOf(arrays, active[j].id), active[i].title, active[j].title));
  }

  /** Only active courses appear, and every overlap is at least 0.40. */
  lemma RedundanciesActive(courses: seq<Course>, extract: Course -> seq<SkillMatch>, p: RedundantPair)
    requires p in RedundanciesWith(courses, extract)
    ensures exists c1, c2 ::
      c1 in courses && c2 in courses && c1.isActive && c2.isActive && p.course1 == c1.id && p.course2 == c2.id
    ensures p.overlap >= 0.4
  {
    var active := ActiveCourses(courses);
    RedundanciesMembers(courses, extract, p);
    RedundantPairShape(active, SkillArrays(courses, extract), p);
    var i, j :| 0 <= i < j < |active| && p.course1 == active[i].id && p.course2 == active[j].id;
    assert active[i] in active && active[j] in active;
  }

  /** With distinct ids, no pushed pair pairs a course with itself or appears mirrored. */
  lemma RedundantPairsNoMirror(active: seq<Course>, arrays: map<string, seq<string>>, p: RedundantPair, q: RedundantPair)
    requires Distinct(MapSeq(active, CourseIdOf))
    requires p in RedundantPairsOf(active, arrays) && q in RedundantPairsOf(active, arrays)
    ensures p.course1 != p.course2
    ensures !(p.course1 == q.course2 && p.course2 == q.course1)
  {
    var ids := MapSeq(active, CourseIdOf);
    RedundantPairShape(active, arrays, p);
    RedundantPairShape(active, arrays, q);
    var i, j :| 0 <= i < j < |active| && p.course1 == active[i].id && p.course2 == active[j].id;
    var i', j' :| 0 <= i' < j' < |active| && q.course1 == active[i'].id && q.course2 == active[j'].id;
    assert ids[i] == p.course1 && ids[j] == p.course2;
    assert ids[i'] == q.course1 && ids[j'] == q.course2;
  }

  /** With distinct active course ids, no reported pair pairs a course with itself or appears mirrored. */
  lemma RedundanciesNoMirror(courses: seq<Course>, extract: Course -> seq<SkillMatch>, p: RedundantPair, q: RedundantPair)
    requires Distinct(MapSeq(ActiveCourses(courses), CourseIdOf))
    requires p in RedundanciesWith(courses, extract) && q in RedundanciesWith(courses, extract)
    ensures p.course1 != p.course2
    ensures !(p.course1 == q.course2 && p.course2 == q.course1)
  {
    RedundanciesMembers(courses, extract, p);
    RedundanciesMembers(courses, extract, q);
    RedundantPairsNoMirror(ActiveCourses(courses), SkillArrays(courses, extract), p, q);
  }

  /** With distinct course ids, a course's entry of `courseSkillArrays` comes from its own extraction. */
  lemma {:induction false} SkillArraysOfCourse(courses: seq<Course>, extract: Course -> seq<SkillMatch>, k: nat)
    requires Distinct(MapSeq(courses, CourseIdOf))
    requires k < |courses|
    ensures SkillsOf(SkillArrays(courses, extract), courses[k].id) == SignificantIds(extract(courses[k]), 0.2)
    decreases |courses|
  {
    var n := |courses| - 1;
    var ids := MapSeq(courses, CourseIdOf);
    if k < n {
      assert MapSeq(courses[..n], CourseIdOf) == ids[..n];
      SkillArraysOfCourse(courses[..n], extract, k);
      assert ids[k] != ids[n];
      assert courses[..n][k] == courses[k];
    }
  }

  /** Stores one course's significant ids, given its extraction. */
  method StoreSkillArray(arrays: map<string, seq<string>>, course: Course, extract: Course -> seq<SkillMatch>, extracted: seq<SkillMatch>)
    returns (next: map<string, seq<string>>)
    requires extracted == extract(course)
    ensures next == arrays[course.id := SignificantIds(extract(course), 0.2)]
  {
    var ids := ArrayFromSkillIds(extracted, 0.2);
    next := arrays[course.id := ids];
  }

  /** The body of detectRedundancy's inner loop for the active courses at i and j. */
  method RedundantPairAt(active: seq<Course>, arrays: map<string, seq<string>>, i: nat, j: nat) returns (entry: seq<RedundantPair>)
    requires i < j < |active|
    ensures entry == PairOf(active, arrays, i, j)
  {
    entry := [];
    var skills1 := SkillsOf(arrays, active[i].id);
    var skills2 := SkillsOf(arrays, active[j].id);
    if |skills1| == 0 || |skills2| == 0 {
      return;
    }
    var intersectionCount := CountIntersection(skills1, skills2);
    var unionCount := CountUnion(skills1, skills2);
    var overlap := if unionCount > 0 then intersectionCount as real / unionCount as real else 0.0;
    var titleSimilarity := ComputeTitleSimilarity(active[i].title, active[j].title);
    var combinedOverlap := overlap * 0.7 + titleSimilarity * 0.3;
    assert combinedOverlap == Blend(skills1, skills2, active[i].title, active[j].title);
    if combinedOverlap > 0.4 {
      entry := [RedundantPair(active[i].id, active[j].id, Round2(combinedOverlap))];
    }
  }

  /** The inner loop of detectRedundancy: the pairs of the active course at `i` with every later one. */
  method RedundantPairsWith(active: seq<Course>, arrays: map<string, seq<string>>, i: nat) returns (row: seq<RedundantPair>)
    requires i < |active|
    ensures row == Row(PairEmitter(active, arrays), i, |active|)
  {
    row := [];
    for j := i + 1 to |active|
      invariant row == Row(PairEmitter(active, arrays), i, j)
    {
      var entry := RedundantPairAt(active, arrays, i, j);
      assert entry == PairEmitter(active, arrays)(i, j);
      row := row + entry;
    }
  }

  /** The nested loops of detectRedundancy over the active courses. */
  method RedundantPairs(active: seq<Course>, arrays: map<string, seq<string>>) returns (pairs: seq<RedundantPair>)
    ensures pairs == RedundantPairsOf(active, arrays)
  {
    pairs := [];
    for i := 0 to |active|
      invariant pairs == Triangle(PairEmitter(active, arrays), |active|, i)
    {
      var row := RedundantPairsWith(active, arrays, i);
      pairs := pairs + row;
    }
  }

  /** detectRedundancy. */
  method DetectRedundancy(courses: seq<Course>, skills: seq<Skill>) returns (r: seq<RedundantPair>)
    ensures r == Redundancies(courses, skills)
  {
    var courseSkillArrays: map<string, seq<string>> := map[];
    for ci := 0 to |courses|
      invariant courseSkillArrays == SkillArrays(courses[..ci], CatalogExtractor(skills))
    {
      var extracted := ExtractSkillsFromCourse(courses[ci], skills);
      courseSkillArrays := StoreSkillArray(courseSkillArrays, courses[ci], CatalogExtractor(skills), extracted);
      assert courseSkillArrays == SkillArrays(courses[..ci + 1], CatalogExtractor(skills)) by {
        assert courses[..ci + 1][..ci] == courses[..ci];
      }
    }
    assert courseSkillArrays == SkillArrays(courses, CatalogExtractor(skills)) by {
      assert courses[..|courses|] == courses;
    }
    var activeCourses := ActiveCourses(courses);
    var redundancies := RedundantPairs(activeCourses, courseSkillArrays);
    r := SortDesc(redundancies, OverlapOf);
  }
}
