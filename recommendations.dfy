/**
 * The recommendation generator (lib/recommendations/engine.ts): threshold
 * rules over the gap list, a static certification table matched against the
 * skills of each cluster's gaps, and a curriculum-change item chosen by the
 * WAI score. The display texts (title, Arabic title, description) are not
 * modelled; a recommendation is its analysis id, type, priority and linked
 * skill ids.
 */
module Recommendations {
  import opened Records
  import opened Numeric
  import opened Sorting
  import opened Text
  import opened SkillExtraction

  datatype Option<T> = None | Some(value: T)

  /** `s.slice(0, n)`. */
  function Take<T>(s: seq<T>, n: nat): (r: seq<T>)
    ensures |r| == MinInt(|s|, n)
    ensures forall i :: 0 <= i < |r| ==> r[i] == s[i]
  {
    s[..MinInt(|s|, n)]
  }

  function GapIdOf(g: GapItem): string { g.skillId }

  // ---------------------------------------------------------------------------
  // CERTIFICATION_MAP

  datatype CertificationEntry = CertificationEntry(name: string, provider: string, skills: seq<string>)

  /** The certification table, per cluster. */
  function CertificationsFor(cluster: SkillCluster): seq<CertificationEntry> {
    match cluster
    case MarketSkills => [
      CertificationEntry("AWS Solutions Architect", "AWS", ["cloud computing", "aws", "cloud architecture", "infrastructure"]),
      CertificationEntry("Google Cloud Professional", "Google", ["cloud computing", "google cloud", "gcp", "machine learning"]),
      CertificationEntry("Azure Administrator", "Microsoft", ["cloud computing", "azure", "microsoft cloud"]),
      CertificationEntry("CCNA", "Cisco", ["networking", "network security", "cisco", "routing"]),
      CertificationEntry("CompTIA Security+", "CompTIA", ["cybersecurity", "security", "information security"]),
      CertificationEntry("CompTIA A+", "CompTIA", ["hardware", "troubleshooting", "technical support"])]
    case CoreAcademic => [
      CertificationEntry("ISACA CISA", "ISACA", ["auditing", "information systems", "governance"]),
      CertificationEntry("ISACA CRISC", "ISACA", ["risk management", "it risk", "control"]),
      CertificationEntry("CompTIA Network+", "CompTIA", ["networking", "network fundamentals"])]
    case FutureSkills => [
      CertificationEntry("Google TensorFlow Developer", "Google", ["machine learning", "deep learning", "ai", "tensorflow"]),
      CertificationEntry("AWS Machine Learning Specialty", "AWS", ["machine learning", "ai", "data science"]),
      CertificationEntry("Microsoft AI Engineer", "Microsoft", ["artificial intelligence", "ai", "cognitive services"])]
    case SoftSkills => [
      CertificationEntry("PMP", "PMI", ["project management", "leadership", "team management"]),
      CertificationEntry("PMI-ACP", "PMI", ["agile", "scrum", "project management"]),
      CertificationEntry("CAPM", "PMI", ["project management", "planning"])]
  }

  // ---------------------------------------------------------------------------
  // Matching a gap against a certification

  /** `skills.find(s => s.id === id)`: the first catalog skill with that id. */
  function FindSkill(skills: seq<Skill>, id: string): (r: Option<Skill>)
    ensures r.None? <==> forall k :: 0 <= k < |skills| ==> skills[k].id != id
    ensures r.Some? ==> exists k :: (0 <= k < |skills| && skills[k] == r.value && r.value.id == id &&
                                     forall j :: 0 <= j < k ==> skills[j].id != id)
  {
    if skills == [] then None
    else if skills[0].id == id then Some(skills[0])
    else
      var r := FindSkill(skills[1..], id);
      assert forall k :: 0 <= k < |skills| - 1 ==> skills[1..][k] == skills[k + 1];
      r
  }

  /** `[...skill.keywords, skill.name.toLowerCase()]`. */
  function SkillKeywords(skill: Skill): seq<string> {
    skill.keywords + [LowerString(skill.name)]
  }

  /** `sk.toLowerCase().includes(cs) || cs.includes(sk.toLowerCase())`. */
  predicate KeywordMatch(sk: string, cs: string) {
    Contains(LowerString(sk), cs) || Contains(cs, LowerString(sk))
  }

  /** The filter in generateRecommendations: the gap's catalog skill shares a keyword with the certification. */
  predicate Related(cert: CertificationEntry, skills: seq<Skill>, g: GapItem) {
    match FindSkill(skills, g.skillId)
    case None => false
    case Some(skill) =>
      exists i, j :: 0 <= i < |cert.skills| && 0 <= j < |SkillKeywords(skill)| &&
        KeywordMatch(SkillKeywords(skill)[j], cert.skills[i])
  }

  function RelatedTo(cert: CertificationEntry, skills: seq<Skill>): GapItem -> bool {
    (g: GapItem) => Related(cert, skills, g)
  }

  /** A gap whose skill id is in no catalog entry never matches a certification. */
  lemma UnknownSkillNeverRelated(cert: CertificationEntry, skills: seq<Skill>, g: GapItem)
    requires forall k :: 0 <= k < |skills| ==> skills[k].id != g.skillId
    ensures !Related(cert, skills, g)
  {
  }

  /** A matching gap has a catalog skill one of whose keywords (or its lower-cased name) contains, or is contained in, a certification skill. */
  lemma RelatedMeansKeywordMatch(cert: CertificationEntry, skills: seq<Skill>, g: GapItem)
    requires Related(cert, skills, g)
    ensures exists skill, sk, cs :: (skill in skills && skill.id == g.skillId && sk in SkillKeywords(skill) &&
                                     cs in cert.skills && (OccursIn(cs, LowerString(sk)) || OccursIn(LowerString(sk), cs)))
  {
    var skill := FindSkill(skills, g.skillId).value;
    var k :| 0 <= k < |skills| && skills[k] == skill && skill.id == g.skillId;
    assert skill in skills;
    var i, j :| 0 <= i < |cert.skills| && 0 <= j < |SkillKeywords(skill)| &&
      KeywordMatch(SkillKeywords(skill)[j], cert.skills[i]);
    var sk, cs := SkillKeywords(skill)[j], cert.skills[i];
    assert sk in SkillKeywords(skill) && cs in cert.skills;
    ContainsIsSubstring(LowerString(sk), cs);
    ContainsIsSubstring(cs, LowerString(sk));
    assert OccursIn(cs, LowerString(sk)) || OccursIn(LowerString(sk), cs);
  }

  /** `sub` occurs somewhere in `s`. */
  ghost predicate OccursIn(sub: string, s: string) {
    exists i :: OccursAt(s, sub, i)
  }

  // ---------------------------------------------------------------------------
  // groupGapsByCluster

  /** The order of `Object.entries(grouped)`: clusters in order of first appearance. */
  function ClusterOrder(gaps: seq<GapItem>): seq<SkillCluster> {
    if gaps == [] then []
    else
      var prev := ClusterOrder(gaps[..|gaps| - 1]);
      var g := gaps[|gaps| - 1];
      if g.cluster in prev then prev else prev + [g.cluster]
  }

  /** The key order lists each cluster that occurs among the gaps, exactly once. */
  lemma {:induction false} ClusterOrderSpec(gaps: seq<GapItem>)
    ensures Distinct(ClusterOrder(gaps))
    ensures forall c :: c in ClusterOrder(gaps) <==> exists g :: g in gaps && g.cluster == c
    decreases |gaps|
  {
    if gaps != [] {
      var prefix := gaps[..|gaps| - 1];
      var g := gaps[|gaps| - 1];
      ClusterOrderSpec(prefix);
      assert gaps == prefix + [g];
      var prev := ClusterOrder(prefix);
      if g.cluster !in prev {
        var r := prev + [g.cluster];
        assert forall i :: 0 <= i < |prev| ==> r[i] == prev[i] && r[i] != g.cluster;
      }
    }
  }

  function InCluster(c: SkillCluster): GapItem -> bool {
    (g: GapItem) => g.cluster == c
  }

  /** `grouped[c]`: the gaps of cluster `c`, in input order. */
  function ClusterGaps(gaps: seq<GapItem>, c: SkillCluster): seq<GapItem> {
    Filter(gaps, InCluster(c))
  }

  /** groupGapsByCluster's result. */
  function GroupsOf(gaps: seq<GapItem>): map<SkillCluster, seq<GapItem>> {
    map c | c in ClusterOrder(gaps) :: ClusterGaps(gaps, c)
  }

  /** The total length of the groups of the listed clusters. */
  function GroupSizes(order: seq<SkillCluster>, gaps: seq<GapItem>): nat {
    if order == [] then 0 else GroupSizes(order[..|order| - 1], gaps) + |ClusterGaps(gaps, order[|order| - 1])|
  }

  /** One more gap of cluster `c` adds one to the listed groups' sizes, if `c` is listed. */
  lemma {:induction false} GroupSizesStep(order: seq<SkillCluster>, gaps: seq<GapItem>, g: GapItem)
    requires Distinct(order)
    ensures GroupSizes(order, gaps + [g]) == GroupSizes(order, gaps) + (if g.cluster in order then 1 else 0)
    decreases |order|
  {
    if order != [] {
      var prefix := order[..|order| - 1];
      var last := order[|order| - 1];
      DistinctInit(order);
      GroupSizesStep(prefix, gaps, g);
      assert (gaps + [g])[..|gaps|] == gaps;
      assert g.cluster in order <==> g.cluster in prefix || g.cluster == last;
    }
  }

  /** No gap of cluster `c` yet: its group is empty. */
  lemma ClusterGapsAbsent(gaps: seq<GapItem>, c: SkillCluster)
    requires c !in ClusterOrder(gaps)
    ensures ClusterGaps(gaps, c) == []
  {
    ClusterOrderSpec(gaps);
  }

  /** Appending a gap extends its own cluster's group and no other. */
  lemma ClusterGapsStep(gaps: seq<GapItem>, g: GapItem, c: SkillCluster)
    ensures ClusterGaps(gaps + [g], c) == ClusterGaps(gaps, c) + (if g.cluster == c then [g] else [])
  {
    assert (gaps + [g])[..|gaps|] == gaps;
  }

  /** groupGapsByCluster is a partition: the group sizes add up to the number of gaps. */
  lemma {:induction false} GroupsPartition(gaps: seq<GapItem>)
    ensures GroupSizes(ClusterOrder(gaps), gaps) == |gaps|
    decreases |gaps|
  {
    if gaps != [] {
      var prefix := gaps[..|gaps| - 1];
      var g := gaps[|gaps| - 1];
      var order := ClusterOrder(prefix);
      ClusterOrderSpec(prefix);
      GroupsPartition(prefix);
      assert gaps == prefix + [g];
      GroupSizesStep(order, prefix, g);
      if g.cluster !in order {
        ClusterGapsAbsent(prefix, g.cluster);
        var full := order + [g.cluster];
        assert full[..|full| - 1] == order;
        assert ClusterGaps(gaps, g.cluster) == [g];
      }
    }
  }

  /** Each gap lands in exactly its own cluster's group, and a group holds only gaps of its cluster. */
  lemma GroupsMembers(gaps: seq<GapItem>, g: GapItem, c: SkillCluster)
    ensures c in GroupsOf(gaps) <==> exists h :: h in gaps && h.cluster == c
    ensures c in GroupsOf(gaps) ==> (g in GroupsOf(gaps)[c] <==> g in gaps && g.cluster == c)
  {
    ClusterOrderSpec(gaps);
    FilterSpec(gaps, InCluster(c));
  }

  /** What groupGapsByCluster has built after reading `prefix`. */
  ghost predicate GroupedUpTo(prefix: seq<GapItem>, grouped: map<SkillCluster, seq<GapItem>>, order: seq<SkillCluster>) {
    order == ClusterOrder(prefix) &&
    (forall c :: c in grouped <==> c in order) &&
    (forall c :: c in grouped ==> grouped[c] == ClusterGaps(prefix, c))
  }

  /** groupGapsByCluster; `order` is the insertion order of the record's keys. */
  method GroupGapsByCluster(gaps: seq<GapItem>) returns (grouped: map<SkillCluster, seq<GapItem>>, order: seq<SkillCluster>)
    ensures order == ClusterOrder(gaps)
    ensures forall c :: c in grouped <==> c in order
    ensures forall c :: c in grouped ==> grouped[c] == ClusterGaps(gaps, c)
  {
    grouped := map[];
    order := [];
    for i := 0 to |gaps|
      invariant GroupedUpTo(gaps[..i], grouped, order)
    {
      var gap := gaps[i];
      assert gaps[..i + 1] == gaps[..i] + [gap];
      GroupStep(gaps[..i], gap, grouped, order);
      var group := if gap.cluster in grouped then grouped[gap.cluster] else [];
      if gap.cluster !in grouped {
        order := order + [gap.cluster];
      }
      grouped := grouped[gap.cluster := group + [gap]];
    }
    assert gaps[..|gaps|] == gaps;
  }

  /** One iteration of groupGapsByCluster keeps its loop invariant. */
  lemma GroupStep(prefix: seq<GapItem>, gap: GapItem, grouped: map<SkillCluster, seq<GapItem>>, order: seq<SkillCluster>)
    requires GroupedUpTo(prefix, grouped, order)
    ensures var group := if gap.cluster in grouped then grouped[gap.cluster] else [];
      GroupedUpTo(prefix + [gap], grouped[gap.cluster := group + [gap]],
                  if gap.cluster in grouped then order else order + [gap.cluster])
  {
    assert (prefix + [gap])[..|prefix|] == prefix;
    forall c
      ensures ClusterGaps(prefix + [gap], c) == ClusterGaps(prefix, c) + (if gap.cluster == c then [gap] else [])
    {
      ClusterGapsStep(prefix, gap, c);
    }
    if gap.cluster !in grouped {
      ClusterGapsAbsent(prefix, gap.cluster);
    }
  }

  /** The method's result is the record `GroupsOf` describes. */
  lemma GroupGapsByClusterIsGroupsOf(gaps: seq<GapItem>, grouped: map<SkillCluster, seq<GapItem>>)
    requires forall c :: c in grouped <==> c in ClusterOrder(gaps)
    requires forall c :: c in grouped ==> grouped[c] == ClusterGaps(gaps, c)
    ensures grouped == GroupsOf(gaps)
  {
  }

  // ---------------------------------------------------------------------------
  // generateRecommendations: the four groups of items

  predicate IsMissingGap(g: GapItem) { g.coverage < 10 }
  predicate IsLowCoverageGap(g: GapItem) { g.coverage >= 10 && g.coverage < 40 }

  function MissingSkillRecommendation(analysisId: string): GapItem -> Recommendation {
    (g: GapItem) => Recommendation(analysisId, MissingSkill, if g.gap > 50 then Critical else High, [g.skillId])
  }

  function MicroModuleRecommendation(analysisId: string): GapItem -> Recommendation {
    (g: GapItem) => Recommendation(analysisId, MicroModule, if g.gap > 30 then High else Medium, [g.skillId])
  }

  /** The `missing_skill` items: the first five gaps below 10% coverage. */
  function MissingSkillRecs(analysisId: string, gaps: seq<GapItem>): seq<Recommendation> {
    MapSeq(Take(Filter(gaps, IsMissingGap), 5), MissingSkillRecommendation(analysisId))
  }

  /** The `micro_module` items: the first five gaps with coverage in [10, 40). */
  function MicroModuleRecs(analysisId: string, gaps: seq<GapItem>): seq<Recommendation> {
    MapSeq(Take(Filter(gaps, IsLowCoverageGap), 5), MicroModuleRecommendation(analysisId))
  }

  /** The item for one certification: present when some gap of the cluster matches it. */
  function CertificationRec(analysisId: string, cert: CertificationEntry, clusterGaps: seq<GapItem>, skills: seq<Skill>): seq<Recommendation> {
    var relatedGaps := Filter(clusterGaps, RelatedTo(cert, skills));
    if |relatedGaps| > 0 then [Recommendation(analysisId, Certification, Medium, MapSeq(relatedGaps, GapIdOf))] else []
  }

  /** The items for one cluster's certifications, in table order. */
  function ClusterCertificationRecs(analysisId: string, certs: seq<CertificationEntry>, clusterGaps: seq<GapItem>, skills: seq<Skill>): (r: seq<Recommendation>)
    ensures |r| <= |certs|
  {
    if certs == [] then []
    else
      ClusterCertificationRecs(analysisId, certs[..|certs| - 1], clusterGaps, skills)
        + CertificationRec(analysisId, certs[|certs| - 1], clusterGaps, skills)
  }

  /** The `certification` items, cluster by cluster in the given order. */
  function CertificationRecs(analysisId: string, table: SkillCluster -> seq<CertificationEntry>, order: seq<SkillCluster>,
                             gaps: seq<GapItem>, skills: seq<Skill>): seq<Recommendation> {
    if order == [] then []
    else
      var cluster := order[|order| - 1];
      CertificationRecs(analysisId, table, order[..|order| - 1], gaps, skills)
        + ClusterCertificationRecs(analysisId, table(cluster), ClusterGaps(gaps, cluster), skills)
  }

  /** The `curriculum_change` item chosen by the WAI score. */
  function CurriculumRecs(analysisId: string, gaps: seq<GapItem>, waiScore: int): (r: seq<Recommendation>)
    ensures |r| == (if waiScore < 70 then 1 else 0)
    ensures forall k :: 0 <= k < |r| ==> r[k].analysisId == analysisId && r[k].kind == CurriculumChange
    ensures waiScore < 50 ==> r[0].priority == Critical && |r[0].linkedSkillIds| == MinInt(|gaps|, 5)
    ensures 50 <= waiScore < 70 ==> r[0].priority == High && |r[0].linkedSkillIds| == MinInt(|gaps|, 3)
    ensures forall k, i :: 0 <= k < |r| && 0 <= i < |r[k].linkedSkillIds| ==> r[k].linkedSkillIds[i] == gaps[i].skillId
  {
    if waiScore < 50 then [Recommendation(analysisId, CurriculumChange, Critical, MapSeq(Take(gaps, 5), GapIdOf))]
    else if waiScore < 70 then [Recommendation(analysisId, CurriculumChange, High, MapSeq(Take(gaps, 3), GapIdOf))]
    else []
  }

  /** generateRecommendations's result. */
  function RecommendationsFor(analysisId: string, gaps: seq<GapItem>, skills: seq<Skill>, waiScore: int): seq<Recommendation> {
    RecommendationsWith(analysisId, CertificationsFor, gaps, skills, waiScore)
  }

  /** generateRecommendations's result, for any certification table. */
  function RecommendationsWith(analysisId: string, certificationMap: SkillCluster -> seq<CertificationEntry>, gaps: seq<GapItem>,
                               skills: seq<Skill>, waiScore: int): seq<Recommendation> {
    MissingSkillRecs(analysisId, gaps) + MicroModuleRecs(analysisId, gaps)
      + CertificationRecs(analysisId, certificationMap, ClusterOrder(gaps), gaps, skills) + CurriculumRecs(analysisId, gaps, waiScore)
  }

  // ---------------------------------------------------------------------------
  // Properties

  /**
   * Item `i` of the `missing_skill` list belongs to the `i`-th gap below 10% coverage, in the order
   * of the gap list, for the first five of them: it links exactly that gap's skill and is critical
   * exactly when the gap exceeds 50, else high.
   */
  lemma MissingSkillRecsSpec(analysisId: string, gaps: seq<GapItem>)
    ensures var r := MissingSkillRecs(analysisId, gaps);
      var m := Filter(gaps, IsMissingGap);
      |r| == MinInt(|m|, 5) &&
      forall i :: 0 <= i < |r| ==>
        m[i] in gaps && m[i].coverage < 10 &&
        r[i].analysisId == analysisId && r[i].kind == MissingSkill && r[i].linkedSkillIds == [m[i].skillId] &&
        (r[i].priority == Critical <==> m[i].gap > 50) && (r[i].priority == Critical || r[i].priority == High)
  {
    FilterSpec(gaps, IsMissingGap);
  }

  /**
   * Item `i` of the `micro_module` list belongs to the `i`-th gap with coverage in [10, 40), in the
   * order of the gap list, for the first five of them: it links exactly that gap's skill and is
   * high exactly when the gap exceeds 30, else medium.
   */
  lemma MicroModuleRecsSpec(analysisId: string, gaps: seq<GapItem>)
    ensures var r := MicroModuleRecs(analysisId, gaps);
      var m := Filter(gaps, IsLowCoverageGap);
      |r| == MinInt(|m|, 5) &&
      forall i :: 0 <= i < |r| ==>
        m[i] in gaps && 10 <= m[i].coverage < 40 &&
        r[i].analysisId == analysisId && r[i].kind == MicroModule && r[i].linkedSkillIds == [m[i].skillId] &&
        (r[i].priority == High <==> m[i].gap > 30) && (r[i].priority == High || r[i].priority == Medium)
  {
    FilterSpec(gaps, IsLowCoverageGap);
  }

  /** No gap feeds both a `missing_skill` and a `micro_module` item; a gap with coverage of 40 or more feeds neither. */
  lemma MissingAndMicroDisjoint(gaps: seq<GapItem>, g: GapItem)
    ensures !(g in Filter(gaps, IsMissingGap) && g in Filter(gaps, IsLowCoverageGap))
    ensures g.coverage >= 40 ==> g !in Filter(gaps, IsMissingGap) && g !in Filter(gaps, IsLowCoverageGap)
  {
    FilterSpec(gaps, IsMissingGap);
    FilterSpec(gaps, IsLowCoverageGap);
  }

  /** Every id a matching certification links is a gap of the cluster whose skill is in the catalog. */
  lemma CertificationRecLinks(analysisId: string, cert: CertificationEntry, clusterGaps: seq<GapItem>, skills: seq<Skill>, r: Recommendation)
    requires r in CertificationRec(analysisId, cert, clusterGaps, skills)
    ensures r.analysisId == analysisId && r.kind == Certification && r.priority == Medium && |r.linkedSkillIds| > 0
    ensures forall id :: id in r.linkedSkillIds ==> exists g :: g in clusterGaps && g.skillId == id && Related(cert, skills, g)
    ensures forall g :: g in clusterGaps && Related(cert, skills, g) ==> g.skillId in r.linkedSkillIds
  {
    var relatedGaps := Filter(clusterGaps, RelatedTo(cert, skills));
    FilterSpec(clusterGaps, RelatedTo(cert, skills));
    forall id | id in r.linkedSkillIds
      ensures exists g :: g in clusterGaps && g.skillId == id && Related(cert, skills, g)
    {
      var i :| 0 <= i < |r.linkedSkillIds| && r.linkedSkillIds[i] == id;
      assert relatedGaps[i] in relatedGaps;
    }
    forall g | g in clusterGaps && Related(cert, skills, g)
      ensures g.skillId in r.linkedSkillIds
    {
      var k :| 0 <= k < |clusterGaps| && clusterGaps[k] == g;
      assert RelatedTo(cert, skills)(clusterGaps[k]);
      var m :| 0 <= m < |relatedGaps| && relatedGaps[m] == g;
      assert r.linkedSkillIds[m] == g.skillId;
    }
  }

  /** A certification yields an item exactly when some gap of the cluster matches it. */
  lemma CertificationRecPresent(analysisId: string, cert: CertificationEntry, clusterGaps: seq<GapItem>, skills: seq<Skill>)
    ensures |CertificationRec(analysisId, cert, clusterGaps, skills)| ==
      (if exists g :: g in clusterGaps && Related(cert, skills, g) then 1 else 0)
  {
    var relatedGaps := Filter(clusterGaps, RelatedTo(cert, skills));
    FilterSpec(clusterGaps, RelatedTo(cert, skills));
    if |relatedGaps| > 0 {
      assert relatedGaps[0] in clusterGaps && Related(cert, skills, relatedGaps[0]);
    }
    if exists g :: g in clusterGaps && Related(cert, skills, g) {
      var g :| g in clusterGaps && Related(cert, skills, g);
      var k :| 0 <= k < |clusterGaps| && clusterGaps[k] == g;
      assert RelatedTo(cert, skills)(clusterGaps[k]);
      assert g in relatedGaps;
    }
  }

  /** The shape of every `certification` item with the gaps of a cluster, for any list of certifications. */
  ghost predicate CertificationShaped(analysisId: string, gaps: seq<GapItem>, skills: seq<Skill>, r: Recommendation) {
    r.analysisId == analysisId && r.kind == Certification && r.priority == Medium && |r.linkedSkillIds| > 0 &&
    forall id :: id in r.linkedSkillIds ==> exists g :: g in gaps && g.skillId == id && FindSkill(skills, id).Some?
  }

  lemma {:induction false} ClusterCertificationRecsShaped(analysisId: string, certs: seq<CertificationEntry>, clusterGaps: seq<GapItem>,
                                                          skills: seq<Skill>, r: Recommendation)
    requires r in ClusterCertificationRecs(analysisId, certs, clusterGaps, skills)
    ensures CertificationShaped(analysisId, clusterGaps, skills, r)
    decreases |certs|
  {
    var prefix := certs[..|certs| - 1];
    var cert := certs[|certs| - 1];
    if r in ClusterCertificationRecs(analysisId, prefix, clusterGaps, skills) {
      ClusterCertificationRecsShaped(analysisId, prefix, clusterGaps, skills, r);
    } else {
      CertificationRecLinks(analysisId, cert, clusterGaps, skills, r);
    }
  }

  /** A group's gaps are gaps. */
  lemma CertificationShapedWiden(analysisId: string, gaps: seq<GapItem>, c: SkillCluster, skills: seq<Skill>, r: Recommendation)
    requires CertificationShaped(analysisId, ClusterGaps(gaps, c), skills, r)
    ensures CertificationShaped(analysisId, gaps, skills, r)
  {
    FilterSpec(gaps, InCluster(c));
  }

  lemma {:induction false} CertificationRecsShaped(analysisId: string, table: SkillCluster -> seq<CertificationEntry>,
                                                   order: seq<SkillCluster>, gaps: seq<GapItem>, skills: seq<Skill>, r: Recommendation)
    requires r in CertificationRecs(analysisId, table, order, gaps, skills)
    ensures CertificationShaped(analysisId, gaps, skills, r)
    decreases |order|
  {
    var prefix := order[..|order| - 1];
    var cluster := order[|order| - 1];
    if r in CertificationRecs(analysisId, table, prefix, gaps, skills) {
      CertificationRecsShaped(analysisId, table, prefix, gaps, skills, r);
    } else {
      ClusterCertificationRecsShaped(analysisId, table(cluster), ClusterGaps(gaps, cluster), skills, r);
      CertificationShapedWiden(analysisId, gaps, cluster, skills, r);
    }
  }

  /**
   * Every `certification` item of the result is medium priority, links at least one id, and links only
   * ids of gaps whose skill is in the catalog.
   */
  lemma CertificationRecsSpec(analysisId: string, table: SkillCluster -> seq<CertificationEntry>, gaps: seq<GapItem>,
                              skills: seq<Skill>, r: Recommendation)
    requires r in CertificationRecs(analysisId, table, ClusterOrder(gaps), gaps, skills)
    ensures r.analysisId == analysisId && r.kind == Certification && r.priority == Medium && |r.linkedSkillIds| > 0
    ensures forall id :: id in r.linkedSkillIds ==>
      (exists g :: g in gaps && g.skillId == id) && (exists k :: 0 <= k < |skills| && skills[k].id == id)
  {
    CertificationRecsShaped(analysisId, table, ClusterOrder(gaps), gaps, skills, r);
  }

  /** The position of each type in the output. */
  function KindRank(kind: RecommendationType): nat {
    match kind
    case MissingSkill => 0
    case MicroModule => 1
    case Certification => 2
    case CurriculumChange => 3
  }

  /** Every item belongs to the analysis and has the given type. */
  ghost predicate AllOf(s: seq<Recommendation>, analysisId: string, kind: RecommendationType) {
    forall i :: 0 <= i < |s| ==> s[i].analysisId == analysisId && s[i].kind == kind
  }

  /** Every item belongs to the analysis and the types never go back in rank. */
  ghost predicate Ranked(s: seq<Recommendation>, analysisId: string, top: RecommendationType) {
    (forall i :: 0 <= i < |s| ==> s[i].analysisId == analysisId && KindRank(s[i].kind) <= KindRank(top)) &&
    (forall i, j :: 0 <= i < j < |s| ==> KindRank(s[i].kind) <= KindRank(s[j].kind))
  }

  lemma RankedAppend(a: seq<Recommendation>, b: seq<Recommendation>, analysisId: string, top: RecommendationType, kind: RecommendationType)
    requires Ranked(a, analysisId, top) && AllOf(b, analysisId, kind) && KindRank(top) <= KindRank(kind)
    ensures Ranked(a + b, analysisId, kind)
  {
  }

  lemma CertificationRecsAllOf(analysisId: string, table: SkillCluster -> seq<CertificationEntry>, gaps: seq<GapItem>, skills: seq<Skill>)
    ensures AllOf(CertificationRecs(analysisId, table, ClusterOrder(gaps), gaps, skills), analysisId, Certification)
  {
    var certs := CertificationRecs(analysisId, table, ClusterOrder(gaps), gaps, skills);
    forall k | 0 <= k < |certs|
      ensures certs[k].analysisId == analysisId && certs[k].kind == Certification
    {
      CertificationRecsSpec(analysisId, table, gaps, skills, certs[k]);
    }
  }

  /** The threshold items are ranked: all `missing_skill` before all `micro_module`. */
  lemma GapRecsRanked(analysisId: string, gaps: seq<GapItem>)
    ensures Ranked(MissingSkillRecs(analysisId, gaps) + MicroModuleRecs(analysisId, gaps), analysisId, MicroModule)
  {
    var missing := MissingSkillRecs(analysisId, gaps);
    var micro := MicroModuleRecs(analysisId, gaps);
    assert Ranked(missing, analysisId, MissingSkill);
    assert AllOf(micro, analysisId, MicroModule);
    RankedAppend(missing, micro, analysisId, MissingSkill, MicroModule);
  }

  /** All items, for any certification table, are ranked by type. */
  lemma RecommendationsRanked(analysisId: string, certificationMap: SkillCluster -> seq<CertificationEntry>, gaps: seq<GapItem>,
                              skills: seq<Skill>, waiScore: int)
    ensures Ranked(RecommendationsWith(analysisId, certificationMap, gaps, skills, waiScore), analysisId, CurriculumChange)
  {
    var typed := MissingSkillRecs(analysisId, gaps) + MicroModuleRecs(analysisId, gaps);
    var certs := CertificationRecs(analysisId, certificationMap, ClusterOrder(gaps), gaps, skills);
    var curriculum := CurriculumRecs(analysisId, gaps, waiScore);
    GapRecsRanked(analysisId, gaps);
    CertificationRecsAllOf(analysisId, certificationMap, gaps, skills);
    RankedAppend(typed, certs, analysisId, MicroModule, Certification);
    assert AllOf(curriculum, analysisId, CurriculumChange);
    RankedAppend(typed + certs, curriculum, analysisId, Certification, CurriculumChange);
    assert RecommendationsWith(analysisId, certificationMap, gaps, skills, waiScore) == typed + certs + curriculum;
  }

  /** Every item carries the analysis id, and the items come as all `missing_skill`, then `micro_module`, then `certification`, then `curriculum_change`. */
  lemma RecommendationsOrder(analysisId: string, gaps: seq<GapItem>, skills: seq<Skill>, waiScore: int)
    ensures var r := RecommendationsFor(analysisId, gaps, skills, waiScore);
      forall i :: 0 <= i < |r| ==> r[i].analysisId == analysisId
    ensures var r := RecommendationsFor(analysisId, gaps, skills, waiScore);
      forall i, j :: 0 <= i < j < |r| ==> KindRank(r[i].kind) <= KindRank(r[j].kind)
  {
    RecommendationsRanked(analysisId, CertificationsFor, gaps, skills, waiScore);
  }

  // ---------------------------------------------------------------------------
  // generateRecommendations

  /** The inner loop over one cluster's certifications. */
  method AddClusterCertifications(recommendations: seq<Recommendation>, analysisId: string, certifications: seq<CertificationEntry>,
                                  clusterGaps: seq<GapItem>, skills: seq<Skill>) returns (next: seq<Recommendation>)
    ensures next == recommendations + ClusterCertificationRecs(analysisId, certifications, clusterGaps, skills)
  {
    next := recommendations;
    for i := 0 to |certifications|
      invariant next == recommendations + ClusterCertificationRecs(analysisId, certifications[..i], clusterGaps, skills)
    {
      assert certifications[..i + 1][..i] == certifications[..i];
      var cert := certifications[i];
      var relatedGaps := Filter(clusterGaps, RelatedTo(cert, skills));
      if |relatedGaps| > 0 {
        next := next + [Recommendation(analysisId, Certification, Medium, MapSeq(relatedGaps, GapIdOf))];
      }
    }
    assert certifications[..|certifications|] == certifications;
  }

  /** The loop over `Object.entries(gapsByCluster)`, whose key order is `order`, reading the certification table `certificationMap`. */
  method AddCertifications(recommendations: seq<Recommendation>, analysisId: string, certificationMap: SkillCluster -> seq<CertificationEntry>,
                           gaps: seq<GapItem>, skills: seq<Skill>, gapsByCluster: map<SkillCluster, seq<GapItem>>, order: seq<SkillCluster>)
    returns (next: seq<Recommendation>)
    requires forall c :: c in gapsByCluster <==> c in order
    requires forall c :: c in gapsByCluster ==> gapsByCluster[c] == ClusterGaps(gaps, c)
    ensures next == recommendations + CertificationRecs(analysisId, certificationMap, order, gaps, skills)
  {
    next := recommendations;
    for ci := 0 to |order|
      invariant next == recommendations + CertificationRecs(analysisId, certificationMap, order[..ci], gaps, skills)
    {
      var cluster := order[ci];
      var clusterGaps := gapsByCluster[cluster];
      var certifications := certificationMap(cluster);
      ghost var done := next;
      next := AddClusterCertifications(next, analysisId, certifications, clusterGaps, skills);
      assert next == recommendations + CertificationRecs(analysisId, certificationMap, order[..ci + 1], gaps, skills) by {
        CertificationRecsStep(analysisId, certificationMap, order, ci, gaps, skills);
        assert next == done + ClusterCertificationRecs(analysisId, certificationMap(order[ci]), ClusterGaps(gaps, order[ci]), skills);
      }
    }
    assert order[..|order|] == order;
  }

  lemma CertificationRecsStep(analysisId: string, table: SkillCluster -> seq<CertificationEntry>, order: seq<SkillCluster>, ci: nat,
                              gaps: seq<GapItem>, skills: seq<Skill>)
    requires ci < |order|
    ensures CertificationRecs(analysisId, table, order[..ci + 1], gaps, skills) ==
      CertificationRecs(analysisId, table, order[..ci], gaps, skills)
        + ClusterCertificationRecs(analysisId, table(order[ci]), ClusterGaps(gaps, order[ci]), skills)
  {
    assert order[..ci + 1][..ci] == order[..ci];
  }

  /** A loop pushing one item per gap. */
  method AddPerGap(recommendations: seq<Recommendation>, gaps: seq<GapItem>, item: GapItem -> Recommendation)
    returns (next: seq<Recommendation>)
    ensures next == recommendations + MapSeq(gaps, item)
  {
    next := recommendations;
    for i := 0 to |gaps|
      invariant next == recommendations + MapSeq(gaps[..i], item)
    {
      next := next + [item(gaps[i])];
    }
    assert gaps[..|gaps|] == gaps;
  }

  /** generateRecommendations. */
  method GenerateRecommendations(analysisId: string, gaps: seq<GapItem>, skills: seq<Skill>, waiScore: int)
    returns (recommendations: seq<Recommendation>)
    ensures recommendations == RecommendationsFor(analysisId, gaps, skills, waiScore)
  {
    recommendations := [];
    var missingSkillGaps := Filter(gaps, IsMissingGap);
    recommendations := AddPerGap(recommendations, Take(missingSkillGaps, 5), MissingSkillRecommendation(analysisId));
    assert recommendations == MissingSkillRecs(analysisId, gaps);
    var lowCoverageGaps := Filter(gaps, IsLowCoverageGap);
    recommendations := AddPerGap(recommendations, Take(lowCoverageGaps, 5), MicroModuleRecommendation(analysisId));
    ghost var typed := recommendations;
    assert typed == MissingSkillRecs(analysisId, gaps) + MicroModuleRecs(analysisId, gaps);
    var gapsByCluster, order := GroupGapsByCluster(gaps);
    recommendations := AddCertifications(recommendations, analysisId, CertificationsFor, gaps, skills, gapsByCluster, order);
    ghost var certified := recommendations;
    assert certified == typed + CertificationRecs(analysisId, CertificationsFor, ClusterOrder(gaps), gaps, skills);
    if waiScore < 50 {
      recommendations := recommendations + [Recommendation(analysisId, CurriculumChange, Critical, MapSeq(Take(gaps, 5), GapIdOf))];
    } else if waiScore < 70 {
      recommendations := recommendations + [Recommendation(analysisId, CurriculumChange, High, MapSeq(Take(gaps, 3), GapIdOf))];
    }
    assert recommendations == certified + CurriculumRecs(analysisId, gaps, waiScore);
  }
}
