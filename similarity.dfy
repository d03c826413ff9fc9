/**
 * cosineSimilarity and computeCoverageByCluster (lib/analysis/similarity.ts).
 *
 * The cosine accumulates over the union of both vectors' keys; since real
 * addition is associative and commutative, the model sums over that key set
 * in whatever order the loop picks. Math.sqrt is a parameter `sqrt`; the
 * lemmas that need it to be a square root say so at the two points used.
 */
module Similarity {
  import opened Records
  import opened Numeric

  // ---------------------------------------------------------------------------
  // Sums over a key set

  ghost function Pick(s: set<string>): string
    requires s != {}
  {
    var k :| k in s; k
  }

  /** `(vectorA[key] || 0) * (vectorB[key] || 0)`. */
  function Product(a: Vector, b: Vector, key: string): real {
    Mul(Get(a, key), Get(b, key))
  }

  /** The sum of `Product(a, b, k)` over the keys. */
  ghost function Dot(keys: set<string>, a: Vector, b: Vector): real
    decreases keys
  {
    if keys == {} then 0.0 else var k := Pick(keys); Product(a, b, k) + Dot(keys - {k}, a, b)
  }

  /** The sum does not depend on which key is taken first. */
  lemma {:induction false} DotRemove(keys: set<string>, a: Vector, b: Vector, k: string)
    requires k in keys
    ensures Dot(keys, a, b) == Product(a, b, k) + Dot(keys - {k}, a, b)
    decreases keys
  {
    var x := Pick(keys);
    if x != k {
      DotRemove(keys - {x}, a, b, k);
      DotRemove(keys - {k}, a, b, x);
      assert keys - {x} - {k} == keys - {k} - {x};
    }
  }

  lemma {:induction false} DotSymmetric(keys: set<string>, a: Vector, b: Vector)
    ensures Dot(keys, a, b) == Dot(keys, b, a)
    decreases keys
  {
    if keys != {} {
      DotSymmetric(keys - {Pick(keys)}, a, b);
    }
  }

  lemma {:induction false} DotSelfNonNegative(keys: set<string>, a: Vector)
    ensures Dot(keys, a, a) >= 0.0
    decreases keys
  {
    if keys != {} {
      var k := Pick(keys);
      DotSelfNonNegative(keys - {k}, a);
      SquareNonNegative(Get(a, k));
    }
  }

  /** All entries are non-negative. */
  ghost predicate NonNegative(v: Vector) {
    forall k :: k in v ==> v[k] >= 0.0
  }

  lemma {:induction false} DotNonNegative(keys: set<string>, a: Vector, b: Vector)
    requires NonNegative(a) && NonNegative(b)
    ensures Dot(keys, a, b) >= 0.0
    decreases keys
  {
    if keys != {} {
      var k := Pick(keys);
      DotNonNegative(keys - {k}, a, b);
      ProductNonNegative(Get(a, k), Get(b, k));
    }
  }

  /** One non-zero entry makes the squared magnitude positive. */
  lemma DotSelfPositive(keys: set<string>, a: Vector, k: string)
    requires k in keys && Get(a, k) != 0.0
    ensures Dot(keys, a, a) > 0.0
  {
    DotRemove(keys, a, a, k);
    DotSelfNonNegative(keys - {k}, a);
    SquarePositive(Get(a, k));
  }

  /** Sums of pointwise equal terms are equal. */
  lemma {:induction false} DotPointwise(keys: set<string>, a: Vector, b: Vector, a': Vector, b': Vector)
    requires forall k :: k in keys ==> Product(a, b, k) == Product(a', b', k)
    ensures Dot(keys, a, b) == Dot(keys, a', b')
    decreases keys
  {
    if keys != {} {
      DotPointwise(keys - {Pick(keys)}, a, b, a', b');
    }
  }

  /** Keys whose terms are zero do not change the sum. */
  lemma {:induction false} DotZeroKeys(small: set<string>, big: set<string>, a: Vector, b: Vector)
    requires small <= big
    requires forall k :: k in big && k !in small ==> Product(a, b, k) == 0.0
    ensures Dot(big, a, b) == Dot(small, a, b)
    decreases big
  {
    if big != small {
      var y :| y in big && y !in small;
      DotRemove(big, a, b, y);
      DotZeroKeys(small, big - {y}, a, b);
    }
  }

  // ---------------------------------------------------------------------------
  // Cauchy–Schwarz

  /** For non-negative `s`, `t * t <= s * s` gives `t <= s`. */
  lemma BelowBySquares(s: real, t: real)
    requires s >= 0.0 && Mul(t, t) <= Mul(s, s)
    ensures t <= s
  {
    if t > s {
      ProductPositive(t - s, t + s);
    }
  }

  /** `4uv <= (u + v)^2`. */
  lemma FourProducts(u: real, v: real)
    ensures 4.0 * Mul(u, v) <= Mul(u + v, u + v)
  {
    SquareNonNegative(u - v);
    assert Mul(u + v, u + v) - 4.0 * Mul(u, v) == Mul(u - v, u - v);
  }

  /** `2cxy <= p y^2 + q x^2` when `c^2 <= pq`. */
  lemma CrossTerm(c: real, p: real, q: real, x: real, y: real)
    requires Mul(c, c) <= Mul(p, q) && p >= 0.0 && q >= 0.0
    ensures 2.0 * Mul(c, Mul(x, y)) <= Mul(p, Mul(y, y)) + Mul(q, Mul(x, x))
  {
    SquareNonNegative(x);
    SquareNonNegative(y);
    SquareNonNegative(Mul(x, y));
    ProductNonNegative(p, Mul(y, y));
    ProductNonNegative(q, Mul(x, x));
    ProductMonotone(Mul(c, c), Mul(p, q), Mul(Mul(x, y), Mul(x, y)));
    FourProducts(Mul(p, Mul(y, y)), Mul(q, Mul(x, x)));
    assert Mul(Mul(p, Mul(y, y)), Mul(q, Mul(x, x))) == Mul(Mul(p, q), Mul(Mul(x, y), Mul(x, y)));
    assert Mul(2.0 * Mul(c, Mul(x, y)), 2.0 * Mul(c, Mul(x, y))) == 4.0 * Mul(Mul(c, c), Mul(Mul(x, y), Mul(x, y)));
    BelowBySquares(Mul(p, Mul(y, y)) + Mul(q, Mul(x, x)), 2.0 * Mul(c, Mul(x, y)));
  }

  /** The induction step of Cauchy–Schwarz: one more term on each sum. */
  lemma CauchySchwarzStep(c: real, p: real, q: real, x: real, y: real)
    requires Mul(c, c) <= Mul(p, q) && p >= 0.0 && q >= 0.0
    ensures Mul(c + Mul(x, y), c + Mul(x, y)) <= Mul(p + Mul(x, x), q + Mul(y, y))
  {
    CrossTerm(c, p, q, x, y);
    assert Mul(c + Mul(x, y), c + Mul(x, y)) == Mul(c, c) + 2.0 * Mul(c, Mul(x, y)) + Mul(Mul(x, y), Mul(x, y));
    assert Mul(p + Mul(x, x), q + Mul(y, y)) == Mul(p, q) + Mul(p, Mul(y, y)) + Mul(q, Mul(x, x)) + Mul(Mul(x, x), Mul(y, y));
    assert Mul(Mul(x, x), Mul(y, y)) == Mul(Mul(x, y), Mul(x, y));
  }

  /** `dot(a, b)^2 <= |a|^2 * |b|^2`. */
  lemma {:induction false} CauchySchwarz(keys: set<string>, a: Vector, b: Vector)
    ensures Mul(Dot(keys, a, b), Dot(keys, a, b)) <= Mul(Dot(keys, a, a), Dot(keys, b, b))
    decreases keys
  {
    if keys != {} {
      var k := Pick(keys);
      var rest := keys - {k};
      CauchySchwarz(rest, a, b);
      DotSelfNonNegative(rest, a);
      DotSelfNonNegative(rest, b);
      CauchySchwarzStep(Dot(rest, a, b), Dot(rest, a, a), Dot(rest, b, b), Get(a, k), Get(b, k));
    }
  }

  // ---------------------------------------------------------------------------
  // cosineSimilarity

  /** `sqrt` gives the non-negative square root of `x`. */
  predicate IsSqrtAt(sqrt: real -> real, x: real) {
    sqrt(x) >= 0.0 && Mul(sqrt(x), sqrt(x)) == x
  }

  /** The union of both vectors' keys (`allKeys`). */
  function AllKeys(a: Vector, b: Vector): set<string> {
    a.Keys + b.Keys
  }

  lemma ProductNonZero(x: real, y: real)
    requires x != 0.0 && y != 0.0
    ensures Mul(x, y) != 0.0
  {
  }

  /** The final step of cosineSimilarity: the guarded quotient of the three accumulated sums. */
  function CosineOf(dotProduct: real, squaredA: real, squaredB: real, sqrt: real -> real): real {
    var magnitudeA := sqrt(squaredA);
    var magnitudeB := sqrt(squaredB);
    if magnitudeA == 0.0 || magnitudeB == 0.0 then 0.0
    else
      ProductNonZero(magnitudeA, magnitudeB);
      dotProduct / Mul(magnitudeA, magnitudeB)
  }

  /** cosineSimilarity(a, b) with Math.sqrt taken to be `sqrt`. */
  ghost function Cosine(a: Vector, b: Vector, sqrt: real -> real): real {
    var keys := AllKeys(a, b);
    CosineOf(Dot(keys, a, b), Dot(keys, a, a), Dot(keys, b, b), sqrt)
  }

  /** A square root is 0 exactly at 0. */
  lemma SqrtZero(sqrt: real -> real, x: real)
    requires IsSqrtAt(sqrt, x)
    ensures sqrt(x) == 0.0 <==> x == 0.0
  {
    if sqrt(x) != 0.0 {
      SquarePositive(sqrt(x));
    }
  }

  /** A vector whose squared magnitude is 0 has similarity exactly 0 with everything. */
  lemma CosineZeroMagnitude(a: Vector, b: Vector, sqrt: real -> real)
    requires IsSqrtAt(sqrt, Dot(AllKeys(a, b), a, a)) && IsSqrtAt(sqrt, Dot(AllKeys(a, b), b, b))
    ensures Dot(AllKeys(a, b), a, a) == 0.0 ==> Cosine(a, b, sqrt) == 0.0
    ensures Dot(AllKeys(a, b), b, b) == 0.0 ==> Cosine(a, b, sqrt) == 0.0
  {
    SqrtZero(sqrt, Dot(AllKeys(a, b), a, a));
    SqrtZero(sqrt, Dot(AllKeys(a, b), b, b));
  }

  /** The similarity of a with b is that of b with a. */
  lemma CosineSymmetric(a: Vector, b: Vector, sqrt: real -> real)
    ensures Cosine(a, b, sqrt) == Cosine(b, a, sqrt)
  {
    assert AllKeys(a, b) == AllKeys(b, a);
    DotSymmetric(AllKeys(a, b), a, b);
  }

  lemma QuotientAtMostOne(x: real, y: real)
    requires 0.0 <= x <= y && y > 0.0
    ensures 0.0 <= x / y <= 1.0
  {
  }

  /** A non-negative dot product within the Cauchy–Schwarz bound gives a quotient in [0, 1]. */
  lemma CosineOfBounded(dotProduct: real, squaredA: real, squaredB: real, sqrt: real -> real)
    requires dotProduct >= 0.0 && Mul(dotProduct, dotProduct) <= Mul(squaredA, squaredB)
    requires IsSqrtAt(sqrt, squaredA) && IsSqrtAt(sqrt, squaredB)
    ensures 0.0 <= CosineOf(dotProduct, squaredA, squaredB, sqrt) <= 1.0
  {
    var magnitudeA := sqrt(squaredA);
    var magnitudeB := sqrt(squaredB);
    if magnitudeA != 0.0 && magnitudeB != 0.0 {
      assert Mul(Mul(magnitudeA, magnitudeB), Mul(magnitudeA, magnitudeB))
        == Mul(Mul(magnitudeA, magnitudeA), Mul(magnitudeB, magnitudeB));
      ProductPositive(magnitudeA, magnitudeB);
      BelowBySquares(Mul(magnitudeA, magnitudeB), dotProduct);
      QuotientAtMostOne(dotProduct, Mul(magnitudeA, magnitudeB));
    }
  }

  /** For non-negative vectors the similarity lies in [0, 1]. */
  lemma CosineBounded(a: Vector, b: Vector, sqrt: real -> real)
    requires NonNegative(a) && NonNegative(b)
    requires IsSqrtAt(sqrt, Dot(AllKeys(a, b), a, a)) && IsSqrtAt(sqrt, Dot(AllKeys(a, b), b, b))
    ensures 0.0 <= Cosine(a, b, sqrt) <= 1.0
  {
    var keys := AllKeys(a, b);
    DotNonNegative(keys, a, b);
    CauchySchwarz(keys, a, b);
    CosineOfBounded(Dot(keys, a, b), Dot(keys, a, a), Dot(keys, b, b), sqrt);
  }

  /** A positive squared magnitude over itself gives 1. */
  lemma CosineOfSelf(squared: real, sqrt: real -> real)
    requires squared > 0.0 && IsSqrtAt(sqrt, squared)
    ensures CosineOf(squared, squared, squared, sqrt) == 1.0
  {
    SqrtZero(sqrt, squared);
    assert squared / squared == 1.0;
  }

  /** A vector with a non-zero entry has similarity 1 with itself. */
  lemma CosineSelf(a: Vector, sqrt: real -> real, k: string)
    requires k in a && a[k] != 0.0
    requires IsSqrtAt(sqrt, Dot(a.Keys, a, a))
    ensures Cosine(a, a, sqrt) == 1.0
  {
    assert AllKeys(a, a) == a.Keys;
    DotSelfPositive(a.Keys, a, k);
    CosineOfSelf(Dot(a.Keys, a, a), sqrt);
  }

  /** Keys of neither vector contribute nothing, so the sum over any larger key set is the same. */
  lemma DotOverMoreKeys(a: Vector, b: Vector, x: Vector, y: Vector, all: set<string>)
    requires AllKeys(a, b) <= all
    requires x in {a, b} && y in {a, b}
    ensures Dot(all, x, y) == Dot(AllKeys(a, b), x, y)
  {
    DotZeroKeys(AllKeys(a, b), all, x, y);
  }

  /** Absent keys count as 0: vectors that read the same at every key have the same similarity. */
  lemma CosineReadsOnlyValues(a: Vector, b: Vector, a': Vector, b': Vector, sqrt: real -> real)
    requires forall k :: Get(a', k) == Get(a, k)
    requires forall k :: Get(b', k) == Get(b, k)
    ensures Cosine(a', b', sqrt) == Cosine(a, b, sqrt)
  {
    var all := AllKeys(a, b) + AllKeys(a', b');
    DotOverMoreKeys(a, b, a, b, all);
    DotOverMoreKeys(a, b, a, a, all);
    DotOverMoreKeys(a, b, b, b, all);
    DotOverMoreKeys(a', b', a', b', all);
    DotOverMoreKeys(a', b', a', a', all);
    DotOverMoreKeys(a', b', b', b', all);
    DotPointwise(all, a, b, a', b');
    DotPointwise(all, a, a, a', a');
    DotPointwise(all, b, b, b', b');
  }

  /** The `keySet` loops of cosineSimilarity: the union of both vectors' keys. */
  method KeyUnion(vectorA: Vector, vectorB: Vector) returns (allKeys: set<string>)
    ensures allKeys == AllKeys(vectorA, vectorB)
  {
    var keySet: map<string, bool> := map[];
    var pending := vectorA.Keys;
    while pending != {}
      invariant pending <= vectorA.Keys
      invariant keySet.Keys == vectorA.Keys - pending
      decreases pending
    {
      var k :| k in pending;
      keySet := keySet[k := true];
      pending := pending - {k};
    }
    pending := vectorB.Keys;
    while pending != {}
      invariant pending <= vectorB.Keys
      invariant keySet.Keys == vectorA.Keys + (vectorB.Keys - pending)
      decreases pending
    {
      var k :| k in pending;
      keySet := keySet[k := true];
      pending := pending - {k};
    }
    allKeys := keySet.Keys;
  }

  /** The accumulation loop of cosineSimilarity over `allKeys`. */
  method Accumulate(allKeys: set<string>, vectorA: Vector, vectorB: Vector)
    returns (dotProduct: real, magnitudeA: real, magnitudeB: real)
    ensures dotProduct == Dot(allKeys, vectorA, vectorB)
    ensures magnitudeA == Dot(allKeys, vectorA, vectorA)
    ensures magnitudeB == Dot(allKeys, vectorB, vectorB)
  {
    dotProduct, magnitudeA, magnitudeB := 0.0, 0.0, 0.0;
    var pending := allKeys;
    while pending != {}
      invariant pending <= allKeys
      invariant dotProduct + Dot(pending, vectorA, vectorB) == Dot(allKeys, vectorA, vectorB)
      invariant magnitudeA + Dot(pending, vectorA, vectorA) == Dot(allKeys, vectorA, vectorA)
      invariant magnitudeB + Dot(pending, vectorB, vectorB) == Dot(allKeys, vectorB, vectorB)
      decreases pending
    {
      var key :| key in pending;
      var a := Get(vectorA, key);
      var b := Get(vectorB, key);
      DotRemove(pending, vectorA, vectorB, key);
      DotRemove(pending, vectorA, vectorA, key);
      DotRemove(pending, vectorB, vectorB, key);
      dotProduct := dotProduct + Mul(a, b);
      magnitudeA := magnitudeA + Mul(a, a);
      magnitudeB := magnitudeB + Mul(b, b);
      pending := pending - {key};
    }
  }

  /** cosineSimilarity. */
  method CosineSimilarity(vectorA: Vector, vectorB: Vector, sqrt: real -> real) returns (r: real)
    ensures r == Cosine(vectorA, vectorB, sqrt)
  {
    var allKeys := KeyUnion(vectorA, vectorB);
    var dotProduct, magnitudeA, magnitudeB := Accumulate(allKeys, vectorA, vectorB);
    magnitudeA := sqrt(magnitudeA);
    magnitudeB := sqrt(magnitudeB);
    if magnitudeA == 0.0 || magnitudeB == 0.0 {
      return 0.0;
    }
    ProductNonZero(magnitudeA, magnitudeB);
    r := dotProduct / Mul(magnitudeA, magnitudeB);
  }

  // ---------------------------------------------------------------------------
  // computeCoverageByCluster

  /** `clusterScores[cluster]`: the running total and count of one cluster. */
  datatype Tally = Tally(total: real, count: nat)

  /** `clusterScores` after the loop over the given skills. */
  function Tallies(vector: Vector, skills: seq<Skill>): map<SkillCluster, Tally> {
    if skills == [] then map[]
    else
      var prev := Tallies(vector, skills[..|skills| - 1]);
      var skill := skills[|skills| - 1];
      var t := if skill.cluster in prev then prev[skill.cluster] else Tally(0.0, 0);
      prev[skill.cluster := Tally(t.total + Get(vector, skill.id), t.count + 1)]
  }

  /** The sum of `vector[skill.id] || 0` over the skills of cluster `c`. */
  function ClusterTotal(vector: Vector, skills: seq<Skill>, c: SkillCluster): real {
    if skills == [] then 0.0
    else
      var skill := skills[|skills| - 1];
      ClusterTotal(vector, skills[..|skills| - 1], c) + (if skill.cluster == c then Get(vector, skill.id) else 0.0)
  }

  /** The number of skills of cluster `c`. */
  function ClusterSize(skills: seq<Skill>, c: SkillCluster): nat {
    if skills == [] then 0
    else ClusterSize(skills[..|skills| - 1], c) + (if skills[|skills| - 1].cluster == c then 1 else 0)
  }

  /** `data.count > 0 ? Math.round((data.total / data.count) * 100) : 0`. */
  function CoverageOf(t: Tally): int {
    if t.count > 0 then Round((t.total / t.count as real) * 100.0) else 0
  }

  /** computeCoverageByCluster's result. */
  function Coverage(vector: Vector, skills: seq<Skill>): map<SkillCluster, int> {
    var tallies := Tallies(vector, skills);
    map c | c in tallies :: CoverageOf(tallies[c])
  }

  /** A cluster has a tally exactly when some skill carries it, and the tally is its total and size. */
  lemma {:induction false} TalliesSpec(vector: Vector, skills: seq<Skill>, c: SkillCluster)
    ensures c in Tallies(vector, skills) <==> ClusterSize(skills, c) > 0
    ensures c in Tallies(vector, skills) ==>
      Tallies(vector, skills)[c] == Tally(ClusterTotal(vector, skills, c), ClusterSize(skills, c))
    ensures ClusterSize(skills, c) == 0 ==> ClusterTotal(vector, skills, c) == 0.0
    decreases |skills|
  {
    if skills != [] {
      var prefix := skills[..|skills| - 1];
      var skill := skills[|skills| - 1];
      TalliesSpec(vector, prefix, c);
      var prev := Tallies(vector, prefix);
      var t := if skill.cluster in prev then prev[skill.cluster] else Tally(0.0, 0);
      assert Tallies(vector, skills) == prev[skill.cluster := Tally(t.total + Get(vector, skill.id), t.count + 1)];
      assert ClusterSize(skills, c) == ClusterSize(prefix, c) + (if skill.cluster == c then 1 else 0);
      assert ClusterTotal(vector, skills, c) == ClusterTotal(vector, prefix, c) + (if skill.cluster == c then Get(vector, skill.id) else 0.0);
    }
  }

  /** Some skill of cluster `c` exists exactly when the cluster has a positive size. */
  lemma {:induction false} ClusterSizePositive(skills: seq<Skill>, c: SkillCluster)
    ensures ClusterSize(skills, c) > 0 <==> exists k :: 0 <= k < |skills| && skills[k].cluster == c
    decreases |skills|
  {
    if skills != [] {
      var prefix := skills[..|skills| - 1];
      ClusterSizePositive(prefix, c);
      if exists k :: 0 <= k < |prefix| && prefix[k].cluster == c {
        var k :| 0 <= k < |prefix| && prefix[k].cluster == c;
        assert skills[k] == prefix[k];
      }
      if exists k :: 0 <= k < |skills| && skills[k].cluster == c {
        var k :| 0 <= k < |skills| && skills[k].cluster == c;
        if k < |prefix| {
          assert prefix[k] == skills[k];
        }
      }
    }
  }

  /** With entries in [0, 1], a cluster's total lies between 0 and its size. */
  lemma {:induction false} ClusterTotalBounded(vector: Vector, skills: seq<Skill>, c: SkillCluster)
    requires forall k :: 0 <= k < |skills| ==> 0.0 <= Get(vector, skills[k].id) <= 1.0
    ensures 0.0 <= ClusterTotal(vector, skills, c) <= ClusterSize(skills, c) as real
    decreases |skills|
  {
    if skills != [] {
      var prefix := skills[..|skills| - 1];
      assert forall k :: 0 <= k < |prefix| ==> prefix[k] == skills[k];
      ClusterTotalBounded(vector, prefix, c);
    }
  }

  /** The result has a key for a cluster exactly when some skill carries it; its value is the rounded mean percentage. */
  lemma CoverageSpec(vector: Vector, skills: seq<Skill>, c: SkillCluster)
    ensures c in Coverage(vector, skills) <==> exists k :: 0 <= k < |skills| && skills[k].cluster == c
    ensures c in Coverage(vector, skills) <==> ClusterSize(skills, c) > 0
    ensures ClusterSize(skills, c) > 0 ==>
      Coverage(vector, skills)[c] == Round(ClusterTotal(vector, skills, c) / ClusterSize(skills, c) as real * 100.0)
  {
    TalliesSpec(vector, skills, c);
    ClusterSizePositive(skills, c);
  }

  /** With entries in [0, 1], every coverage value lies in [0, 100]. */
  lemma CoverageBounded(vector: Vector, skills: seq<Skill>, c: SkillCluster)
    requires forall k :: 0 <= k < |skills| ==> 0.0 <= Get(vector, skills[k].id) <= 1.0
    requires c in Coverage(vector, skills)
    ensures 0 <= Coverage(vector, skills)[c] <= 100
  {
    CoverageSpec(vector, skills, c);
    TalliesSpec(vector, skills, c);
    ClusterTotalBounded(vector, skills, c);
    var total := ClusterTotal(vector, skills, c);
    var size := ClusterSize(skills, c) as real;
    QuotientAtMostOne(total, size);
    RoundWithin(total / size * 100.0, 0, 100);
  }

  /** computeCoverageByCluster. */
  method ComputeCoverageByCluster(programVector: Vector, skills: seq<Skill>) returns (result: map<SkillCluster, int>)
    ensures result == Coverage(programVector, skills)
  {
    var clusterScores: map<SkillCluster, Tally> := map[];
    for i := 0 to |skills|
      invariant clusterScores == Tallies(programVector, skills[..i])
    {
      assert skills[..i + 1][..i] == skills[..i];
      var skill := skills[i];
      if skill.cluster !in clusterScores {
        clusterScores := clusterScores[skill.cluster := Tally(0.0, 0)];
      }
      var data := clusterScores[skill.cluster];
      clusterScores := clusterScores[skill.cluster := Tally(data.total + Get(programVector, skill.id), data.count + 1)];
    }
    assert skills[..|skills|] == skills;
    result := map[];
    var pending := clusterScores.Keys;
    while pending != {}
      invariant pending <= clusterScores.Keys
      invariant result.Keys == clusterScores.Keys - pending
      invariant forall c :: c in result ==> result[c] == CoverageOf(clusterScores[c])
      decreases pending
    {
      var cluster :| cluster in pending;
      var data := clusterScores[cluster];
      result := result[cluster := if data.count > 0 then Round((data.total / data.count as real) * 100.0) else 0];
      pending := pending - {cluster};
    }
  }
}
