/** Ranking remembered cases: normalised weights, feature distance and the blended similarity. */
module MemoryRetrieval {
  import opened Basics
  import opened Correlation
  import opened Grid

  const UNIT: real := 0.000001

  function Clamp01(x: real): real {
    if x <= 0.0 then 0.0 else if x >= 1.0 then 1.0 else x
  }

  // ------------------------------------------------------------ weights

  datatype Part = Vector | Regime | Feature | Recency

  function Default(p: Part): real {
    match p
    case Vector => 0.5
    case Regime => 0.2
    case Feature => 0.2
    case Recency => 0.1
  }

  /** A requested weight counts when given, but never below zero. */
  function Wanted(request: map<Part, real>, p: Part): real {
    if p in request then MaxReal(0.0, request[p]) else Default(p)
  }

  function Total(request: map<Part, real>): real {
    Wanted(request, Vector) + Wanted(request, Regime) + Wanted(request, Feature) + Wanted(request, Recency)
  }

  /** What weights are for: shares of 1 in the proportions asked for, and the defaults when
      nothing positive is asked for. */
  ghost predicate AreWeights(w: map<Part, real>, request: map<Part, real>) {
    && w.Keys == {Vector, Regime, Feature, Recency}
    && w[Vector] + w[Regime] + w[Feature] + w[Recency] == 1.0
    && (Total(request) > 0.0 ==> forall p :: p in w ==> IsShare(w[p], Wanted(request, p), Total(request)))
    && (Total(request) <= 0.0 ==> forall p :: p in w ==> w[p] == Default(p))
  }

  /** `share` is `x` as a part of `total`. */
  predicate IsShare(share: real, x: real, total: real) {
    0.0 <= share <= 1.0 && share * total == x
  }

  lemma Shares(x: real, total: real)
    requires 0.0 <= x <= total && total > 0.0
    ensures IsShare(x / total, x, total)
  {
    FactorSign(x, total, x / total);
    RatioBounds(x, total);
    SignOfProduct(x / total, total);
  }

  /** What each part asks for, and the shares where nothing is asked. */
  lemma WantedIs(request: map<Part, real>, p: Part)
    ensures p in request ==> Wanted(request, p) == if request[p] > 0.0 then request[p] else 0.0
    ensures p !in request ==>
              Wanted(request, p) == if p == Vector then 0.5 else if p == Recency then 0.1 else 0.2
    ensures Default(Vector) == 0.5 && Default(Recency) == 0.1 && Default(Regime) == Default(Feature) == 0.2
  {
  }

  lemma CrossMultiply(a: real, b: real, total: real, x: real, y: real)
    requires a * total == x && b * total == y
    ensures a * y == b * x
  {
    assert a * (b * total) == b * (a * total);
  }

  lemma ShareOf(w: map<Part, real>, request: map<Part, real>, p: Part)
    requires AreWeights(w, request) && Total(request) > 0.0
    ensures p in w && w[p] * Total(request) == Wanted(request, p)
  {
    hide Wanted, Total;
    assert p in w;
    assert IsShare(w[p], Wanted(request, p), Total(request));
  }

  /** Shares go by what is wanted: a part's weight is its part of all four. */
  lemma WeightsArePortions(w: map<Part, real>, request: map<Part, real>, p: Part, q: Part)
    requires AreWeights(w, request) && Total(request) > 0.0
    ensures p in w && q in w && w[p] * Wanted(request, q) == w[q] * Wanted(request, p)
  {
    hide Wanted, Total, AreWeights;
    ShareOf(w, request, p);
    ShareOf(w, request, q);
    CrossMultiply(w[p], w[q], Total(request), Wanted(request, p), Wanted(request, q));
  }

  lemma NothingWanted(request: map<Part, real>)
    ensures Total(request) <= 0.0 <==> forall part: Part :: Wanted(request, part) == 0.0
  {
    var v, r, f, c := Wanted(request, Vector), Wanted(request, Regime), Wanted(request, Feature), Wanted(request, Recency);
    assert v >= 0.0 && r >= 0.0 && f >= 0.0 && c >= 0.0;
    if v + r + f + c <= 0.0 {
      forall part: Part ensures Wanted(request, part) == 0.0 {
        match part
        case Vector => case Regime => case Feature => case Recency =>
      }
    }
  }

  lemma SharesSum(v: real, r: real, f: real, c: real, a: real, b: real, d: real, e: real, total: real)
    requires IsShare(v, a, total) && IsShare(r, b, total) && IsShare(f, d, total) && IsShare(c, e, total)
    requires total > 0.0 && total == a + b + d + e
    ensures v + r + f + c == 1.0
  {
    assert (v + r + f + c) * total == v * total + r * total + f * total + c * total;
    FactorSign(total, total, v + r + f + c);
    FactorSign(total, total, 1.0);
  }

  /** The base weights with the requested ones filled in. */
  method Requested(request: map<Part, real>) returns (base: map<Part, real>)
    ensures base == map p | p in {Vector, Regime, Feature, Recency} :: Wanted(request, p)
  {
    base := map p | p in {Vector, Regime, Feature, Recency} :: Default(p);
    var parts := [Vector, Regime, Feature, Recency];
    for i := 0 to |parts|
      invariant base.Keys == {Vector, Regime, Feature, Recency}
      invariant forall k :: 0 <= k < |parts| ==>
                  base[parts[k]] == if k < i then Wanted(request, parts[k]) else Default(parts[k])
    {
      var p := parts[i];
      if p in request {
        base := base[p := MaxReal(0.0, request[p])];
      }
    }
    assert base[parts[0]] == Wanted(request, Vector) && base[parts[1]] == Wanted(request, Regime);
    assert base[parts[2]] == Wanted(request, Feature) && base[parts[3]] == Wanted(request, Recency);
  }

  method Weights(request: map<Part, real>) returns (w: map<Part, real>)
    ensures AreWeights(w, request)
  {
    var base := Requested(request);
    var total := base[Vector] + base[Regime] + base[Feature] + base[Recency];
    if total <= 0.0 {
      return map p | p in {Vector, Regime, Feature, Recency} :: Default(p);
    }
    w := map p | p in base :: base[p] / total;
    forall p | p in base ensures IsShare(w[p], base[p], total) {
      Shares(base[p], total);
    }
    SharesSum(w[Vector], w[Regime], w[Feature], w[Recency],
              base[Vector], base[Regime], base[Feature], base[Recency], total);
  }

  // ------------------------------------------------------------ feature distance

  function Difference(q: real, c: real): real {
    AbsReal(q - c) / MaxReal(MaxReal(AbsReal(q), AbsReal(c)), 0.000000001)
  }

  lemma DifferenceIsBounded(q: real, c: real)
    ensures 0.0 <= Difference(q, c) <= 2.0
    ensures Difference(q, c) == 0.0 <==> q == c
  {
    var scale := MaxReal(MaxReal(AbsReal(q), AbsReal(c)), 0.000000001);
    var d := AbsReal(q - c) / scale;
    assert d * scale == AbsReal(q - c);
    SignOfProduct(d, scale);
    SignOfProduct(2.0 - d, scale);
    assert (2.0 - d) * scale == 2.0 * scale - d * scale;
  }

  /** Distances over the query features that the candidate also has, in query order. */
  function Differences(query: seq<(string, real)>, candidate: map<string, real>, n: nat): seq<real>
    requires n <= |query|
  {
    if n == 0 then []
    else
      var (key, value) := query[n - 1];
      if key in candidate then Differences(query, candidate, n - 1) + [Difference(value, candidate[key])]
      else Differences(query, candidate, n - 1)
  }

  function FeatureScore(query: seq<(string, real)>, candidate: map<string, real>): real {
    var diffs := Differences(query, candidate, |query|);
    if diffs == [] then 0.5 else Clamp01(1.0 - Sum(diffs, |diffs|) / |diffs| as real)
  }

  /** The score is 1 less the mean distance, or 0 where that is below. */
  lemma FeatureScoreIsMean(query: seq<(string, real)>, candidate: map<string, real>)
    ensures var diffs, score := Differences(query, candidate, |query|), FeatureScore(query, candidate);
            && (diffs == [] ==> score == 0.5)
            && (diffs != [] && 0.0 <= Sum(diffs, |diffs|) <= |diffs| as real ==>
                  (1.0 - score) * |diffs| as real == Sum(diffs, |diffs|))
            && (Sum(diffs, |diffs|) > |diffs| as real ==> score == 0.0)
  {
    var diffs := Differences(query, candidate, |query|);
    if diffs != [] {
      var n, sum := |diffs| as real, Sum(diffs, |diffs|);
      DivThenTimes(sum, n);
      ScaledOrder(sum / n, 1.0, 0.0, n, sum, n, 0.0);
      ScaledOrder(sum / n, 0.0, 0.0, n, sum, 0.0, 0.0);
    }
  }

  /** A difference is measured against the larger of the two values, or 1e-9. */
  lemma DifferenceIs(q: real, c: real)
    ensures var size := if AbsReal(q) >= AbsReal(c) then AbsReal(q) else AbsReal(c);
            Difference(q, c) * (if size >= 0.000000001 then size else 0.000000001)
            == if q >= c then q - c else c - q
  {
    var size := if AbsReal(q) >= AbsReal(c) then AbsReal(q) else AbsReal(c);
    DivThenTimes(AbsReal(q - c), if size >= 0.000000001 then size else 0.000000001);
  }

  method FeatureDistanceScore(query: seq<(string, real)>, candidate: map<string, real>) returns (score: real)
    ensures score == FeatureScore(query, candidate)
  {
    if |query| == 0 || |candidate| == 0 {
      NothingShared(query, candidate, |query|);
      return 0.5;
    }
    var diffs: seq<real> := [];
    for i := 0 to |query|
      invariant diffs == Differences(query, candidate, i)
    {
      if query[i].0 in candidate {
        diffs := diffs + [Difference(query[i].1, candidate[query[i].0])];
      }
    }
    if diffs == [] {
      return 0.5;
    }
    var total := 0.0;
    for i := 0 to |diffs|
      invariant total == Sum(diffs, i)
    {
      total := total + diffs[i];
    }
    score := Clamp01(1.0 - total / |diffs| as real);
  }

  lemma {:induction false} NothingShared(query: seq<(string, real)>, candidate: map<string, real>, n: nat)
    requires n <= |query| && (|query| == 0 || |candidate| == 0)
    ensures Differences(query, candidate, n) == []
  {
    if n > 0 {
      NothingShared(query, candidate, n - 1);
    }
  }

  ghost predicate Shared(query: seq<(string, real)>, candidate: map<string, real>, i: int) {
    0 <= i < |query| && query[i].0 in candidate
  }

  lemma {:induction false} DifferencesAre(query: seq<(string, real)>, candidate: map<string, real>, n: nat)
    requires n <= |query|
    ensures var d := Differences(query, candidate, n);
            && (forall i :: 0 <= i < |d| ==> 0.0 <= d[i])
            && (d == [] <==> forall i :: Shared(query, candidate, i) && i < n ==> false)
            && ((forall i :: 0 <= i < |d| ==> d[i] == 0.0) <==>
                  forall i :: Shared(query, candidate, i) && i < n ==> query[i].1 == candidate[query[i].0])
  {
    if n > 0 {
      DifferencesAre(query, candidate, n - 1);
      var before, d := Differences(query, candidate, n - 1), Differences(query, candidate, n);
      if query[n - 1].0 in candidate {
        DifferenceIsBounded(query[n - 1].1, candidate[query[n - 1].0]);
        assert Shared(query, candidate, n - 1);
        assert d[|before|] == Difference(query[n - 1].1, candidate[query[n - 1].0]);
        assert forall i :: 0 <= i < |before| ==> d[i] == before[i];
      }
    }
  }

  lemma {:induction false} SumOfNonNegatives(d: seq<real>, n: nat)
    requires n <= |d| && forall i :: 0 <= i < |d| ==> 0.0 <= d[i]
    ensures Sum(d, n) >= 0.0
    ensures Sum(d, n) == 0.0 <==> forall i :: 0 <= i < n ==> d[i] == 0.0
  {
    if n > 0 {
      SumOfNonNegatives(d, n - 1);
    }
  }

  /** The score lies in [0, 1]; it is 1 exactly when something is shared and everything shared
      is equal. */
  lemma FeatureScoreIsBounded(query: seq<(string, real)>, candidate: map<string, real>)
    ensures 0.0 <= FeatureScore(query, candidate) <= 1.0
    ensures FeatureScore(query, candidate) == 1.0 <==>
              && (exists i :: Shared(query, candidate, i))
              && forall i :: Shared(query, candidate, i) ==> query[i].1 == candidate[query[i].0]
  {
    var d := Differences(query, candidate, |query|);
    DifferencesAre(query, candidate, |query|);
    SumOfNonNegatives(d, |d|);
    if d != [] {
      var mean := Sum(d, |d|) / |d| as real;
      assert mean * |d| as real == Sum(d, |d|);
      SignOfProduct(mean, |d| as real);
    }
  }

  // ------------------------------------------------------------ the blend

  /** A remembered case as the ranking sees it; the recency weight is an input. */
  datatype Case = Case(vector: seq<real>, regime: string, features: map<string, real>, recency: real)

  datatype Query = Query(vector: seq<real>, regime: string, features: seq<(string, real)>)

  function RegimeMatch(q: Query, c: Case): real {
    if q.regime != "" && c.regime == q.regime then 1.0 else 0.0
  }

  /** A regime matches only one that is asked for, and the same. */
  lemma RegimeMatchesIff(q: Query, c: Case)
    ensures RegimeMatch(q, c) == 1.0 <==> q.regime != "" && q.regime == c.regime
    ensures RegimeMatch(q, c) == 0.0 <==> q.regime == "" || q.regime != c.regime
  {
  }

  function Contribution(weight: real, score: real): real {
    weight * score
  }

  function Blend(w: map<Part, real>, vector: real, regime: real, feature: real, recency: real): real
    requires w.Keys == {Vector, Regime, Feature, Recency}
  {
    Contribution(w[Vector], vector) + Contribution(w[Regime], regime)
    + Contribution(w[Feature], feature) + Contribution(w[Recency], recency)
  }

  function Similarity(q: Query, c: Case, w: map<Part, real>, normQ: real, normC: real): real
    requires w.Keys == {Vector, Regime, Feature, Recency}
  {
    Blend(w, Cosine(q.vector, c.vector, normQ, normC), RegimeMatch(q, c), FeatureScore(q.features, c.features), c.recency)
  }

  lemma Weighted(w: real, x: real, low: real)
    requires 0.0 <= w && low <= x <= 1.0
    ensures Contribution(w, low) <= Contribution(w, x) <= w
    ensures Contribution(w, x) == w <==> w == 0.0 || x == 1.0
    ensures low == 0.0 ==> Contribution(w, low) == 0.0
    ensures low == -1.0 ==> Contribution(w, low) == -w
  {
    if w > 0.0 {
      SignOfProduct(x - low, w);
      SignOfProduct(1.0 - x, w);
      assert (x - low) * w == w * x - w * low && (1.0 - x) * w == w - w * x;
    }
  }

  /** Part by part, a perfect score wherever there is weight. */
  predicate Perfect(w: map<Part, real>, vector: real, regime: real, feature: real, recency: real)
    requires w.Keys == {Vector, Regime, Feature, Recency}
  {
    && (w[Vector] > 0.0 ==> vector == 1.0) && (w[Regime] > 0.0 ==> regime == 1.0)
    && (w[Feature] > 0.0 ==> feature == 1.0) && (w[Recency] > 0.0 ==> recency == 1.0)
  }

  lemma WeightsAreShares(w: map<Part, real>, request: map<Part, real>)
    requires AreWeights(w, request)
    ensures forall p :: p in w ==> 0.0 <= w[p] <= 1.0
  {
  }

  lemma BlendIsBounded(w: map<Part, real>, request: map<Part, real>, vector: real, regime: real, feature: real,
                       recency: real)
    requires AreWeights(w, request)
    requires -1.0 <= vector <= 1.0 && 0.0 <= regime <= 1.0 && 0.0 <= feature <= 1.0 && 0.0 <= recency <= 1.0
    ensures -w[Vector] <= Blend(w, vector, regime, feature, recency) <= 1.0
    ensures Blend(w, vector, regime, feature, recency) == 1.0 <==> Perfect(w, vector, regime, feature, recency)
  {
    WeightsAreShares(w, request);
    Weighted(w[Vector], vector, -1.0);
    Weighted(w[Regime], regime, 0.0);
    Weighted(w[Feature], feature, 0.0);
    Weighted(w[Recency], recency, 0.0);
  }

  /** With the weights of any request, the similarity of any case lies between minus the vector
      weight and 1, also after rounding to six decimals within [-1, 1]. */
  lemma SimilarityIsBounded(q: Query, c: Case, w: map<Part, real>, request: map<Part, real>, normQ: real, normC: real)
    requires AreWeights(w, request) && 0.0 <= c.recency <= 1.0
    requires var n := Shorter(q.vector, c.vector);
             IsRoot(normQ, Dot(q.vector, q.vector, n)) && IsRoot(normC, Dot(c.vector, c.vector, n))
    ensures -w[Vector] <= Similarity(q, c, w, normQ, normC) <= 1.0
    ensures Similarity(q, c, w, normQ, normC) == 1.0 <==>
              Perfect(w, Cosine(q.vector, c.vector, normQ, normC), RegimeMatch(q, c),
                      FeatureScore(q.features, c.features), c.recency)
    ensures -1.0 <= RoundTo(Similarity(q, c, w, normQ, normC), UNIT) <= 1.0
  {
    CosineIsBounded(q.vector, c.vector, normQ, normC);
    FeatureScoreIsBounded(q.features, c.features);
    BlendIsBounded(w, request, Cosine(q.vector, c.vector, normQ, normC), RegimeMatch(q, c),
                   FeatureScore(q.features, c.features), c.recency);
    assert Multiple(1000000, UNIT) == 1.0 && Multiple(-1000000, UNIT) == -1.0;
    RoundToKeepsBound(Similarity(q, c, w, normQ, normC), 1.0, UNIT);
    RoundToKeepsBound(Similarity(q, c, w, normQ, normC), -1.0, UNIT);
  }
}
