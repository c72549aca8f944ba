/** The Cauchy-Schwarz inequality for the repository's two similarity measures: the Pearson
    correlation of the regime engine and the cosine of the embeddings service. Square roots
    are arguments: a non-negative number whose square is the given one. */
module Correlation {

  /** Sum of products over the first `n` positions. */
  function Dot(a: seq<real>, b: seq<real>, n: nat): real
    requires n <= |a| && n <= |b|
  {
    if n == 0 then 0.0 else Dot(a, b, n - 1) + a[n - 1] * b[n - 1]
  }

  ghost predicate IsRoot(root: real, square: real) {
    root >= 0.0 && Square(root) == square
  }

  /** What is left of `a` after taking out `t` times `b`. */
  function Rest(a: seq<real>, b: seq<real>, t: real, n: nat): seq<real>
    requires n <= |a| && n <= |b|
  {
    seq(n, i requires 0 <= i < n => a[i] - t * b[i])
  }

  function Square(x: real): real {
    x * x
  }

  lemma SquareSign(x: real)
    ensures Square(x) >= 0.0 && (Square(x) == 0.0 <==> x == 0.0)
  {
    if x > 0.0 {
      SignOfProduct(x, x);
    } else if x < 0.0 {
      SignOfProduct(-x, -x);
      assert (-x) * (-x) == x * x;
    }
  }

  predicate Proportional(a: seq<real>, b: seq<real>, t: real, n: nat)
    requires n <= |a| && n <= |b|
  {
    forall i :: 0 <= i < n ==> a[i] == t * b[i]
  }

  // ------------------------------------------------------------ Cauchy-Schwarz

  lemma LinearStep(ad: real, bd: real, cd: real, x: real, y: real, z: real, t: real)
    requires cd == ad - t * bd
    ensures cd + (x - t * y) * z == (ad + x * z) - t * (bd + y * z)
  {
    assert (x - t * y) * z == x * z - t * (y * z);
    assert t * (bd + y * z) == t * bd + t * (y * z);
  }

  lemma {:induction false} DotOfRest(a: seq<real>, b: seq<real>, t: real, d: seq<real>, n: nat, k: nat)
    requires k <= n <= |a| && n <= |b| && n <= |d|
    ensures Dot(Rest(a, b, t, n), d, k) == Dot(a, d, k) - t * Dot(b, d, k)
  {
    if k > 0 {
      DotOfRest(a, b, t, d, n, k - 1);
      LinearStep(Dot(a, d, k - 1), Dot(b, d, k - 1), Dot(Rest(a, b, t, n), d, k - 1), a[k - 1], b[k - 1], d[k - 1], t);
    }
  }

  lemma {:induction false} DotCommutes(a: seq<real>, b: seq<real>, n: nat)
    requires n <= |a| && n <= |b|
    ensures Dot(a, b, n) == Dot(b, a, n)
  {
    if n > 0 {
      DotCommutes(a, b, n - 1);
    }
  }

  /** The squared norm of a rest, from the three dot products. */
  function RestOf(aa: real, ab: real, bb: real, t: real): real {
    (aa - t * ab) - t * (ab - t * bb)
  }

  /** The Gram determinant: product of the squared norms less the squared dot product. */
  function Gram(aa: real, ab: real, bb: real): real {
    aa * bb - Square(ab)
  }

  lemma RestNorm(a: seq<real>, b: seq<real>, t: real, n: nat)
    requires n <= |a| && n <= |b|
    ensures var c := Rest(a, b, t, n);
            Dot(c, c, n) == RestOf(Dot(a, a, n), Dot(a, b, n), Dot(b, b, n), t)
  {
    var c := Rest(a, b, t, n);
    DotOfRest(a, b, t, c, n, n);
    DotCommutes(a, c, n);
    DotCommutes(b, c, n);
    DotOfRest(a, b, t, a, n, n);
    DotOfRest(a, b, t, b, n, n);
    DotCommutes(a, b, n);
  }

  lemma RestIsZeroIff(a: seq<real>, b: seq<real>, t: real, n: nat)
    requires n <= |a| && n <= |b|
    ensures var c := Rest(a, b, t, n);
            Dot(c, c, n) >= 0.0 && (Dot(c, c, n) == 0.0 <==> Proportional(a, b, t, n))
  {
    var c := Rest(a, b, t, n);
    NormIsZeroIff(c, n);
    assert (forall i :: 0 <= i < n ==> c[i] == 0.0) <==> Proportional(a, b, t, n) by {
      assert forall i :: 0 <= i < n ==> c[i] == a[i] - t * b[i];
    }
  }

  lemma {:induction false} NormIsZeroIff(b: seq<real>, n: nat)
    requires n <= |b|
    ensures Dot(b, b, n) >= 0.0
    ensures Dot(b, b, n) == 0.0 <==> forall i :: 0 <= i < n ==> b[i] == 0.0
  {
    if n > 0 {
      NormIsZeroIff(b, n - 1);
      SquareSign(b[n - 1]);
    }
  }

  lemma {:induction false} DotWithZero(a: seq<real>, b: seq<real>, n: nat)
    requires n <= |a| && n <= |b| && forall i :: 0 <= i < n ==> b[i] == 0.0
    ensures Dot(a, b, n) == 0.0
  {
    if n > 0 {
      DotWithZero(a, b, n - 1);
    }
  }

  lemma SignOfProduct(x: real, y: real)
    requires y > 0.0
    ensures x >= 0.0 <==> x * y >= 0.0
    ensures x == 0.0 <==> x * y == 0.0
  {
  }

  /** The best multiple, ab / bb, leaves the Gram determinant over bb. */
  lemma BestMultiple(aa: real, ab: real, bb: real, t: real)
    requires bb > 0.0 && t == ab / bb
    ensures RestOf(aa, ab, bb, t) >= 0.0 <==> Gram(aa, ab, bb) >= 0.0
    ensures RestOf(aa, ab, bb, t) == 0.0 <==> Gram(aa, ab, bb) == 0.0
  {
    var rest := RestOf(aa, ab, bb, t);
    assert t * bb == ab;
    assert t * (ab - t * bb) == 0.0;
    assert rest * bb == aa * bb - (t * bb) * ab;
    SignOfProduct(rest, bb);
  }

  lemma ZeroGram(aa: real)
    ensures Gram(aa, 0.0, 0.0) == 0.0
  {
  }

  /** The Gram determinant is never negative, and is zero exactly when `a` is a multiple of a
      `b` that is not zero. */
  lemma CauchySchwarz(a: seq<real>, b: seq<real>, n: nat)
    requires n <= |a| && n <= |b|
    ensures Gram(Dot(a, a, n), Dot(a, b, n), Dot(b, b, n)) >= 0.0
    ensures Dot(b, b, n) > 0.0 ==>
              (Gram(Dot(a, a, n), Dot(a, b, n), Dot(b, b, n)) == 0.0
               <==> Proportional(a, b, Dot(a, b, n) / Dot(b, b, n), n))
  {
    NormIsZeroIff(b, n);
    if Dot(b, b, n) > 0.0 {
      var t := Dot(a, b, n) / Dot(b, b, n);
      RestNorm(a, b, t, n);
      BestMultiple(Dot(a, a, n), Dot(a, b, n), Dot(b, b, n), t);
      RestIsZeroIff(a, b, t, n);
    } else {
      DotWithZero(a, b, n);
      ZeroGram(Dot(a, a, n));
    }
  }

  lemma SquareGrows(x: real, y: real)
    requires 0.0 <= x < y
    ensures Square(x) < Square(y)
  {
    SignOfProduct(y - x, y);
    assert (y - x) * y == y * y - x * y;
    assert x * y - x * x == x * (y - x);
  }

  lemma RootBounds(x: real, root: real)
    requires root > 0.0 && Square(x) <= Square(root)
    ensures -1.0 <= x / root <= 1.0
  {
    assert Square(-x) == Square(x);
    if x > root {
      SquareGrows(root, x);
    } else if x < -root {
      SquareGrows(root, -x);
    }
    RatioBounds(x, root);
  }

  lemma RatioBounds(x: real, root: real)
    requires root > 0.0
    ensures x <= root ==> x / root <= 1.0
    ensures -root <= x ==> -1.0 <= x / root
  {
    var q := x / root;
    assert q * root == x;
    SignOfProduct(1.0 - q, root);
    SignOfProduct(q + 1.0, root);
    assert (1.0 - q) * root == root - x && (q + 1.0) * root == x + root;
  }

  lemma RatioIsOneIff(x: real, root: real)
    requires root > 0.0
    ensures x / root == 1.0 <==> x > 0.0 && Square(x) == Square(root)
  {
    FactorSign(x, root, x / root);
    if x == root {
      FactorSign(x, root, 1.0);
    } else if x > root {
      SquareGrows(root, x);
    } else if 0.0 < x {
      SquareGrows(x, root);
    }
    if x / root == 1.0 {
      assert x / root * root == x;
    }
  }

  /** Dot products of proportional vectors. */
  lemma {:induction false} ProportionalDot(a: seq<real>, b: seq<real>, t: real, n: nat)
    requires n <= |a| && n <= |b| && Proportional(a, b, t, n)
    ensures Dot(a, b, n) == t * Dot(b, b, n)
  {
    if n > 0 {
      ProportionalDot(a, b, t, n - 1);
      assert a[n - 1] * b[n - 1] == t * (b[n - 1] * b[n - 1]);
    }
  }

  /** The normalised dot product lies in [-1, 1], and is 1 exactly for a positive multiple. */
  lemma NormalisedDot(a: seq<real>, b: seq<real>, n: nat, root: real)
    requires n <= |a| && n <= |b| && Dot(b, b, n) > 0.0
    requires root > 0.0 && Square(root) == Dot(a, a, n) * Dot(b, b, n)
    ensures -1.0 <= Dot(a, b, n) / root <= 1.0
    ensures Dot(a, b, n) / root == 1.0 <==> exists t: real :: t > 0.0 && Proportional(a, b, t, n)
  {
    var ab, bb := Dot(a, b, n), Dot(b, b, n);
    CauchySchwarz(a, b, n);
    RootBounds(ab, root);
    RatioIsOneIff(ab, root);
    FactorSign(ab, bb, ab / bb);
    if ab / root == 1.0 {
      assert ab / bb > 0.0 && Proportional(a, b, ab / bb, n);
    }
    if t: real :| t > 0.0 && Proportional(a, b, t, n) {
      ProportionalDot(a, b, t, n);
      FactorSign(ab, bb, t);
    }
  }

  lemma FactorSign(product: real, x: real, t: real)
    requires x > 0.0 && (product == t * x || t == product / x)
    ensures t == product / x && (t > 0.0 <==> product > 0.0)
  {
    var q := product / x;
    assert q * x == product;
    SignOfProduct(q - t, x);
    assert (q - t) * x == q * x - t * x;
    SignOfProduct(t, x);
  }

  // ------------------------------------------------------------ Pearson correlation

  function Shorter<T>(a: seq<T>, b: seq<T>): nat {
    if |a| <= |b| then |a| else |b|
  }

  function Sum(x: seq<real>, n: nat): real
    requires n <= |x|
  {
    if n == 0 then 0.0 else Sum(x, n - 1) + x[n - 1]
  }

  /** Deviations from the mean of the first `n` values. */
  function Deviations(x: seq<real>, n: nat): seq<real>
    requires 0 < n <= |x|
  {
    var mean := Sum(x, n) / n as real;
    seq(n, i requires 0 <= i < n => x[i] - mean)
  }

  /** What the root of the Pearson denominator is taken of. */
  function Spread(x: seq<real>, y: seq<real>): real {
    var n := Shorter(x, y);
    if n < 2 then 0.0
    else
      var dx, dy := Deviations(x, n), Deviations(y, n);
      Dot(dx, dx, n) * Dot(dy, dy, n)
  }

  function Pearson(x: seq<real>, y: seq<real>, root: real): real {
    var n := Shorter(x, y);
    if n < 2 then 0.0
    else
      var dx, dy := Deviations(x, n), Deviations(y, n);
      if Dot(dx, dx, n) <= 0.0 || Dot(dy, dy, n) <= 0.0 || root == 0.0 then 0.0 else Dot(dx, dy, n) / root
  }

  ghost predicate Varies(x: seq<real>, n: nat)
    requires n <= |x|
  {
    exists i, j :: 0 <= i < n && 0 <= j < n && x[i] != x[j]
  }

  lemma {:induction false} ConstantSum(x: seq<real>, n: nat, k: nat)
    requires k <= n <= |x| && !Varies(x, n) && n > 0
    ensures Sum(x, k) == k as real * x[0]
  {
    if k > 0 {
      ConstantSum(x, n, k - 1);
      assert x[k - 1] == x[0];
    }
  }

  lemma DeviationsVanishIff(x: seq<real>, n: nat)
    requires 0 < n <= |x|
    ensures Dot(Deviations(x, n), Deviations(x, n), n) == 0.0 <==> !Varies(x, n)
  {
    var d := Deviations(x, n);
    NormIsZeroIff(d, n);
    if !Varies(x, n) {
      ConstantSum(x, n, n);
      forall i | 0 <= i < n ensures d[i] == 0.0 {
        assert x[i] == x[0];
        FactorSign(Sum(x, n), n as real, x[0]);
      }
    } else {
      var i, j :| 0 <= i < n && 0 <= j < n && x[i] != x[j];
      assert d[i] != d[j];
    }
  }

  /** The correlation lies in [-1, 1]; it is 1 exactly when both series vary and the deviations
      of one are a positive multiple of the other's. */
  lemma PearsonIsBounded(x: seq<real>, y: seq<real>, root: real)
    requires IsRoot(root, Spread(x, y))
    ensures -1.0 <= Pearson(x, y, root) <= 1.0
    ensures var n := Shorter(x, y);
            Pearson(x, y, root) == 1.0 <==>
              && n >= 2 && Varies(x, n) && Varies(y, n)
              && exists t: real :: t > 0.0 && Proportional(Deviations(x, n), Deviations(y, n), t, n)
  {
    var n := Shorter(x, y);
    if n >= 2 {
      var dx, dy := Deviations(x, n), Deviations(y, n);
      NormIsZeroIff(dx, n);
      NormIsZeroIff(dy, n);
      DeviationsVanishIff(x, n);
      DeviationsVanishIff(y, n);
      if Dot(dx, dx, n) > 0.0 && Dot(dy, dy, n) > 0.0 {
        SignOfProduct(Dot(dx, dx, n), Dot(dy, dy, n));
        assert root != 0.0;
        NormalisedDot(dx, dy, n, root);
      }
    }
  }

  // ------------------------------------------------------------ cosine similarity

  function Cosine(a: seq<real>, b: seq<real>, normA: real, normB: real): real {
    if a == [] || b == [] || normA * normB == 0.0 then 0.0
    else Dot(a, b, Shorter(a, b)) / (normA * normB)
  }

  lemma ProductOfRoots(normA: real, normB: real, aa: real, bb: real)
    requires IsRoot(normA, aa) && IsRoot(normB, bb)
    ensures Square(normA * normB) == aa * bb
    ensures normA * normB >= 0.0 && (normA * normB == 0.0 <==> aa == 0.0 || bb == 0.0)
    ensures normA * normB > 0.0 ==> bb > 0.0
  {
    SquareSign(normA);
    SquareSign(normB);
    assert (normA * normB) * (normA * normB) == (normA * normA) * (normB * normB);
  }

  /** The cosine of the common prefix lies in [-1, 1] and is 1 exactly when the prefixes are
      not zero and point the same way. */
  lemma CosineIsBounded(a: seq<real>, b: seq<real>, normA: real, normB: real)
    requires var n := Shorter(a, b); IsRoot(normA, Dot(a, a, n)) && IsRoot(normB, Dot(b, b, n))
    ensures -1.0 <= Cosine(a, b, normA, normB) <= 1.0
    ensures var n := Shorter(a, b);
            Cosine(a, b, normA, normB) == 1.0 <==>
              normA * normB > 0.0 && exists t: real :: t > 0.0 && Proportional(a, b, t, n)
  {
    var n := Shorter(a, b);
    ProductOfRoots(normA, normB, Dot(a, a, n), Dot(b, b, n));
    if normA * normB > 0.0 {
      NormalisedDot(a, b, n, normA * normB);
    }
  }
}
