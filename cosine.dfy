/** `cosineSimilarity` over vectors of reals. `Math.sqrt` is floating-point
    code outside the model; it is a parameter, of which only one thing is
    assumed: it is positive on positive inputs. */
module Vectors {

  /** A square-root function: positive on positive inputs. */
  type SqrtFn = f: real -> real | forall x :: 0.0 < x ==> 0.0 < f(x) witness (x: real) => x

  /** The dot product of two vectors of equal length, summed left to right. */
  function Dot(a: seq<real>, b: seq<real>): real
    requires |a| == |b|
  {
    if |a| == 0 then 0.0 else Dot(a[..|a| - 1], b[..|b| - 1]) + a[|a| - 1] * b[|b| - 1]
  }

  /** True when every component is zero (the empty vector included). */
  predicate IsZero(a: seq<real>)
  {
    forall i :: 0 <= i < |a| ==> a[i] == 0.0
  }

  /** A square is never negative. */
  lemma Square(x: real)
    ensures 0.0 <= x * x
  {
    if x < 0.0 {
      var y := -x;
      assert y * y > 0.0;
      assert x * x == y * y;
    }
  }

  /** The squared norm of a vector is never negative. */
  lemma {:induction false} SquaredNormNonnegative(a: seq<real>)
    ensures Dot(a, a) >= 0.0
  {
    if |a| > 0 {
      SquaredNormNonnegative(a[..|a| - 1]);
      Square(a[|a| - 1]);
    }
  }

  /** The zero vector has squared norm zero, and its dot product with any
      vector of its length is zero. */
  lemma {:induction false} DotZero(a: seq<real>, b: seq<real>)
    requires |a| == |b| && IsZero(a)
    ensures Dot(a, b) == 0.0 && Dot(b, a) == 0.0
  {
    if |a| > 0 {
      var init := a[..|a| - 1];
      assert IsZero(init) by {
        forall i | 0 <= i < |init| ensures init[i] == 0.0 { assert init[i] == a[i]; }
      }
      DotZero(init, b[..|b| - 1]);
    }
  }

  /** The dot product does not depend on the order of its arguments. */
  lemma {:induction false} DotSymmetric(a: seq<real>, b: seq<real>)
    requires |a| == |b|
    ensures Dot(a, b) == Dot(b, a)
  {
    if |a| > 0 {
      DotSymmetric(a[..|a| - 1], b[..|b| - 1]);
    }
  }

  /** The product of the two norms is positive when both squared norms are. */
  lemma NormProductPositive(na: real, nb: real, sqrt: SqrtFn)
    requires 0.0 < na && 0.0 < nb
    ensures 0.0 < sqrt(na) * sqrt(nb)
  {
    var x, y := sqrt(na), sqrt(nb);
    assert 0.0 < x && 0.0 < y;
  }

  /** `dot / (Math.sqrt(na) * Math.sqrt(nb))`, for positive squared norms. */
  function Quotient(dot: real, na: real, nb: real, sqrt: SqrtFn): real
    requires 0.0 < na && 0.0 < nb
  {
    NormProductPositive(na, nb, sqrt);
    dot / (sqrt(na) * sqrt(nb))
  }

  /** The similarity the ranking uses: 0 for an empty vector, for vectors of
      different lengths and for a zero vector; otherwise the dot product over
      the product of the norms. */
  function Cosine(a: seq<real>, b: seq<real>, sqrt: SqrtFn): real
  {
    if |a| == 0 || |a| != |b| then 0.0
    else if Dot(a, a) == 0.0 || Dot(b, b) == 0.0 then 0.0
    else
      SquaredNormNonnegative(a);
      SquaredNormNonnegative(b);
      Quotient(Dot(a, b), Dot(a, a), Dot(b, b), sqrt)
  }

  /** One more component of the accumulated dot product. */
  lemma DotStep(a: seq<real>, b: seq<real>, i: nat)
    requires |a| == |b| && i < |a|
    ensures Dot(a[..i + 1], b[..i + 1]) == Dot(a[..i], b[..i]) + a[i] * b[i]
  {
    assert a[..i + 1][..i] == a[..i];
    assert b[..i + 1][..i] == b[..i];
  }

  /** `cosineSimilarity`: one pass accumulating the dot product and both
      squared norms, then the guards and the quotient. */
  method CosineSimilarity(vecA: seq<real>, vecB: seq<real>, sqrt: SqrtFn) returns (r: real)
    ensures r == Cosine(vecA, vecB, sqrt)
  {
    if |vecA| == 0 || |vecA| != |vecB| {
      return 0.0;
    }
    var dotProduct, normA, normB := 0.0, 0.0, 0.0;
    for i := 0 to |vecA|
      invariant dotProduct == Dot(vecA[..i], vecB[..i])
      invariant normA == Dot(vecA[..i], vecA[..i])
      invariant normB == Dot(vecB[..i], vecB[..i])
    {
      DotStep(vecA, vecB, i);
      DotStep(vecA, vecA, i);
      DotStep(vecB, vecB, i);
      dotProduct := dotProduct + vecA[i] * vecB[i];
      normA := normA + vecA[i] * vecA[i];
      normB := normB + vecB[i] * vecB[i];
    }
    assert vecA[..|vecA|] == vecA && vecB[..|vecB|] == vecB;
    if normA == 0.0 || normB == 0.0 {
      return 0.0;
    }
    SquaredNormNonnegative(vecA);
    SquaredNormNonnegative(vecB);
    NormProductPositive(normA, normB, sqrt);
    r := dotProduct / (sqrt(normA) * sqrt(normB));
    assert r == Quotient(dotProduct, normA, normB, sqrt);
  }

  /** Similarity is symmetric, whatever square root is used. */
  lemma CosineSymmetric(a: seq<real>, b: seq<real>, sqrt: SqrtFn)
    ensures Cosine(a, b, sqrt) == Cosine(b, a, sqrt)
  {
    if |a| == |b| && |a| > 0 && Dot(a, a) != 0.0 && Dot(b, b) != 0.0 {
      DotSymmetric(a, b);
      SquaredNormNonnegative(a);
      SquaredNormNonnegative(b);
      var x, y := sqrt(Dot(a, a)), sqrt(Dot(b, b));
      assert x * y == y * x;
    }
  }

  /** The guard cases, stated on the vectors: an empty vector, a length
      mismatch or a zero vector on either side scores 0. */
  lemma CosineZeroCases(a: seq<real>, b: seq<real>, sqrt: SqrtFn)
    requires |a| == 0 || |a| != |b| || IsZero(a) || IsZero(b)
    ensures Cosine(a, b, sqrt) == 0.0
  {
    if |a| == |b| && |a| > 0 {
      if IsZero(a) {
        DotZero(a, a);
      } else {
        DotZero(b, b);
      }
    }
  }

  /** Conversely, a score other than 0 comes only from two vectors of one
      non-zero length, both with a non-zero squared norm, whose dot product
      is not 0. */
  lemma CosineNonZero(a: seq<real>, b: seq<real>, sqrt: SqrtFn)
    requires Cosine(a, b, sqrt) != 0.0
    ensures |a| == |b| && |a| > 0
    ensures Dot(a, a) > 0.0 && Dot(b, b) > 0.0 && Dot(a, b) != 0.0
    ensures !IsZero(a) && !IsZero(b)
  {
    SquaredNormNonnegative(a);
    SquaredNormNonnegative(b);
    NormProductPositive(Dot(a, a), Dot(b, b), sqrt);
    if IsZero(a) || IsZero(b) {
      CosineZeroCases(a, b, sqrt);
    }
  }

  /** With an exact square root, a vector of non-zero norm is perfectly
      similar to itself. */
  lemma CosineSelf(a: seq<real>, sqrt: SqrtFn)
    requires Dot(a, a) != 0.0
    requires sqrt(Dot(a, a)) * sqrt(Dot(a, a)) == Dot(a, a)
    ensures Cosine(a, a, sqrt) == 1.0
  {
    SquaredNormNonnegative(a);
    var n := Dot(a, a);
    assert |a| > 0;
    DivideBySelf(n);
  }

  lemma DivideBySelf(n: real)
    requires n != 0.0
    ensures n / n == 1.0
  {
  }
}
