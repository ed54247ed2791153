/**
 * Sparse term-weight vectors (the `Map<string, number>` of
 * app/lib/embedding-search.ts) and the cosine similarity of two of them.
 * The source sums over the union of the two key sets in the Set's iteration
 * order; the specification sums over the set in an arbitrary order and proves
 * that the order does not matter (AccumulateRemove).
 */
module SparseVector {
  import opened HostMath
  import opened RealArith

  type Vector = map<string, real>

  /** `vec.get(term) || 0`: a term the vector does not hold weighs 0. */
  function Weight(v: Vector, term: string): real {
    if term in v then v[term] else 0.0
  }

  predicate NonNegative(v: Vector) {
    forall t :: t in v ==> 0.0 <= v[t]
  }

  /** The three running sums of the loop: the dot product and the two squared norms. */
  datatype Sums = Sums(dot: real, norm1: real, norm2: real)

  const NoSums := Sums(0.0, 0.0, 0.0)

  /** One loop step: what the weights `a` and `b` of one term add to the sums. */
  function Add(s: Sums, a: real, b: real): Sums {
    Sums(s.dot + Product(a, b), s.norm1 + Square(a), s.norm2 + Square(b))
  }

  lemma AddCommutes(s: Sums, a: real, b: real, c: real, d: real)
    ensures Add(Add(s, a, b), c, d) == Add(Add(s, c, d), a, b)
  {
  }

  ghost function Pick(terms: set<string>): string
    requires terms != {}
  {
    var t :| t in terms; t
  }

  /** The sums over a set of terms. */
  ghost function Accumulate(v1: Vector, v2: Vector, terms: set<string>): Sums
    decreases terms
  {
    if terms == {} then NoSums
    else
      var t := Pick(terms);
      Add(Accumulate(v1, v2, terms - {t}), Weight(v1, t), Weight(v2, t))
  }

  /** Any term may be taken last: the sums do not depend on the iteration order. */
  lemma AccumulateRemove(v1: Vector, v2: Vector, terms: set<string>, t: string)
    requires t in terms
    ensures Accumulate(v1, v2, terms) == Add(Accumulate(v1, v2, terms - {t}), Weight(v1, t), Weight(v2, t))
    decreases terms
  {
    var p := Pick(terms);
    if p != t {
      AccumulateRemove(v1, v2, terms - {p}, t);
      AccumulateRemove(v1, v2, terms - {t}, p);
      assert terms - {p} - {t} == terms - {t} - {p};
      AddCommutes(Accumulate(v1, v2, terms - {p} - {t}), Weight(v1, t), Weight(v2, t), Weight(v1, p), Weight(v2, p));
    }
  }

  /** The keys the loop visits: `new Set([...vec1.keys(), ...vec2.keys()])`. */
  function AllKeys(v1: Vector, v2: Vector): (keys: set<string>)
    ensures forall t :: t in keys <==> t in v1 || t in v2
  {
    v1.Keys + v2.Keys
  }

  /**
   * `cosineSimilarity(vec1, vec2)` with `sqrt` for Math.sqrt: 0 when either
   * norm is 0, otherwise the dot product over the product of the norms.
   */
  ghost function Cosine(sqrt: real -> real, v1: Vector, v2: Vector): real {
    var s := Accumulate(v1, v2, AllKeys(v1, v2));
    Ratio(s.dot, sqrt(s.norm1), sqrt(s.norm2))
  }

  /** The last two lines of the source: `dot / (n1 * n2)`, or 0 when a norm is 0. */
  function Ratio(dot: real, n1: real, n2: real): real {
    if n1 == 0.0 || n2 == 0.0 then 0.0
    else
      ProductNonZero(n1, n2);
      dot / Product(n1, n2)
  }

  lemma RatioSymmetric(dot: real, n1: real, n2: real)
    ensures Ratio(dot, n1, n2) == Ratio(dot, n2, n1)
  {
    assert Product(n1, n2) == Product(n2, n1);
  }

  /** With the norms the square roots of the squared norms, Cauchy-Schwarz bounds the ratio by 1. */
  lemma RatioBounds(dot: real, sq1: real, sq2: real, n1: real, n2: real)
    requires 0.0 <= dot && Square(dot) <= Product(sq1, sq2)
    requires 0.0 <= n1 && Square(n1) == sq1
    requires 0.0 <= n2 && Square(n2) == sq2
    ensures 0.0 <= Ratio(dot, n1, n2) <= 1.0
  {
    if n1 != 0.0 && n2 != 0.0 {
      ProductPositive(n1, n2);
      var p := Product(n1, n2);
      SquareOfProduct(n1, n2);
      SquareDominates(p, dot);
      QuotientBounds(dot, p);
    }
  }

  lemma RatioSelf(n: real)
    requires 0.0 < n
    ensures Ratio(Square(n), n, n) == 1.0
  {
    SquarePositive(n);
    assert Product(n, n) == Square(n);
    QuotientSelf(Square(n));
  }

  /** One step keeps the squared norms non-negative, and the dot product too for non-negative weights. */
  lemma AddNonNegative(s: Sums, a: real, b: real)
    requires 0.0 <= s.norm1 && 0.0 <= s.norm2
    ensures 0.0 <= Add(s, a, b).norm1 && 0.0 <= Add(s, a, b).norm2
    ensures 0.0 <= s.dot && 0.0 <= a && 0.0 <= b ==> 0.0 <= Add(s, a, b).dot
  {
    SquareNonNegative(a);
    SquareNonNegative(b);
    if 0.0 <= a && 0.0 <= b {
      ProductNonNegative(a, b);
    }
  }

  lemma AddPositiveNorm(s: Sums, a: real, b: real)
    requires 0.0 <= s.norm1 && a != 0.0
    ensures 0.0 < Add(s, a, b).norm1
  {
    SquarePositive(a);
  }

  predicate CauchySchwarz(s: Sums) {
    Square(s.dot) <= Product(s.norm1, s.norm2)
  }

  /** One step keeps the Cauchy-Schwarz inequality. */
  lemma AddCauchySchwarz(s: Sums, a: real, b: real)
    requires 0.0 <= s.norm1 && 0.0 <= s.norm2
    requires CauchySchwarz(s)
    ensures CauchySchwarz(Add(s, a, b))
  {
    CauchySchwarzStep(s.dot, s.norm1, s.norm2, a, b);
  }

  /** Exchanging the vectors exchanges the two norms and keeps the dot product. */
  lemma {:induction false} AccumulateSwap(v1: Vector, v2: Vector, terms: set<string>)
    ensures var s := Accumulate(v1, v2, terms);
            Accumulate(v2, v1, terms) == Sums(s.dot, s.norm2, s.norm1)
    decreases terms
  {
    if terms != {} {
      var t := Pick(terms);
      AccumulateSwap(v1, v2, terms - {t});
    }
  }

  /** Cosine similarity is symmetric. */
  lemma CosineSymmetric(sqrt: real -> real, v1: Vector, v2: Vector)
    ensures Cosine(sqrt, v1, v2) == Cosine(sqrt, v2, v1)
  {
    assert AllKeys(v1, v2) == AllKeys(v2, v1);
    AccumulateSwap(v1, v2, AllKeys(v1, v2));
    var s := Accumulate(v1, v2, AllKeys(v1, v2));
    RatioSymmetric(s.dot, sqrt(s.norm1), sqrt(s.norm2));
  }

  /** The squared norms are never negative; the dot product is not either when no weight is. */
  lemma {:induction false} AccumulateNonNegative(v1: Vector, v2: Vector, terms: set<string>)
    ensures 0.0 <= Accumulate(v1, v2, terms).norm1
    ensures 0.0 <= Accumulate(v1, v2, terms).norm2
    ensures NonNegative(v1) && NonNegative(v2) ==> 0.0 <= Accumulate(v1, v2, terms).dot
    decreases terms
  {
    if terms != {} {
      var t := Pick(terms);
      AccumulateNonNegative(v1, v2, terms - {t});
      AddNonNegative(Accumulate(v1, v2, terms - {t}), Weight(v1, t), Weight(v2, t));
    }
  }

  /** Cauchy-Schwarz: the squared dot product is at most the product of the squared norms. */
  lemma {:induction false} AccumulateCauchySchwarz(v1: Vector, v2: Vector, terms: set<string>)
    ensures CauchySchwarz(Accumulate(v1, v2, terms))
    decreases terms
  {
    if terms != {} {
      var t := Pick(terms);
      var rest := terms - {t};
      AccumulateCauchySchwarz(v1, v2, rest);
      AccumulateNonNegative(v1, v2, rest);
      AddCauchySchwarz(Accumulate(v1, v2, rest), Weight(v1, t), Weight(v2, t));
    }
  }

  /** A vector all of whose weights are 0 (an empty one included) contributes nothing. */
  lemma {:induction false} AccumulateZeroWeights(v1: Vector, v2: Vector, terms: set<string>)
    requires forall t :: t in v1 ==> v1[t] == 0.0
    ensures Accumulate(v1, v2, terms).norm1 == 0.0
    ensures Accumulate(v1, v2, terms).dot == 0.0
    decreases terms
  {
    if terms != {} {
      var t := Pick(terms);
      AccumulateZeroWeights(v1, v2, terms - {t});
      assert Weight(v1, t) == 0.0;
    }
  }

  /** One non-zero weight among the terms makes the squared norm positive. */
  lemma AccumulatePositiveNorm(v1: Vector, v2: Vector, terms: set<string>, t: string)
    requires t in terms && Weight(v1, t) != 0.0
    ensures 0.0 < Accumulate(v1, v2, terms).norm1
  {
    AccumulateRemove(v1, v2, terms, t);
    AccumulateNonNegative(v1, v2, terms - {t});
    AddPositiveNorm(Accumulate(v1, v2, terms - {t}), Weight(v1, t), Weight(v2, t));
  }

  /** Against itself, the dot product is the squared norm. */
  lemma {:induction false} AccumulateDiagonal(v: Vector, terms: set<string>)
    ensures var s := Accumulate(v, v, terms);
            s.dot == s.norm1 == s.norm2
    decreases terms
  {
    if terms != {} {
      AccumulateDiagonal(v, terms - {Pick(terms)});
    }
  }

  /**
   * With non-negative weights, the similarity lies between 0 and 1. Only the
   * laws of the square root are assumed of Math.sqrt.
   */
  lemma CosineBounds(sqrt: real -> real, v1: Vector, v2: Vector)
    requires LawfulSqrt(sqrt)
    requires NonNegative(v1) && NonNegative(v2)
    ensures 0.0 <= Cosine(sqrt, v1, v2) <= 1.0
  {
    var s := Accumulate(v1, v2, AllKeys(v1, v2));
    AccumulateNonNegative(v1, v2, AllKeys(v1, v2));
    AccumulateCauchySchwarz(v1, v2, AllKeys(v1, v2));
    RatioBounds(s.dot, s.norm1, s.norm2, sqrt(s.norm1), sqrt(s.norm2));
  }

  /** A vector without any non-zero weight is similar to nothing. */
  lemma CosineZeroVector(sqrt: real -> real, v1: Vector, v2: Vector)
    requires LawfulSqrt(sqrt)
    requires (forall t :: t in v1 ==> v1[t] == 0.0) || (forall t :: t in v2 ==> v2[t] == 0.0)
    ensures Cosine(sqrt, v1, v2) == 0.0
  {
    if forall t :: t in v1 ==> v1[t] == 0.0 {
      AccumulateZeroWeights(v1, v2, AllKeys(v1, v2));
    } else {
      AccumulateZeroWeights(v2, v1, AllKeys(v2, v1));
      CosineSymmetric(sqrt, v1, v2);
    }
  }

  /** A vector with a non-zero weight is fully similar to itself. */
  lemma CosineSelf(sqrt: real -> real, v: Vector, t: string)
    requires LawfulSqrt(sqrt)
    requires t in v && v[t] != 0.0
    ensures Cosine(sqrt, v, v) == 1.0
  {
    var keys := AllKeys(v, v);
    AccumulateDiagonal(v, keys);
    AccumulatePositiveNorm(v, v, keys, t);
    var s := Accumulate(v, v, keys);
    var n := sqrt(s.norm1);
    assert Square(n) == s.norm1 && n != 0.0;
    RatioSelf(n);
  }
}
