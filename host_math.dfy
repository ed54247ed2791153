/**
 * `Math.log` and `Math.sqrt` of the JavaScript host. They cannot be computed
 * over Dafny's reals, so the search engine takes them as parameters; the laws
 * of the real logarithm and square root that the proofs rely on are stated
 * here and appear as hypotheses of exactly the lemmas that need them.
 */
module HostMath {
  import opened RealArith

  datatype RealMath = RealMath(ln: real -> real, sqrt: real -> real)

  /** The natural logarithm vanishes at 1, is monotone, and is positive above 1. */
  ghost predicate LawfulLn(ln: real -> real) {
    && ln(1.0) == 0.0
    && (forall x, y :: 0.0 < x <= y ==> ln(x) <= ln(y))
    && (forall x :: 1.0 < x ==> 0.0 < ln(x))
  }

  /**
   * The square root of a non-negative number is non-negative, squares back
   * to it, and is zero only at zero.
   */
  ghost predicate LawfulSqrt(sqrt: real -> real) {
    forall x :: 0.0 <= x ==> 0.0 <= sqrt(x) && Square(sqrt(x)) == x && (sqrt(x) == 0.0 <==> x == 0.0)
  }

  ghost predicate Lawful(m: RealMath) {
    LawfulLn(m.ln) && LawfulSqrt(m.sqrt)
  }
}
