/**
 * Small facts about products of reals. Products are named by the functions
 * Square and Product so that a fact proved about the product of a lemma's
 * parameters carries over to the product of the caller's arguments.
 */
module RealArith {

  function Square(x: real): real {
    x * x
  }

  function Product(a: real, b: real): real {
    a * b
  }

  lemma SquareNonNegative(a: real)
    ensures 0.0 <= Square(a)
  {
    if a < 0.0 {
      assert 0.0 < (-a) * (-a);
    }
  }

  lemma SquarePositive(a: real)
    requires a != 0.0
    ensures 0.0 < Square(a)
  {
    if a < 0.0 {
      ProductPositive(-a, -a);
    } else {
      ProductPositive(a, a);
    }
  }

  lemma ProductNonNegative(a: real, b: real)
    requires 0.0 <= a && 0.0 <= b
    ensures 0.0 <= Product(a, b)
  {
  }

  lemma ProductPositive(a: real, b: real)
    requires 0.0 < a && 0.0 < b
    ensures 0.0 < Product(a, b)
  {
  }

  lemma ProductNonZero(a: real, b: real)
    requires a != 0.0 && b != 0.0
    ensures Product(a, b) != 0.0
  {
    if a < 0.0 && b < 0.0 {
      assert 0.0 < (-a) * (-b);
    } else if a < 0.0 {
      assert 0.0 < (-a) * b;
    } else if b < 0.0 {
      assert 0.0 < a * (-b);
    } else {
      assert 0.0 < a * b;
    }
  }

  lemma ProductMonotone(a: real, b: real, c: real)
    requires a <= b && 0.0 <= c
    ensures Product(a, c) <= Product(b, c)
  {
    assert 0.0 <= (b - a) * c;
    assert (b - a) * c == b * c - a * c;
  }

  lemma SquareOfProduct(a: real, b: real)
    ensures Square(Product(a, b)) == Product(Square(a), Square(b))
  {
    assert (a * b) * (a * b) == (a * a) * (b * b);
  }

  /** A non-negative number whose square dominates another square dominates that number. */
  lemma SquareDominates(x: real, y: real)
    requires 0.0 <= x
    requires Square(y) <= Square(x)
    ensures y <= x
  {
    assert (y - x) * (y + x) == y * y - x * x;
    if x < y {
      ProductPositive(y - x, y + x);
      assert false;
    }
  }

  /** The middle term of Cauchy-Schwarz: 2dab <= n1 b^2 + a^2 n2 when d^2 <= n1 n2. */
  lemma CrossTermBound(n1: real, n2: real, d: real, a: real, b: real)
    requires 0.0 <= n1 && 0.0 <= n2
    requires Square(d) <= Product(n1, n2)
    ensures 2.0 * (d * (a * b)) <= n1 * (b * b) + (a * a) * n2
  {
    var a2, b2 := Square(a), Square(b);
    SquareNonNegative(a);
    SquareNonNegative(b);
    ProductNonNegative(n1, b2);
    ProductNonNegative(a2, n2);
    var p, q := Product(n1, b2), Product(a2, n2);
    var x := p + q;
    var y := 2.0 * (d * (a * b));
    // (p + q)^2 = (p - q)^2 + 4pq >= 4pq = 4 n1 n2 a^2 b^2 >= 4 d^2 a^2 b^2 = y^2
    SquareNonNegative(p - q);
    assert Square(x) == Square(p - q) + 4.0 * (p * q);
    assert p * q == (n1 * n2) * (a2 * b2);
    ProductNonNegative(a2, b2);
    ProductMonotone(Square(d), Product(n1, n2), Product(a2, b2));
    assert Square(y) == 4.0 * (Square(d) * (a2 * b2));
    SquareDominates(x, y);
  }

  /** The induction step of Cauchy-Schwarz: adding one coordinate to each vector keeps the inequality. */
  lemma CauchySchwarzStep(d: real, n1: real, n2: real, a: real, b: real)
    requires 0.0 <= n1 && 0.0 <= n2
    requires Square(d) <= Product(n1, n2)
    ensures Square(d + Product(a, b)) <= Product(n1 + Square(a), n2 + Square(b))
  {
    CrossTermBound(n1, n2, d, a, b);
    assert (d + a * b) * (d + a * b) == d * d + 2.0 * (d * (a * b)) + (a * b) * (a * b);
    assert (n1 + a * a) * (n2 + b * b) == n1 * n2 + (n1 * (b * b) + (a * a) * n2) + (a * a) * (b * b);
    assert (a * b) * (a * b) == (a * a) * (b * b);
  }

  lemma QuotientSelf(x: real)
    requires x != 0.0
    ensures x / x == 1.0
  {
  }

  lemma QuotientPositive(d: real, p: real)
    requires 0.0 < d && 0.0 < p
    ensures 0.0 < d / p
  {
    var q := d / p;
    assert q * p == d;
  }

  lemma QuotientOne(d: real, p: real)
    requires 0.0 < p
    ensures d / p == 1.0 <==> d == p
  {
    var q := d / p;
    assert q * p == d;
  }

  lemma QuotientBounds(d: real, p: real)
    requires 0.0 <= d <= p && 0.0 < p
    ensures 0.0 <= d / p <= 1.0
  {
    var q := d / p;
    assert q * p == d;
  }
}
