/**
 The Wilson score interval (bench/scorer/score.py) in exact arithmetic; the square root is any nonnegative
 number with the right square.
 */
module Wilson {

  datatype Bounds = Bounds(low: real, high: real)

  function Radicand(hits: nat, n: nat, z: real): real
    requires n > 0
  {
    var p := hits as real / n as real;
    p * (1.0 - p) / n as real + z * z / (4.0 * n as real * n as real)
  }

  ghost predicate IsRoot(root: real, hits: nat, n: nat, z: real) {
    root >= 0.0 && (n > 0 ==> root * root == Radicand(hits, n, z))
  }

  /** `1 + z^2 / n`. */
  function Denominator(n: nat, z: real): (d: real)
    requires n > 0
    ensures d >= 1.0
  {
    Pos(z, z, n as real);
    1.0 + z * z / n as real
  }

  /** `wilson_interval`. */
  function WilsonInterval(hits: nat, n: nat, z: real, root: real): Bounds {
    if n == 0 then Bounds(0.0, 0.0)
    else
      var p := hits as real / n as real;
      var denom := Denominator(n, z);
      var center := (p + z * z / (2.0 * n as real)) / denom;
      var margin := (z * root) / denom;
      Bounds(center - margin, center + margin)
  }

  lemma Pos(x: real, y: real, k: real)
    requires k > 0.0 && x == y
    ensures x * y >= 0.0 && x * y / k >= 0.0
  {
    Square(x);
    hide Mul;
    var q := Mul(x, x) / k;
    assert x * y == Mul(x, x) by { Product(x, y); }
    assert q * k == Mul(x, x);
    if q < 0.0 { Signs(-q, k); Negate(q, k); Product(q, k); }
  }

  // ---- Laws of multiplication, kept out of the solver's nonlinear reasoning ----

  function Mul(x: real, y: real): real {
    x * y
  }

  lemma Product(x: real, y: real)
    ensures Mul(x, y) == x * y == Mul(y, x)
  {
  }

  lemma Signs(x: real, y: real)
    ensures x >= 0.0 && y >= 0.0 ==> Mul(x, y) >= 0.0
    ensures x > 0.0 && y > 0.0 ==> Mul(x, y) > 0.0
  {
  }

  lemma Negate(x: real, y: real)
    ensures Mul(-x, y) == -Mul(x, y) == Mul(x, -y)
  {
  }

  lemma Square(x: real)
    ensures Mul(x, x) >= 0.0 && (x != 0.0 ==> Mul(x, x) > 0.0)
  {
    Signs(x, x);
    Signs(-x, -x);
    Negate(x, -x);
    Negate(x, x);
    hide Mul;
  }

  lemma Distribute(x: real, y: real, w: real)
    ensures Mul(x, y + w) == Mul(x, y) + Mul(x, w) && Mul(x, y - w) == Mul(x, y) - Mul(x, w)
    ensures Mul(y + w, x) == Mul(x, y) + Mul(x, w) && Mul(y - w, x) == Mul(x, y) - Mul(x, w)
  {
  }

  lemma Group(x: real, y: real, w: real)
    ensures Mul(x, Mul(y, w)) == Mul(Mul(x, y), w)
  {
  }

  lemma Units(x: real)
    ensures Mul(x, 1.0) == x == Mul(1.0, x) && Mul(x, 0.0) == 0.0 == Mul(0.0, x)
    ensures Mul(x, 2.0) == 2.0 * x
  {
  }

  lemma SquareOfSum(x: real, y: real)
    ensures Mul(x + y, x + y) == Mul(x, x) + 2.0 * Mul(x, y) + Mul(y, y)
    ensures Mul(x - y, x - y) == Mul(x, x) - 2.0 * Mul(x, y) + Mul(y, y)
    ensures Mul(x - y, x + y) == Mul(x, x) - Mul(y, y)
  {
    Distribute(x + y, x, y);
    Distribute(x - y, x, y);
    Distribute(x, x, y);
    Distribute(y, x, y);
    Product(x, y);
    hide Mul;
  }

  lemma Cancel(x: real, y: real, d: real)
    requires d > 0.0
    ensures Mul(x, d) <= Mul(y, d) <==> x <= y
    ensures Mul(x, d) == Mul(y, d) <==> x == y
  {
    Distribute(d, x, y);
    Distribute(d, y, x);
    Product(x, d);
    Product(y, d);
    Signs(x - y, d);
    Signs(y - x, d);
    hide Mul;
  }

  lemma Quotient(x: real, d: real)
    requires d != 0.0
    ensures Mul(x / d, d) == x
  {
  }

  lemma SquareOrder(x: real, y: real)
    requires y >= 0.0 && Mul(x, x) <= Mul(y, y)
    ensures -y <= x <= y
  {
    SquareOfSum(x, y);
    SquareOfSum(-x, y);
    Negate(x, x);
    Negate(x, -x);
    Signs(x - y, x + y);
    Signs(-x - y, -x + y);
    hide Mul;
  }

  // ---- The interval in terms of a = z^2 / 2n and m = z * root ----

  /** The quantities the proofs work with; the interval is `(p + a -+ m) / (1 + 2a)`. */
  ghost predicate Scaled(p: real, a: real, m: real) {
    0.0 <= p <= 1.0 && a >= 0.0 && Mul(m, m) == 2.0 * Mul(a, Mul(p, 1.0 - p)) + Mul(a, a)
  }

  lemma MarginBound(p: real, a: real, m: real)
    requires Scaled(p, a, m)
    ensures -(p + a) <= m <= p + a
  {
    SquareOfSum(p, a);
    Distribute(p, 1.0, p);
    Units(p);
    Distribute(a, p, Mul(p, p));
    Product(p, a);
    Square(p);
    Signs(a, Mul(p, p));
    SquareOrder(m, p + a) by { hide Mul; }
  }

  lemma MarginReaches(p: real, a: real, m: real)
    requires Scaled(p, a, m) && m >= 0.0
    ensures a - 2.0 * Mul(a, p) <= m
  {
    var w, v := 1.0 - 2.0 * p, Mul(p, 1.0 - p);
    var d := Mul(a, w);
    assert d == a - 2.0 * Mul(a, p) by { Distribute(a, 1.0, 2.0 * p); Distribute(a, p, p); Units(a); }
    assert Mul(w, w) == 1.0 - 4.0 * v by {
      SquareOfSum(1.0, 2.0 * p);
      SquareOfSum(p, p);
      Units(1.0);
      Units(2.0 * p);
      Distribute(p, 1.0, p);
      Units(p);
    }
    assert Mul(d, d) == Mul(Mul(a, a), Mul(w, w)) by {
      Group(d, a, w);
      Product(d, a);
      Group(a, a, w);
      Group(Mul(a, a), w, w);
    }
    var aa := Mul(a, a);
    assert Mul(aa, 1.0 - 4.0 * v) == aa - 4.0 * Mul(aa, v);
    Signs(p, 1.0 - p);
    Signs(a, v);
    Square(a);
    Signs(aa, v);
    SquareOrder(d, m) by { hide Mul; }
  }

  // ---- From the source's formula to the scaled one ----

  lemma MarginSquare(p: real, a: real, m: real, z: real, root: real, k: real)
    requires k > 0.0 && m == Mul(z, root) && Mul(a, 2.0 * k) == Mul(z, z)
    requires Mul(2.0 * k, 2.0 * k) > 0.0 && Mul(root, root) == Mul(p, 1.0 - p) / k + Mul(z, z) / Mul(2.0 * k, 2.0 * k)
    ensures Mul(m, m) == 2.0 * Mul(a, Mul(p, 1.0 - p)) + Mul(a, a)
  {
    var zz, v, d := Mul(z, z), Mul(p, 1.0 - p), 2.0 * k;
    var x, y := v / k, zz / Mul(d, d);
    assert Mul(m, m) == Mul(zz, Mul(root, root)) by {
      Group(m, z, root);
      Product(m, z);
      Group(z, z, root);
      Group(zz, root, root);
    }
    Distribute(zz, x, y);
    assert Mul(zz, x) == 2.0 * Mul(a, v);
    assert Mul(zz, y) == Mul(a, a);
    hide Mul;
  }

  lemma RootSquare(hits: nat, n: nat, z: real, root: real)
    requires 0 < n && IsRoot(root, hits, n, z)
    ensures var p, k := hits as real / n as real, n as real;
            Mul(root, root) == Mul(p, 1.0 - p) / k + Mul(z, z) / Mul(2.0 * k, 2.0 * k)
  {
    var k := n as real;
    assert Mul(2.0 * k, 2.0 * k) == 4.0 * k * k;
  }

  /** The interval over the common denominator `1 + 2a`. */
  lemma IntervalIs(hits: nat, n: nat, z: real, root: real) returns (p: real, a: real, m: real)
    requires 0 < n && hits <= n && IsRoot(root, hits, n, z)
    ensures p == hits as real / n as real && a == z * z / (2.0 * n as real) && m == z * root
    ensures Scaled(p, a, m) && (z >= 0.0 ==> m >= 0.0) && (z < 0.0 ==> m < 0.0)
    ensures var b := WilsonInterval(hits, n, z, root);
            Mul(b.low, 1.0 + 2.0 * a) == p + a - m && Mul(b.high, 1.0 + 2.0 * a) == p + a + m
  {
    var k := n as real;
    p, a, m := hits as real / k, z * z / (2.0 * k), z * root;
    Fraction(hits as real, k);
    Product(z, z);
    Product(z, root);
    RootSquare(hits, n, z, root);
    hide Mul, IsRoot, Radicand, WilsonInterval;
    var zz := Mul(z, z);
    Square(z);
    Quotient(zz, 2.0 * k);
    Quotients(zz, k);
    assert a == zz / (2.0 * k);
    Signs(2.0 * k, 2.0 * k);
    MarginSquare(p, a, m, z, root, k);
    if z >= 0.0 {
      Signs(z, root);
    } else {
      NegativeMargin(p, a, m, z, root);
    }
    EndsAre(hits, n, z, root, p, a, m);
  }

  lemma Fraction(h: real, k: real)
    requires 0.0 <= h <= k && k > 0.0
    ensures 0.0 <= h / k <= 1.0
  {
    Quotient(h, k);
    Cancel(h / k, 1.0, k);
    Cancel(0.0, h / k, k);
    Units(k);
    hide Mul;
  }

  lemma Quotients(zz: real, k: real)
    requires k > 0.0 && zz >= 0.0
    ensures zz / k == 2.0 * (zz / (2.0 * k)) && zz / (2.0 * k) >= 0.0
  {
    var a := zz / (2.0 * k);
    Quotient(zz, k);
    Quotient(zz, 2.0 * k);
    Distribute(a, k, k);
    Distribute(k, a, a);
    Product(a, k);
    Cancel(zz / k, 2.0 * a, k);
    Cancel(0.0, a, 2.0 * k);
    Units(2.0 * k);
    hide Mul;
  }

  lemma NegativeMargin(p: real, a: real, m: real, z: real, root: real)
    requires z < 0.0 && root >= 0.0 && m == Mul(z, root) && a >= 0.0 && 0.0 <= p <= 1.0
    requires Mul(m, m) == 2.0 * Mul(a, Mul(p, 1.0 - p)) + Mul(a, a)
    requires a == 0.0 ==> Mul(z, z) == 0.0
    ensures m < 0.0
  {
    Square(z);
    Square(a);
    Signs(p, 1.0 - p);
    Signs(a, Mul(p, 1.0 - p));
    Negate(z, root);
    Signs(-z, root);
    Units(0.0);
    hide Mul;
  }

  lemma EndsAre(hits: nat, n: nat, z: real, root: real, p: real, a: real, m: real)
    requires 0 < n && p == hits as real / n as real && m == z * root
    requires a == z * z / (2.0 * n as real) && z * z / n as real == 2.0 * a
    ensures var b := WilsonInterval(hits, n, z, root);
            Mul(b.low, 1.0 + 2.0 * a) == p + a - m && Mul(b.high, 1.0 + 2.0 * a) == p + a + m
  {
    var d := Denominator(n, z);
    assert d == 1.0 + 2.0 * a;
    var center, margin := (p + a) / d, m / d;
    assert WilsonInterval(hits, n, z, root) == Bounds(center - margin, center + margin);
    hide WilsonInterval, Denominator;
    Quotient(p + a, d);
    Quotient(m, d);
    Distribute(d, center, margin);
    Product(center, d);
    Product(margin, d);
    hide Mul;
  }

  // ---- The promises ----

  /**
   For every `0 <= hits <= n` the interval is ordered around the observed rate and within [0, 1] exactly when
   `z` is not negative; a negative `z` swaps its ends.
   */
  lemma IntervalContainsTheRate(hits: nat, n: nat, z: real, root: real)
    requires 0 < n && hits <= n && IsRoot(root, hits, n, z)
    ensures var b := WilsonInterval(hits, n, z, root);
            (0.0 <= b.low <= hits as real / n as real <= b.high <= 1.0) <==> z >= 0.0
  {
    var p, a, m := IntervalIs(hits, n, z, root);
    hide *;
    var b := WilsonInterval(hits, n, z, root);
    if z >= 0.0 {
      EnclosesRate(p, a, m, b.low, b.high);
    } else {
      EndsSwap(p, a, m, b.low, b.high);
    }
  }

  lemma EnclosesRate(p: real, a: real, m: real, low: real, high: real)
    requires Scaled(p, a, m) && m >= 0.0
    requires Mul(low, 1.0 + 2.0 * a) == p + a - m && Mul(high, 1.0 + 2.0 * a) == p + a + m
    ensures 0.0 <= low <= p <= high <= 1.0
  {
    var d := 1.0 + 2.0 * a;
    Mirrored(p, a, m);
    MarginBound(p, a, m);
    MarginBound(1.0 - p, a, m);
    MarginReaches(p, a, m);
    MarginReaches(1.0 - p, a, m);
    Scale(p, a);
    Units(d);
    Cancel(0.0, low, d);
    Cancel(low, p, d);
    Cancel(p, high, d);
    Cancel(high, 1.0, d);
    hide Mul, Scaled;
  }

  lemma EndsSwap(p: real, a: real, m: real, low: real, high: real)
    requires a >= 0.0 && m < 0.0
    requires Mul(low, 1.0 + 2.0 * a) == p + a - m && Mul(high, 1.0 + 2.0 * a) == p + a + m
    ensures high < low
  {
    Cancel(low, high, 1.0 + 2.0 * a);
    hide Mul;
  }

  lemma Mirrored(p: real, a: real, m: real)
    requires Scaled(p, a, m)
    ensures Scaled(1.0 - p, a, m) && Mul(a, 1.0 - p) == a - Mul(a, p) && a >= 0.0
  {
    Product(p, 1.0 - p);
    Distribute(a, 1.0, p);
    Units(a);
    assert 1.0 - (1.0 - p) == p;
    hide Mul;
  }

  lemma Scale(p: real, a: real)
    ensures Mul(p, 1.0 + 2.0 * a) == p + 2.0 * Mul(a, p)
  {
    Distribute(p, 1.0, 2.0 * a);
    Distribute(p, a, a);
    Product(p, a);
    Units(p);
    hide Mul;
  }

  /** At an input: no hit in one trial at `z == -1` gives the interval from 1/2 down to 0. */
  lemma NegativeZSwapsTheEnds()
    ensures IsRoot(0.5, 0, 1, -1.0) && WilsonInterval(0, 1, -1.0, 0.5) == Bounds(0.5, 0.0)
  {
    assert Radicand(0, 1, -1.0) == 0.25;
  }

  /** The score test at a true rate `x`: the squared distance from the observed rate against `z^2` variances. */
  predicate NotRejected(p: real, x: real, perTrial: real) {
    (p - x) * (p - x) <= perTrial * (x * (1.0 - x))
  }

  lemma TestIs(p: real, x: real, a: real)
    ensures NotRejected(p, x, 2.0 * a) <==> Mul(p - x, p - x) <= 2.0 * Mul(a, Mul(x, 1.0 - x))
  {
    assert (2.0 * a) * (x * (1.0 - x)) == Mul(2.0 * a, Mul(x, 1.0 - x));
    var v := Mul(x, 1.0 - x);
    assert Mul(2.0 * a, v) == 2.0 * Mul(a, v) by { Distribute(v, a, a); Product(a, v); }
  }

  /** The interval is exactly the set of rates the score test does not reject: `(p - x)^2 <= z^2 x (1 - x) / n`. */
  lemma IntervalIsTheScoreTest(hits: nat, n: nat, z: real, root: real, x: real)
    requires 0 < n && hits <= n && z >= 0.0 && IsRoot(root, hits, n, z)
    ensures var b := WilsonInterval(hits, n, z, root);
            b.low <= x <= b.high <==> NotRejected(hits as real / n as real, x, z * z / n as real)
  {
    ScoreTest(hits, n, z, root, x);
    assert z * z / n as real == 2.0 * (z * z / (2.0 * n as real)) by { Pos(z, z, 1.0); Quotients(z * z, n as real); }
    TestIs(hits as real / n as real, x, z * z / (2.0 * n as real));
    hide *;
  }

  lemma ScoreTest(hits: nat, n: nat, z: real, root: real, x: real)
    requires 0 < n && hits <= n && z >= 0.0 && IsRoot(root, hits, n, z)
    ensures var b, p, a := WilsonInterval(hits, n, z, root), hits as real / n as real, z * z / (2.0 * n as real);
            b.low <= x <= b.high <==> Mul(p - x, p - x) <= 2.0 * Mul(a, Mul(x, 1.0 - x))
  {
    var b := WilsonInterval(hits, n, z, root);
    var p, a, m := IntervalIs(hits, n, z, root);
    var d := 1.0 + 2.0 * a;
    hide Mul, WilsonInterval, IsRoot;
    Cancel(b.low, b.high, d);
    Factor(p, a, m, d, b.low, b.high, x);
    SignOfProduct(d, x - b.low, x - b.high);
  }

  lemma SignOfProduct(d: real, u: real, v: real)
    requires d > 0.0 && v <= u
    ensures Mul(d, Mul(u, v)) <= 0.0 <==> v <= 0.0 <= u
  {
    Signs(u, v);
    Signs(-u, -v);
    Negate(u, -v);
    Negate(u, v);
    Signs(u, -v);
    Units(d);
    Product(Mul(u, v), d);
    Cancel(Mul(u, v), 0.0, d);
    Units(u);
    Units(v);
    hide Mul;
  }

  /** The score test's polynomial has the interval's ends as its roots. */
  lemma Factor(p: real, a: real, m: real, d: real, low: real, high: real, x: real)
    requires Scaled(p, a, m) && d == 1.0 + 2.0 * a && Mul(low, d) == p + a - m && Mul(high, d) == p + a + m
    ensures Mul(p - x, p - x) - 2.0 * Mul(a, Mul(x, 1.0 - x)) == Mul(d, Mul(x - low, x - high))
  {
    var s, t, xx := low + high, Mul(low, high), Mul(x, x);
    assert Mul(d, s) == 2.0 * (p + a) by { Distribute(d, low, high); Product(low, d); Product(high, d); }
    assert Mul(d, t) == Mul(p, p) by { ProductOfEnds(p, a, m, d, low, high); Product(t, d); }
    assert Mul(x - low, x - high) == xx - Mul(x, s) + t by {
      Distribute(x - low, x, high);
      Distribute(x, x, low);
      Distribute(high, x, low);
      Distribute(x, low, high);
      Product(x, high);
      Product(low, high);
    }
    assert Mul(d, xx - Mul(x, s) + t) == Mul(d, xx) - Mul(d, Mul(x, s)) + Mul(d, t) by {
      Distribute(d, xx - Mul(x, s), t);
      Distribute(d, xx, Mul(x, s));
    }
    assert Mul(d, xx)
           == xx + 2.0 * Mul(a,
                             xx) by { Distribute(xx, 1.0, 2.0 * a); Distribute(xx, a, a); Units(xx); Product(xx, a); }
    assert Mul(d, Mul(x, s)) == 2.0 * Mul(x, p) + 2.0 * Mul(a, x) by {
      Group(d, x, s);
      Product(d, x);
      Group(x, d, s);
      Distribute(x, p + a, p + a);
      Distribute(x, p, a);
      Product(x, a);
    }
    assert Mul(a, Mul(x, 1.0 - x))
           == Mul(a, x) - Mul(a, xx) by { Distribute(x, 1.0, x); Units(x); Distribute(a, x, xx); }
    SquareOfSum(p, x);
    Product(p, x);
    hide Mul;
  }

  lemma ProductOfEnds(p: real, a: real, m: real, d: real, low: real, high: real)
    requires Scaled(p, a, m) && d == 1.0 + 2.0 * a && Mul(low, d) == p + a - m && Mul(high, d) == p + a + m
    ensures Mul(Mul(low, high), d) == Mul(p, p)
  {
    var t, pp := Mul(low, high), Mul(p, p);
    assert Mul(Mul(t, d), d) == Mul(Mul(low, d), Mul(high, d)) by {
      Group(low, high, d);
      Group(Mul(low, Mul(high, d)), 1.0, d);
      Product(Mul(high, d), d);
      Group(low, Mul(high, d), d);
      Group(low, d, Mul(high, d));
      Product(d, Mul(high, d));
    }
    SquareOfSum(p + a, m);
    SquareOfSum(p, a);
    Product(p, a);
    assert Mul(a, Mul(p, 1.0 - p))
           == Mul(a, p) - Mul(a, pp) by { Distribute(p, 1.0, p); Units(p); Distribute(a, p, pp); }
    assert Mul(pp, d)
           == pp + 2.0 * Mul(a,
                             pp) by { Distribute(pp, 1.0, 2.0 * a); Distribute(pp, a, a); Units(pp); Product(pp, a); }
    Cancel(Mul(t, d), pp, d);
    hide Mul;
  }
}
