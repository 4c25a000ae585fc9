/** The Wilson score interval over exact reals; its square root is any non-negative root. */
module Wilson {
  function Rate(passes: nat, n: nat): real
    requires n > 0
  {
    passes as real / n as real
  }

  function Radicand(passes: nat, n: nat, z: real): real
    requires n > 0
  {
    var p := Rate(passes, n);
    p * (1.0 - p) / n as real + z * z / (4.0 * n as real * n as real)
  }

  predicate IsRoot(root: real, x: real) { root >= 0.0 && root * root == x }

  function Larger(x: real, y: real): real { if x >= y then x else y }

  function Smaller(x: real, y: real): real { if x <= y then x else y }

  function Denom(n: nat, z: real): (d: real)
    requires n > 0
    ensures d >= 1.0
  {
    NonNegative(n, z);
    1.0 + z * z / n as real
  }

  function Low(passes: nat, n: nat, z: real, root: real): real
    requires n > 0
  {
    (Rate(passes, n) + z * z / (2.0 * n as real) - z * root) / Denom(n, z)
  }

  function High(passes: nat, n: nat, z: real, root: real): real
    requires n > 0
  {
    (Rate(passes, n) + z * z / (2.0 * n as real) + z * root) / Denom(n, z)
  }

  /** `_wilson`; `root` is the square root it takes. */
  function Interval(passes: nat, n: nat, z: real, root: real): (real, real)
    requires n > 0 ==> IsRoot(root, Radicand(passes, n, z))
  {
    if n == 0 then (0.0, 1.0)
    else (Larger(0.0, Low(passes, n, z, root)), Smaller(1.0, High(passes, n, z, root)))
  }

  lemma NonNegative(n: nat, z: real)
    requires n > 0
    ensures z * z / n as real >= 0.0
  {
    assert z * z >= 0.0;
  }

  // ---------- the quadratic behind it, with a = z^2 / n ----------

  function Spread(a: real, p: real): real { a * p * (1.0 - p) + a * a / 4.0 }

  predicate Accepts(a: real, p: real, q: real) { (p - q) * (p - q) <= a * q * (1.0 - q) }

  lemma Positive(x: real, y: real)
    requires x > 0.0 && y > 0.0
    ensures x * y > 0.0
  {}

  lemma GreaterSquare(x: real, m: real)
    requires x > m >= 0.0
    ensures x * x > m * m
  {
    Positive(x - m, x + m);
    assert (x - m) * (x + m) == x * x - m * m;
  }

  lemma Square(x: real, m: real)
    requires m >= 0.0
    ensures x * x <= m * m <==> -m <= x <= m
  {
    var y := if x >= 0.0 then x else -x;
    assert y * y == x * x;
    if y > m { GreaterSquare(y, m); }
    if y < m { GreaterSquare(m, y); }
  }

  lemma SameSquare(x: real, y: real)
    requires x >= 0.0 && y >= 0.0 && x * x == y * y
    ensures x == y
  {
    if x > y { GreaterSquare(x, y); }
    if y > x { GreaterSquare(y, x); }
  }

  /** Completing the square. */
  lemma Completed(a: real, p: real, q: real)
    ensures var x := (1.0 + a) * q - (p + a / 2.0);
      x * x - Spread(a, p) == (1.0 + a) * ((p - q) * (p - q) - a * q * (1.0 - q))
  {
    var c, d := p + a / 2.0, 1.0 + a;
    var x := d * q - c;
    assert x * x == d * d * q * q - 2.0 * d * q * c + c * c;
    assert c * c == p * p + p * a + a * a / 4.0;
    assert c * c - Spread(a, p) == p * p * d;
    assert (p - q) * (p - q) - a * q * (1.0 - q) == d * q * q - 2.0 * q * c + p * p;
    assert d * (d * q * q - 2.0 * q * c + p * p) == d * d * q * q - 2.0 * d * q * c + d * p * p;
  }

  lemma WithinIsBetween(d: real, c: real, m: real, q: real, ok: bool)
    requires d > 0.0 && (ok <==> -m <= d * q - c <= m)
    ensures ok <==> (c - m) / d <= q <= (c + m) / d
  {
    Divide(c - m, d, q);
    Divide(c + m, d, q);
  }

  lemma AcceptsWithin(a: real, p: real, q: real, m: real)
    requires a >= 0.0 && m >= 0.0 && m * m == Spread(a, p)
    ensures Accepts(a, p, q) <==> -m <= (1.0 + a) * q - (p + a / 2.0) <= m
  {
    Completed(a, p, q);
    SignOfProduct(1.0 + a, (p - q) * (p - q) - a * q * (1.0 - q));
    Square((1.0 + a) * q - (p + a / 2.0), m);
  }

  lemma SignOfProduct(d: real, y: real)
    requires d > 0.0
    ensures d * y <= 0.0 <==> y <= 0.0
  {}

  lemma Divide(y: real, d: real, q: real)
    requires d > 0.0
    ensures (y / d <= q <==> y <= d * q) && (q <= y / d <==> d * q <= y) && d * (y / d) == y
  {
    var r := y / d;
    assert d * r == y;
    assert d * (q - r) == d * q - y;
    SignOfProduct(d, q - r);
    SignOfProduct(d, r - q);
  }

  // ---------- the source's formula is that quadratic's ----------

  function Weight(n: nat, z: real): real
    requires n > 0
  {
    z * z / n as real
  }

  lemma RateBounds(passes: nat, n: nat)
    requires passes <= n && n > 0
    ensures 0.0 <= Rate(passes, n) <= 1.0
  {
    Divide(passes as real, n as real, 0.0);
    Divide(passes as real, n as real, 1.0);
  }

  lemma Quotient(x: real, d: real, r: real)
    requires d != 0.0 && r * d == x
    ensures x / d == r
  {}

  lemma Fractions(x: real, n: real)
    requires n > 0.0
    ensures x / (2.0 * n) == x / n / 2.0 && x / (4.0 * n * n) == x / n / n / 4.0
  {
    var r := x / n;
    var s := r / n;
    assert r * n == x && s * n == r;
    assert r / 2.0 * (2.0 * n) == r * n;
    Quotient(x, 2.0 * n, r / 2.0);
    assert s * n * n == r * n;
    FourSquares(s, n, x);
  }

  lemma FourSquares(s: real, n: real, x: real)
    requires n > 0.0 && s * n * n == x
    ensures x / (4.0 * n * n) == s / 4.0
  {
    var m, r := 4.0 * n, s / 4.0;
    Positive(m, n);
    assert r * (m * n) == s * n * n;
    Quotient(x, m * n, r);
  }

  lemma MarginSquared(passes: nat, n: nat, z: real, root: real)
    requires n > 0 && z > 0.0 && IsRoot(root, Radicand(passes, n, z))
    ensures z * root >= 0.0 && (z * root) * (z * root) == Spread(Weight(n, z), Rate(passes, n))
  {
    var p, nn, a := Rate(passes, n), n as real, Weight(n, z);
    Fractions(z * z, nn);
    var v := p * (1.0 - p);
    assert root * root == v / nn + a / nn / 4.0;
    assert (z * root) * (z * root) == (z * z) * (root * root);
    assert z * z == a * nn;
    assert nn * (v / nn) == v && nn * (a / nn) == a;
    assert (a * nn) * (v / nn + a / nn / 4.0) == a * (nn * (v / nn)) + a * (nn * (a / nn)) / 4.0;
  }

  lemma Ends(passes: nat, n: nat, z: real, root: real)
    requires n > 0
    ensures var p, a := Rate(passes, n), Weight(n, z);
      && Low(passes, n, z, root) == (p + a / 2.0 - z * root) / (1.0 + a)
      && High(passes, n, z, root) == (p + a / 2.0 + z * root) / (1.0 + a)
  {
    Fractions(z * z, n as real);
  }

  function Deviation(p: real, q: real): real { (p - q) * (p - q) }

  function ScoreBound(n: nat, z: real, q: real): real
    requires n > 0
  {
    z * z * q * (1.0 - q) / n as real
  }

  /** The score test: does the observed rate lie within z standard errors of `q`? */
  predicate ScoreAccepts(passes: nat, n: nat, z: real, q: real)
    requires n > 0
  {
    Deviation(Rate(passes, n), q) <= ScoreBound(n, z, q)
  }

  lemma ScoreIsQuadratic(passes: nat, n: nat, z: real, q: real)
    requires n > 0
    ensures ScoreAccepts(passes, n, z, q) <==> Accepts(Weight(n, z), Rate(passes, n), q)
  {
    var y := q * (1.0 - q);
    assert z * z * q * (1.0 - q) == (z * z) * y;
    assert (z * z) * y / n as real == (z * z) / n as real * y by {
      assert (z * z) / n as real * n as real == z * z;
      assert ((z * z) / n as real * y) * n as real == (z * z) * y;
    }
    assert Weight(n, z) * q * (1.0 - q) == Weight(n, z) * y;
  }

  lemma WithinEnds(passes: nat, n: nat, z: real, root: real, q: real, ok: bool)
    requires n > 0
    requires var p, a, m := Rate(passes, n), Weight(n, z), z * root;
      ok <==> -m <= (1.0 + a) * q - (p + a / 2.0) <= m
    ensures ok <==> Low(passes, n, z, root) <= q <= High(passes, n, z, root)
  {
    NonNegative(n, z);
    Ends(passes, n, z, root);
    WithinIsBetween(1.0 + Weight(n, z), Rate(passes, n) + Weight(n, z) / 2.0, z * root, q, ok);
  }

  lemma UnclampedInverts(passes: nat, n: nat, z: real, root: real, q: real)
    requires n > 0 && z > 0.0 && IsRoot(root, Radicand(passes, n, z))
    ensures Low(passes, n, z, root) <= q <= High(passes, n, z, root) <==> ScoreAccepts(passes, n, z, q)
  {
    NonNegative(n, z);
    MarginSquared(passes, n, z, root);
    AcceptsWithin(Weight(n, z), Rate(passes, n), q, z * root);
    ScoreIsQuadratic(passes, n, z, q);
    WithinEnds(passes, n, z, root, q, ScoreAccepts(passes, n, z, q));
  }

  lemma LowEnd(a: real, p: real, m: real)
    requires a >= 0.0 && 0.0 <= p <= 1.0 && m >= 0.0 && m * m == Spread(a, p)
    ensures m <= p + a / 2.0 && (m == p + a / 2.0 <==> p == 0.0)
  {
    var c := p + a / 2.0;
    assert c * c - m * m == p * p * (1.0 + a);
    Square(m, c);
    if p > 0.0 {
      Positive(p, 1.0 + a);
      Positive(p, p * (1.0 + a));
      assert p * p * (1.0 + a) == p * (p * (1.0 + a));
    } else {
      assert p * p * (1.0 + a) == 0.0;
      SameSquare(c, m);
    }
  }

  lemma SpreadMirror(a: real, p: real)
    ensures Spread(a, 1.0 - p) == Spread(a, p)
  {
    assert a * (1.0 - p) * (1.0 - (1.0 - p)) == a * p * (1.0 - p);
  }

  lemma LowAboveZero(passes: nat, n: nat, z: real, root: real)
    requires 0 < n && passes <= n && z > 0.0 && IsRoot(root, Radicand(passes, n, z))
    ensures 0.0 <= Low(passes, n, z, root) && (Low(passes, n, z, root) == 0.0 <==> Rate(passes, n) == 0.0)
  {
    var p, a, m := Rate(passes, n), Weight(n, z), z * root;
    RateBounds(passes, n);
    NonNegative(n, z);
    MarginSquared(passes, n, z, root);
    Ends(passes, n, z, root);
    LowEnd(a, p, m);
    Divide(p + a / 2.0 - m, 1.0 + a, 0.0);
  }

  lemma HighBelowOne(passes: nat, n: nat, z: real, root: real)
    requires 0 < n && passes <= n && z > 0.0 && IsRoot(root, Radicand(passes, n, z))
    ensures High(passes, n, z, root) <= 1.0 && (High(passes, n, z, root) == 1.0 <==> Rate(passes, n) == 1.0)
  {
    var p, a, m := Rate(passes, n), Weight(n, z), z * root;
    RateBounds(passes, n);
    NonNegative(n, z);
    MarginSquared(passes, n, z, root);
    Ends(passes, n, z, root);
    SpreadMirror(a, p);
    LowEnd(a, 1.0 - p, m);
    Divide(p + a / 2.0 + m, 1.0 + a, 1.0);
  }

  /** The clamps never bind, the observed rate lies inside, and an end touches 0 or 1 exactly when no run
    * or every run passed. */
  lemma WithinUnit(passes: nat, n: nat, z: real, root: real)
    requires 0 < n && passes <= n && z > 0.0 && IsRoot(root, Radicand(passes, n, z))
    ensures 0.0 <= Low(passes, n, z, root) <= Rate(passes, n) <= High(passes, n, z, root) <= 1.0
    ensures Interval(passes, n, z, root) == (Low(passes, n, z, root), High(passes, n, z, root))
    ensures (Low(passes, n, z, root) == 0.0 <==> passes == 0) && (High(passes, n, z, root) == 1.0 <==> passes == n)
  {
    RateEnds(passes, n);
    LowAboveZero(passes, n, z, root);
    HighBelowOne(passes, n, z, root);
    RateInside(passes, n, z, root);
  }

  /** Without any run the interval is all rates. */
  lemma NoRunsSayNothing(passes: nat, z: real, root: real)
    ensures Interval(passes, 0, z, root) == (0.0, 1.0)
  {}

  lemma RateInside(passes: nat, n: nat, z: real, root: real)
    requires 0 < n && passes <= n && z > 0.0 && IsRoot(root, Radicand(passes, n, z))
    ensures Low(passes, n, z, root) <= Rate(passes, n) <= High(passes, n, z, root)
  {
    RateBounds(passes, n);
    NonNegative(n, z);
    MarginSquared(passes, n, z, root);
    RateIsWithin(Weight(n, z), Rate(passes, n), z * root);
    WithinEnds(passes, n, z, root, Rate(passes, n), true);
  }

  lemma NotNegative(x: real, y: real)
    requires x >= 0.0 && y >= 0.0
    ensures x * y >= 0.0
  {}

  lemma RateIsWithin(a: real, p: real, m: real)
    requires a >= 0.0 && 0.0 <= p <= 1.0 && m >= 0.0 && m * m == Spread(a, p)
    ensures -m <= (1.0 + a) * p - (p + a / 2.0) <= m
  {
    NotNegative(p, 1.0 - p);
    NotNegative(a, p * (1.0 - p));
    assert a * p * (1.0 - p) == a * (p * (1.0 - p));
    AcceptsWithin(a, p, p, m);
  }

  lemma RateEnds(passes: nat, n: nat)
    requires 0 < n
    ensures (Rate(passes, n) == 0.0 <==> passes == 0) && (Rate(passes, n) == 1.0 <==> passes == n)
  {
    Divide(passes as real, n as real, 0.0);
    Divide(passes as real, n as real, 1.0);
  }

  /** The interval is the inversion of the score test: it holds exactly the rates the test accepts. */
  lemma InvertsScoreTest(passes: nat, n: nat, z: real, root: real, q: real)
    requires 0 < n && passes <= n && z > 0.0 && IsRoot(root, Radicand(passes, n, z))
    ensures var (lo, hi) := Interval(passes, n, z, root);
      lo <= q <= hi <==> ScoreAccepts(passes, n, z, q)
  {
    WithinUnit(passes, n, z, root);
    UnclampedInverts(passes, n, z, root, q);
  }

  /** Counting failures instead of passes mirrors the interval. */
  lemma MirrorsFailures(passes: nat, n: nat, z: real, root: real, root': real)
    requires 0 < n && passes <= n && z > 0.0
    requires IsRoot(root, Radicand(passes, n, z)) && IsRoot(root', Radicand(n - passes, n, z))
    ensures var (lo, hi) := Interval(passes, n, z, root);
      Interval(n - passes, n, z, root') == (1.0 - hi, 1.0 - lo)
  {
    WithinUnit(passes, n, z, root);
    WithinUnit(n - passes, n, z, root');
    UnclampedMirror(passes, n, z, root, root');
  }

  lemma UnclampedMirror(passes: nat, n: nat, z: real, root: real, root': real)
    requires 0 < n && passes <= n && z > 0.0
    requires IsRoot(root, Radicand(passes, n, z)) && IsRoot(root', Radicand(n - passes, n, z))
    ensures Low(n - passes, n, z, root') == 1.0 - High(passes, n, z, root)
    ensures High(n - passes, n, z, root') == 1.0 - Low(passes, n, z, root)
  {
    SameMargin(passes, n, z, root, root');
    NonNegative(n, z);
    MirroredEnds(Weight(n, z), Rate(passes, n), z * root, Rate(n - passes, n), z * root');
    Ends(passes, n, z, root);
    Ends(n - passes, n, z, root');
  }

  lemma MirroredEnds(a: real, p: real, m: real, p': real, m': real)
    requires a >= 0.0 && p' == 1.0 - p && m' == m
    ensures (p' + a / 2.0 - m') / (1.0 + a) == 1.0 - (p + a / 2.0 + m) / (1.0 + a)
    ensures (p' + a / 2.0 + m') / (1.0 + a) == 1.0 - (p + a / 2.0 - m) / (1.0 + a)
  {
    Complement(p + a / 2.0 + m, 1.0 + a);
    Complement(p + a / 2.0 - m, 1.0 + a);
  }

  lemma SameMargin(passes: nat, n: nat, z: real, root: real, root': real)
    requires 0 < n && passes <= n && z > 0.0
    requires IsRoot(root, Radicand(passes, n, z)) && IsRoot(root', Radicand(n - passes, n, z))
    ensures Rate(n - passes, n) == 1.0 - Rate(passes, n) && z * root == z * root'
  {
    Complement(passes as real, n as real);
    MarginSquared(passes, n, z, root);
    MarginSquared(n - passes, n, z, root');
    SpreadMirror(Weight(n, z), Rate(passes, n));
    SameSquare(z * root, z * root');
  }

  lemma Complement(y: real, d: real)
    requires d > 0.0
    ensures (d - y) / d == 1.0 - y / d
  {
    var r := y / d;
    assert r * d == y;
    assert (1.0 - r) * d == d - y;
    Quotient(d - y, d, 1.0 - r);
  }

  lemma RatesOrdered(k: nat, l: nat, n: nat)
    requires 0 < n && k <= l
    ensures Rate(k, n) <= Rate(l, n)
  {
    Divide(k as real, n as real, Rate(l, n));
    Divide(l as real, n as real, 0.0);
  }

  /** A rate the test accepts for one count it accepts for any count whose rate is nearer. */
  lemma NearerAccepts(k: nat, l: nat, n: nat, z: real, q: real)
    requires n > 0 && ScoreAccepts(l, n, z, q)
    requires Rate(l, n) <= Rate(k, n) <= q || q <= Rate(k, n) <= Rate(l, n)
    ensures ScoreAccepts(k, n, z, q)
  {
    NearerBound(Rate(k, n), Rate(l, n), q, ScoreBound(n, z, q));
  }

  lemma NearerBound(p: real, r: real, q: real, bound: real)
    requires Deviation(r, q) <= bound
    requires r <= p <= q || q <= p <= r
    ensures Deviation(p, q) <= bound
  {
    NearerSquare(p - q, r - q);
  }

  lemma NearerSquare(x: real, y: real)
    requires y <= x <= 0.0 || 0.0 <= x <= y
    ensures x * x <= y * y
  {
    var m := if y >= 0.0 then y else -y;
    assert m * m == y * y;
    Square(x, m);
  }

  lemma LowMonotone(k: nat, l: nat, n: nat, z: real, rootK: real, rootL: real)
    requires 0 < n && k <= l <= n && z > 0.0
    requires IsRoot(rootK, Radicand(k, n, z)) && IsRoot(rootL, Radicand(l, n, z))
    ensures Low(k, n, z, rootK) <= Low(l, n, z, rootL)
  {
    var q := Low(l, n, z, rootL);
    RatesOrdered(k, l, n);
    RateInside(l, n, z, rootL);
    RateInside(k, n, z, rootK);
    if q < Low(k, n, z, rootK) {
      UnclampedInverts(l, n, z, rootL, q);
      NearerAccepts(k, l, n, z, q);
      UnclampedInverts(k, n, z, rootK, q);
    }
  }

  lemma HighMonotone(k: nat, l: nat, n: nat, z: real, rootK: real, rootL: real)
    requires 0 < n && k <= l <= n && z > 0.0
    requires IsRoot(rootK, Radicand(k, n, z)) && IsRoot(rootL, Radicand(l, n, z))
    ensures High(k, n, z, rootK) <= High(l, n, z, rootL)
  {
    var q := High(k, n, z, rootK);
    RatesOrdered(k, l, n);
    RateInside(l, n, z, rootL);
    RateInside(k, n, z, rootK);
    if High(l, n, z, rootL) < q {
      UnclampedInverts(k, n, z, rootK, q);
      NearerAccepts(l, k, n, z, q);
      UnclampedInverts(l, n, z, rootL, q);
    }
  }

  /** More passes out of the same number of runs never lower either end. */
  lemma Monotone(k: nat, l: nat, n: nat, z: real, rootK: real, rootL: real)
    requires 0 < n && k <= l <= n && z > 0.0
    requires IsRoot(rootK, Radicand(k, n, z)) && IsRoot(rootL, Radicand(l, n, z))
    ensures Interval(k, n, z, rootK).0 <= Interval(l, n, z, rootL).0
    ensures Interval(k, n, z, rootK).1 <= Interval(l, n, z, rootL).1
  {
    LowMonotone(k, l, n, z, rootK, rootL);
    HighMonotone(k, l, n, z, rootK, rootL);
  }
}
