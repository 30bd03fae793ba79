/** The Wilson score interval of the benchmark report, over the reals. */
module WilsonInterval {

  /** `root` is the square root the formula takes. */
  predicate IsRoot(root: real, k: nat, n: nat, z: real)
    requires n > 0
  {
    var p := k as real / n as real;
    root >= 0.0 && root * root == p * (1.0 - p) / n as real + z * z / (4.0 * n as real * n as real)
  }

  function Denominator(n: nat, z: real): (d: real)
    requires n > 0
    ensures d >= 1.0
  {
    assert z * z >= 0.0;
    DivideOrderAbove(z * z, 0.0, n as real);
    1.0 + z * z / n as real
  }

  function Center(k: nat, n: nat, z: real): real
    requires n > 0
  {
    var p := k as real / n as real;
    (p + z * z / (2.0 * n as real)) / Denominator(n, z)
  }

  function Margin(root: real, n: nat, z: real): real
    requires n > 0
  {
    z * root / Denominator(n, z)
  }

  function Interval(k: nat, n: nat, z: real, root: real): (real, real) {
    if n == 0 then (0.0, 1.0)
    else
      var lower, upper := Center(k, n, z) - Margin(root, n, z), Center(k, n, z) + Margin(root, n, z);
      (if lower < 0.0 then 0.0 else lower, if upper > 1.0 then 1.0 else upper)
  }

  lemma SquareOrder(x: real, y: real)
    requires y >= 0.0 && x * x <= y * y
    ensures x <= y
  {
    if x > y {
      assert (x - y) * (x + y) == x * x - y * y;
      Positive(x - y, x + y);
    }
  }

  lemma SquaresOrder(x: real, y: real)
    requires y >= 0.0 && x * x <= y * y
    ensures x <= y && -x <= y
  {
    SquareOrder(x, y);
    assert (-x) * (-x) == x * x;
    SquareOrder(-x, y);
  }

  lemma Positive(a: real, b: real)
    requires a > 0.0 && b > 0.0
    ensures a * b > 0.0
  {
  }

  lemma NotNegative(a: real, b: real)
    requires a >= 0.0 && b >= 0.0
    ensures a * b >= 0.0
  {
  }

  lemma OffCenter(p: real, a: real, t: real)
    requires t == a / 2.0 - p * a
    ensures t * t == a * a / 4.0 - a * a * (p * (1.0 - p))
  {
    var h := 0.5 - p;
    assert t == a * h;
    assert h * h == 0.25 - p * (1.0 - p);
    assert t * t == a * a * (h * h);
  }

  /** With a = z^2 / n, the squared margin over the denominator is a p (1 - p) + a^2 / 4. */
  lemma Bounds(p: real, a: real, m: real)
    requires 0.0 <= p <= 1.0 && a >= 0.0 && m >= 0.0
    requires m * m == a * (p * (1.0 - p)) + a * a / 4.0
    ensures m <= p + a / 2.0
    ensures m <= 1.0 - p + a / 2.0
    ensures p + a / 2.0 - m <= p * (1.0 + a) <= p + a / 2.0 + m
  {
    var q := 1.0 - p;
    var pp, pq, aa := p * p, p * q, a * a;
    NotNegative(p, q);
    assert pp >= 0.0 && aa >= 0.0;
    var c := p + a / 2.0;
    assert c * c == pp + a * p + aa / 4.0;
    assert a * p == a * pp + a * pq by { assert p == pp + pq; }
    NotNegative(a, pp);
    SquaresOrder(m, c);
    var d := q + a / 2.0;
    var qq := q * q;
    assert d * d == qq + a * q + aa / 4.0;
    assert a * q == a * qq + a * pq by { assert q == qq + pq; }
    NotNegative(a, qq);
    SquaresOrder(m, d);
    var t := a / 2.0 - p * a;
    OffCenter(p, a, t);
    NotNegative(aa, pq);
    NotNegative(a, pq);
    SquaresOrder(t, m);
    assert p * (1.0 + a) == p + p * a;
  }

  lemma MarginSquared(k: nat, n: nat, z: real, root: real)
    requires n > 0 && IsRoot(root, k, n, z)
    ensures var p, a, m := k as real / n as real, z * z / n as real, z * root;
      m * m == a * (p * (1.0 - p)) + a * a / 4.0
  {
    var r := n as real;
    var p, zz := k as real / r, z * z;
    var v := p * (1.0 - p);
    assert (z * root) * (z * root) == zz * (root * root);
    assert zz * (v / r + zz / (4.0 * r * r)) == zz * (v / r) + zz * (zz / (4.0 * r * r));
    Divisions(zz, v, r);
  }

  lemma Divisions(x: real, v: real, r: real)
    requires r > 0.0
    ensures x * (v / r) == x / r * v
    ensures x * (x / (4.0 * r * r)) == x / r * (x / r) / 4.0
  {
    var i := 1.0 / r;
    assert v / r == v * i && x / r == x * i;
    assert r * i == 1.0;
    var j := x / (4.0 * r * r);
    assert j * (4.0 * r * r) == x;
    assert j == x * (i * i) / 4.0 by {
      var w := x * (i * i) / 4.0;
      assert w * (4.0 * r * r) == x * ((r * i) * (r * i));
      Cancel(j, w, 4.0 * r * r);
    }
    assert x * (x * (i * i)) == (x * i) * (x * i);
  }

  lemma Cancel(a: real, b: real, c: real)
    requires c != 0.0 && a * c == b * c
    ensures a == b
  {
    assert (a - b) * c == 0.0;
  }

  lemma DivideSum(c: real, m: real, d: real)
    requires d > 0.0
    ensures c / d - m / d == (c - m) / d && c / d + m / d == (c + m) / d
  {
    var x, y := c / d, m / d;
    assert x * d == c && y * d == m;
    assert (x - y) * d == c - m && (x + y) * d == c + m;
    Cancel(x - y, (c - m) / d, d);
    Cancel(x + y, (c + m) / d, d);
  }

  lemma DivideOrder(x: real, y: real, d: real)
    requires d > 0.0 && x <= y * d
    ensures x / d <= y
  {
    var q := x / d;
    assert q * d == x;
    if q > y {
      assert (q - y) * d > 0.0;
    }
  }

  lemma DivideOrderAbove(x: real, y: real, d: real)
    requires d > 0.0 && y * d <= x
    ensures y <= x / d
  {
    var q := x / d;
    assert q * d == x;
    if y > q {
      assert (y - q) * d > 0.0;
    }
  }

  /** The observed rate and the scaled square of z, and the two halves of the interval in terms of them. */
  lemma Halves(k: nat, n: nat, z: real, root: real)
    requires 0 < n
    ensures var p, a := k as real / n as real, z * z / n as real;
      && 1.0 + a > 0.0
      && Center(k, n, z) == (p + a / 2.0) / (1.0 + a)
      && Margin(root, n, z) == z * root / (1.0 + a)
  {
    var r := n as real;
    var a := z * z / r;
    assert z * z >= 0.0;
    DivideOrderAbove(z * z, 0.0, r);
    assert z * z / (2.0 * r) == a / 2.0 by {
      assert z * z / (2.0 * r) * (2.0 * r) == z * z && a * r == z * z;
      Cancel(z * z / (2.0 * r), a / 2.0, 2.0 * r);
    }
  }

  lemma DividedBounds(p: real, a: real, m: real)
    requires 0.0 <= p <= 1.0 && a >= 0.0 && m >= 0.0
    requires m * m == a * (p * (1.0 - p)) + a * a / 4.0
    ensures var c, d := p + a / 2.0, 1.0 + a;
      0.0 <= c / d - m / d <= p <= c / d + m / d <= 1.0
  {
    Bounds(p, a, m);
    var c, d := p + a / 2.0, 1.0 + a;
    DivideSum(c, m, d);
    DivideOrderAbove(c - m, 0.0, d);
    DivideOrder(c - m, p, d);
    DivideOrderAbove(c + m, p, d);
    DivideOrder(c + m, 1.0, d);
  }

  /** The bounds before clamping already lie in [0, 1], around the observed rate: the clamps change nothing. */
  lemma ClampsAreNoOps(k: nat, n: nat, z: real, root: real)
    requires 0 < n && k <= n && z >= 0.0 && IsRoot(root, k, n, z)
    ensures var lower, upper := Center(k, n, z) - Margin(root, n, z), Center(k, n, z) + Margin(root, n, z);
      && 0.0 <= lower <= k as real / n as real <= upper <= 1.0
      && Interval(k, n, z, root) == (lower, upper)
  {
    hide Center, Margin;
    var r := n as real;
    var p, a, m := k as real / r, z * z / r, z * root;
    DivideOrderAbove(k as real, 0.0, r);
    DivideOrder(k as real, 1.0, r);
    assert z * z >= 0.0;
    DivideOrderAbove(z * z, 0.0, r);
    MarginSquared(k, n, z, root);
    assert m >= 0.0 by { NotNegative(z, root); }
    hide IsRoot;
    DividedBounds(p, a, m);
    Halves(k, n, z, root);
  }

  lemma SquareWithin(y: real, m: real)
    requires m >= 0.0
    ensures y * y <= m * m <==> -m <= y <= m
  {
    if y * y <= m * m {
      SquaresOrder(y, m);
    }
    if -m <= y <= m {
      NotNegative(m - y, m + y);
      assert (m - y) * (m + y) == m * m - y * y;
    }
  }

  /** Completing the square: the score test at x, times the denominator. */
  lemma CompletedSquare(p: real, a: real, m: real, x: real)
    requires m * m == a * (p * (1.0 - p)) + a * a / 4.0
    ensures var c, d := p + a / 2.0, 1.0 + a;
      d * ((p - x) * (p - x) - a * (x * (1.0 - x))) == (d * x - c) * (d * x - c) - m * m
  {
    var c, d := p + a / 2.0, 1.0 + a;
    var pp, px, xx, aa := p * p, p * x, x * x, a * a;
    assert a * (p * (1.0 - p)) == a * p - a * pp;
    assert (p - x) * (p - x) == pp - 2.0 * px + xx;
    assert a * (x * (1.0 - x)) == a * x - a * xx;
    var left := pp - 2.0 * px + xx - a * x + a * xx;
    assert left == pp - 2.0 * px - a * x + d * xx;
    assert c * c == pp + a * p + aa / 4.0;
    assert c * x == px + a * x / 2.0;
    assert left == pp - 2.0 * (c * x) + d * xx;
    assert (d * x) * (d * x) == d * (d * xx) && (d * x) * c == d * (c * x);
    assert d * left == d * pp - 2.0 * (d * (c * x)) + d * (d * xx);
    assert d * pp == pp + a * pp;
    assert (d * x - c) * (d * x - c) == (d * x) * (d * x) - 2.0 * ((d * x) * c) + c * c;
  }

  lemma SameSign(d: real, u: real)
    requires d > 0.0
    ensures d * u <= 0.0 <==> u <= 0.0
  {
    if u > 0.0 { Positive(d, u); }
    if u <= 0.0 { NotNegative(d, -u); }
  }

  lemma Sides(c: real, m: real, d: real, x: real)
    requires d > 0.0
    ensures c / d - m / d <= x <= c / d + m / d <==> -m <= d * x - c <= m
  {
    DivideSum(c, m, d);
    var low, high := (c - m) / d, (c + m) / d;
    assert low * d == c - m && high * d == c + m;
    SameSign(d, low - x);
    SameSign(d, x - high);
    assert d * (low - x) == low * d - d * x;
    assert d * (x - high) == d * x - high * d;
  }

  /** The score test does not reject the rate x: it is at most z of its own standard errors from the observed p. */
  predicate Accepts(p: real, a: real, x: real) {
    (p - x) * (p - x) <= a * (x * (1.0 - x))
  }

  lemma AcceptsIff(p: real, a: real, m: real, x: real)
    requires a >= 0.0 && m >= 0.0 && m * m == a * (p * (1.0 - p)) + a * a / 4.0
    ensures Accepts(p, a, x) <==> -m <= (1.0 + a) * x - (p + a / 2.0) <= m
  {
    CompletedSquare(p, a, m, x);
    SameSign(1.0 + a, (p - x) * (p - x) - a * (x * (1.0 - x)));
    SquareWithin((1.0 + a) * x - (p + a / 2.0), m);
  }

  lemma IntervalParts(k: nat, n: nat, z: real, root: real) returns (p: real, a: real, m: real)
    requires 0 < n && k <= n && z >= 0.0 && IsRoot(root, k, n, z)
    ensures p == k as real / n as real && a == z * z / n as real && a >= 0.0 && m >= 0.0
    ensures m * m == a * (p * (1.0 - p)) + a * a / 4.0
    ensures Interval(k, n, z, root)
         == ((p + a / 2.0) / (1.0 + a) - m / (1.0 + a), (p + a / 2.0) / (1.0 + a) + m / (1.0 + a))
  {
    ClampsAreNoOps(k, n, z, root);
    MarginSquared(k, n, z, root);
    Halves(k, n, z, root);
    hide Center, Margin, Interval;
    p, a, m := k as real / n as real, z * z / n as real, z * root;
    assert m >= 0.0 by { NotNegative(z, root); }
    assert z * z >= 0.0;
    DivideOrderAbove(z * z, 0.0, n as real);
  }

  /** The interval holds exactly the rates that the score test accepts. */
  lemma ScoreTestInverted(k: nat, n: nat, z: real, root: real, x: real)
    requires 0 < n && k <= n && z >= 0.0 && IsRoot(root, k, n, z)
    ensures var interval := Interval(k, n, z, root);
      interval.0 <= x <= interval.1 <==> Accepts(k as real / n as real, z * z / n as real, x)
  {
    hide Interval, Accepts, IsRoot;
    var p, a, m := IntervalParts(k, n, z, root);
    AcceptsIff(p, a, m, x);
    Sides(p + a / 2.0, m, 1.0 + a, x);
  }
}
