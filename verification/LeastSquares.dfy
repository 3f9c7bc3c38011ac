// The algebra behind the forecast's slope: inner products, and the line that misses
// a series by least. Multiplication is a parameter here, so that only the small
// algebra lemmas look inside it.
module LeastSquares {
  type Vec = seq<real>

  type Mul = (real, real) -> real

  ghost predicate Seen(x: real, y: real) { true }

  /** mul is multiplication, looked up only at products that were asked about. */
  ghost predicate Multiplies(mul: Mul) {
    && (forall x, y {:trigger Seen(x, y)} :: Seen(x, y) ==> mul(x, y) == x * y)
    && (forall x, y {:trigger Seen(x, y)} :: Seen(x, y) && x == y ==> mul(x, y) > 0.0 || (x == 0.0 && mul(x, y) == 0.0))
  }

  // ---- inner products ----

  function Dot(mul: Mul, a: Vec, b: Vec): real
    requires |a| == |b|
  {
    if a == [] then 0.0 else Dot(mul, a[..|a| - 1], b[..|b| - 1]) + mul(a[|a| - 1], b[|b| - 1])
  }

  /** c is a and k times b. */
  ghost predicate IsSum(mul: Mul, c: Vec, a: Vec, k: real, b: Vec) {
    |a| == |b| == |c| && forall i | 0 <= i < |c| :: c[i] == a[i] + mul(k, b[i])
  }

  lemma LinearProducts(da: real, db: real, a: real, b: real, k: real, y: real)
    ensures (a + k * b) * y == a * y + k * (b * y)
    ensures k * (db + b * y) == k * db + k * (b * y)
  {
    assert (k * b) * y == k * (b * y);
  }

  lemma LinearStep(mul: Mul, da: real, db: real, dc: real, a: real, b: real, c: real, k: real, y: real)
    requires Multiplies(mul) && dc == da + mul(k, db) && c == a + mul(k, b)
    ensures dc + mul(c, y) == (da + mul(a, y)) + mul(k, db + mul(b, y))
  {
    assert Seen(k, db) && Seen(k, b) && Seen(c, y) && Seen(a, y) && Seen(b, y) && Seen(k, db + b * y);
    LinearProducts(da, db, a, b, k, y);
  }

  lemma {:induction false} DotLinear(mul: Mul, c: Vec, a: Vec, k: real, b: Vec, y: Vec)
    requires Multiplies(mul) && IsSum(mul, c, a, k, b) && |y| == |c|
    ensures Dot(mul, c, y) == Dot(mul, a, y) + mul(k, Dot(mul, b, y))
  {
    if c == [] {
      assert Seen(k, 0.0);
    } else {
      var n := |c| - 1;
      DotLinear(mul, c[..n], a[..n], k, b[..n], y[..n]);
      LinearStep(mul, Dot(mul, a[..n], y[..n]), Dot(mul, b[..n], y[..n]), Dot(mul, c[..n], y[..n]), a[n], b[n], c[n], k,
        y[n]);
    }
  }

  lemma {:induction false} DotSwaps(mul: Mul, a: Vec, b: Vec)
    requires Multiplies(mul) && |a| == |b|
    ensures Dot(mul, a, b) == Dot(mul, b, a)
  {
    if a != [] {
      var n := |a| - 1;
      DotSwaps(mul, a[..n], b[..n]);
      assert Seen(a[n], b[n]) && Seen(b[n], a[n]);
    }
  }

  lemma Square(mul: Mul, x: real)
    requires Multiplies(mul)
    ensures mul(x, x) >= 0.0 && (mul(x, x) == 0.0 ==> x == 0.0)
  {
    assert Seen(x, x);
  }

  lemma {:induction false} DotPositive(mul: Mul, a: Vec)
    requires Multiplies(mul)
    ensures Dot(mul, a, a) >= 0.0
    ensures Dot(mul, a, a) == 0.0 ==> forall i | 0 <= i < |a| :: a[i] == 0.0
  {
    if a != [] {
      var n := |a| - 1;
      DotPositive(mul, a[..n]);
      Square(mul, a[n]);
      assert a == a[..n] + [a[n]];
    }
  }

  lemma {:induction false} DotZero(mul: Mul, a: Vec, b: Vec)
    requires Multiplies(mul) && |a| == |b| && forall i | 0 <= i < |a| :: a[i] == 0.0
    ensures Dot(mul, a, b) == 0.0
  {
    if a != [] {
      var n := |a| - 1;
      DotZero(mul, a[..n], b[..n]);
      assert Seen(0.0, b[n]);
    }
  }

  function Level(n: nat, x: real): Vec { seq(n, i => x) }

  function Ones(n: nat): Vec { Level(n, 1.0) }

  lemma {:induction false} DotOnes(mul: Mul, n: nat)
    requires Multiplies(mul)
    ensures Dot(mul, Ones(n), Ones(n)) == n as real
  {
    if n > 0 {
      DotOnes(mul, n - 1);
      assert Ones(n)[..n - 1] == Ones(n - 1);
      assert Seen(1.0, 1.0);
    }
  }

  /** A constant series against another is the constant times the other's sum. */
  lemma DotLevel(mul: Mul, n: nat, x: real, y: Vec)
    requires Multiplies(mul) && |y| == n
    ensures Dot(mul, Level(n, x), y) == mul(x, Dot(mul, y, Ones(n)))
  {
    var zero := Level(n, 0.0);
    forall i | 0 <= i < n ensures Level(n, x)[i] == zero[i] + mul(x, Ones(n)[i]) {
      assert Seen(x, 1.0);
    }
    DotLinear(mul, Level(n, x), zero, x, Ones(n), y);
    DotZero(mul, zero, y);
    DotSwaps(mul, Ones(n), y);
  }

  // ---- the denominator ----

  function Sum(mul: Mul, a: Vec): real { Dot(mul, a, Ones(|a|)) }

  function Den(mul: Mul, t: Vec): real {
    mul(|t| as real, Dot(mul, t, t)) - mul(Sum(mul, t), Sum(mul, t))
  }

  function Num(mul: Mul, t: Vec, f: Vec): real
    requires |t| == |f|
  {
    mul(|t| as real, Dot(mul, t, f)) - mul(Sum(mul, t), Sum(mul, f))
  }

  /** The times less a level. */
  function Less(t: Vec, m: real): Vec { seq(|t|, i requires 0 <= i < |t| => t[i] - m) }

  lemma LessIs(mul: Mul, t: Vec, m: real)
    requires Multiplies(mul)
    ensures IsSum(mul, Less(t, m), t, -m, Ones(|t|))
  {
    forall i | 0 <= i < |t| ensures Less(t, m)[i] == t[i] + mul(-m, Ones(|t|)[i]) {
      assert Seen(-m, 1.0);
    }
  }

  lemma LessDot(mul: Mul, t: Vec, m: real, y: Vec)
    requires Multiplies(mul) && |y| == |t|
    ensures Dot(mul, Less(t, m), y) == Dot(mul, t, y) + mul(-m, Sum(mul, y))
  {
    LessIs(mul, t, m);
    DotLinear(mul, Less(t, m), t, -m, Ones(|t|), y);
    DotSwaps(mul, Ones(|t|), y);
  }

  lemma CentredProducts(n: real, s: real, q: real, m: real)
    requires n > 0.0 && m == s / n
    ensures s + (-m) * n == 0.0 && n * (q + (-m) * s) == n * q - s * s && (-m) * 0.0 == 0.0
  {
    assert m * n == s;
    assert n * ((-m) * s) == -((m * n) * s);
  }

  /** The denominator is n times the squared distances from the mean. */
  lemma DenIsSquares(mul: Mul, t: Vec)
    requires Multiplies(mul) && t != []
    ensures var c := Less(t, Sum(mul, t) / |t| as real); Den(mul, t) == mul(|t| as real, Dot(mul, c, c))
  {
    var n, s, q := |t| as real, Sum(mul, t), Dot(mul, t, t);
    var m := s / n;
    var c := Less(t, m);
    LessDot(mul, t, m, t);
    LessDot(mul, t, m, Ones(|t|));
    LessDot(mul, t, m, c);
    DotSwaps(mul, t, c);
    DotOnes(mul, |t|);
    CentredAlgebra(mul, n, s, q, m, Dot(mul, c, t), Sum(mul, c), Dot(mul, c, c));
  }

  lemma CentredAlgebra(mul: Mul, n: real, s: real, q: real, m: real, ct: real, c1: real, cc: real)
    requires Multiplies(mul) && n > 0.0 && m == s / n
    requires ct == q + mul(-m, s) && c1 == s + mul(-m, n) && cc == ct + mul(-m, c1)
    ensures mul(n, q) - mul(s, s) == mul(n, cc)
  {
    CentredProducts(n, s, q, m);
    assert Seen(-m, s) && Seen(-m, n) && Seen(-m, c1) && Seen(n, q) && Seen(s, s) && Seen(n, cc);
  }

  /** The denominator is never negative, and zero exactly when all times are equal. */
  lemma DenPositive(mul: Mul, t: Vec)
    requires Multiplies(mul) && t != []
    ensures Den(mul, t) >= 0.0
    ensures Den(mul, t) == 0.0 <==> forall i | 0 <= i < |t| :: t[i] == t[0]
  {
    var n, m := |t| as real, Sum(mul, t) / |t| as real;
    var c := Less(t, m);
    DenIsSquares(mul, t);
    DotPositive(mul, c);
    Scaled(mul, n, Dot(mul, c, c));
    if Den(mul, t) == 0.0 {
      assert forall i | 0 <= i < |t| :: c[i] == t[i] - m;
    }
    if forall i | 0 <= i < |t| :: t[i] == t[0] {
      assert t == Level(|t|, t[0]);
      DotLevel(mul, |t|, t[0], Ones(|t|));
      DotOnes(mul, |t|);
      Averaged(mul, t[0], n);
      assert forall i | 0 <= i < |t| :: c[i] == t[i] - m;
      DotZero(mul, c, c);
    }
  }

  lemma Scaled(mul: Mul, n: real, x: real)
    requires Multiplies(mul) && n > 0.0 && x >= 0.0
    ensures mul(n, x) >= 0.0 && (mul(n, x) == 0.0 <==> x == 0.0)
  {
    assert Seen(n, x);
  }

  lemma Averaged(mul: Mul, x: real, n: real)
    requires Multiplies(mul) && n > 0.0
    ensures mul(x, n) / n == x
  {
    assert Seen(x, n);
  }

  // ---- the slope ----

  ghost predicate IsSlope(mul: Mul, t: Vec, f: Vec, b: real) {
    |t| == |f| > 0 && Den(mul, t) != 0.0 && mul(b, Den(mul, t)) == Num(mul, t, f)
  }

  /** The quotient a loop computes from its four sums. */
  lemma QuotientIsSlope(mul: Mul, t: Vec, f: Vec, n: real, sumT: real, sumF: real, sumTT: real, sumTF: real, den: real,
                        b: real)
    requires Multiplies(mul) && |t| == |f| > 0 && n == |t| as real
    requires sumT == Sum(mul, t) && sumF == Sum(mul, f) && sumTT == Dot(mul, t, t) && sumTF == Dot(mul, t, f)
    requires den == n * sumTT - sumT * sumT && (den != 0.0 ==> b * den == n * sumTF - sumT * sumF)
    ensures Den(mul, t) == den && (den != 0.0 ==> IsSlope(mul, t, f, b))
  {
    QuotientProducts(mul, n, sumT, sumF, sumTT, sumTF, den, b);
  }

  lemma QuotientProducts(mul: Mul, n: real, sumT: real, sumF: real, sumTT: real, sumTF: real, den: real, b: real)
    requires Multiplies(mul)
    ensures mul(n, sumTT) == n * sumTT && mul(sumT, sumT) == sumT * sumT && mul(n, sumTF) == n * sumTF
    ensures mul(sumT, sumF) == sumT * sumF && mul(b, den) == b * den
  {
    assert Seen(n, sumTT) && Seen(sumT, sumT) && Seen(n, sumTF) && Seen(sumT, sumF) && Seen(b, den);
  }

  lemma OnALine(mul: Mul, t: Vec, f: Vec, a: real, rate: real)
    requires Multiplies(mul) && |t| == |f| && forall i | 0 <= i < |t| :: f[i] == a + rate * t[i]
    ensures IsSum(mul, f, Level(|t|, a), rate, t)
  {
    forall i | 0 <= i < |t| ensures f[i] == Level(|t|, a)[i] + mul(rate, t[i]) {
      assert Seen(rate, t[i]);
    }
  }

  /** How far each sample is from the line a + b t. */
  ghost predicate AreMisses(mul: Mul, t: Vec, f: Vec, a: real, b: real, miss: Vec) {
    |t| == |f| && IsSum(mul, miss, Less(f, a), -b, t)
  }

  /** The line of that slope through the mean. */
  function Intercept(mul: Mul, t: Vec, f: Vec, b: real): real
    requires |t| == |f| > 0
  {
    (Sum(mul, f) - mul(b, Sum(mul, t))) / |t| as real
  }

  lemma {:induction false} MissesDot(mul: Mul, t: Vec, f: Vec, a: real, b: real, miss: Vec, y: Vec)
    requires Multiplies(mul) && AreMisses(mul, t, f, a, b, miss) && |y| == |t|
    ensures Dot(mul, miss, y) == Dot(mul, f, y) + mul(-a, Sum(mul, y)) + mul(-b, Dot(mul, t, y))
  {
    DotLinear(mul, miss, Less(f, a), -b, t, y);
    LessDot(mul, f, a, y);
  }

  lemma NormalProducts(m: real, s: real, f: real, q: real, p: real, a: real, b: real, r: real)
    requires m > 0.0 && a == (f - b * s) / m && b * (m * q - s * s) == m * p - s * f && r == p - a * s - b * q
    ensures f - a * m - b * s == 0.0 && r == 0.0
  {
    assert a * m == f - b * s;
    assert m * r == m * p - (a * m) * s - b * (m * q);
    assert (f - b * s) * s == f * s - b * (s * s);
    assert b * (m * q - s * s) == b * (m * q) - b * (s * s);
    assert m * r == 0.0;
  }

  lemma NormalAlgebra(mul: Mul, m: real, s: real, f: real, q: real, p: real, a: real, b: real, r: real, r1: real)
    requires Multiplies(mul) && m > 0.0 && a == (f - mul(b, s)) / m
    requires mul(b, mul(m, q) - mul(s, s)) == mul(m, p) - mul(s, f)
    requires r == p + mul(-a, s) + mul(-b, q) && r1 == f + mul(-a, m) + mul(-b, s)
    ensures r == 0.0 && r1 == 0.0
  {
    assert Seen(b, s) && Seen(m, q) && Seen(s, s) && Seen(m, p) && Seen(s, f) && Seen(b, m * q - s * s);
    assert Seen(-a, s) && Seen(-b, q) && Seen(-a, m) && Seen(-b, s);
    assert (-a) * s == -(a * s) && (-b) * q == -(b * q) && (-a) * m == -(a * m) && (-b) * s == -(b * s);
    NormalProducts(m, s, f, q, p, a, b, r);
  }

  /** The misses of the fitted line balance, and balance over time. */
  lemma Normal(mul: Mul, t: Vec, f: Vec, b: real, miss: Vec)
    requires Multiplies(mul) && IsSlope(mul, t, f, b) && AreMisses(mul, t, f, Intercept(mul, t, f, b), b, miss)
    ensures Sum(mul, miss) == 0.0 && Dot(mul, miss, t) == 0.0
  {
    var one, a := Ones(|t|), Intercept(mul, t, f, b);
    MissesDot(mul, t, f, a, b, miss, one);
    MissesDot(mul, t, f, a, b, miss, t);
    DotOnes(mul, |t|);
    DotSwaps(mul, f, t);
    NormalAlgebra(mul, |t| as real, Sum(mul, t), Sum(mul, f), Dot(mul, t, t), Dot(mul, t, f), a, b, Dot(mul, miss, t),
      Sum(mul, miss));
  }

  /** No line misses the series by less than the one of that slope through the mean. */
  lemma SlopeIsLeast(mul: Mul, t: Vec, f: Vec, b: real, best: Vec, a1: real, b1: real, other: Vec)
    requires Multiplies(mul) && IsSlope(mul, t, f, b)
    requires AreMisses(mul, t, f, Intercept(mul, t, f, b), b, best) && AreMisses(mul, t, f, a1, b1, other)
    ensures Dot(mul, best, best) <= Dot(mul, other, other)
  {
    var a := Intercept(mul, t, f, b);
    var apart := seq(|t|, i requires 0 <= i < |t| => best[i] - other[i]);
    Normal(mul, t, f, b, best);
    ApartIs(mul, t, f, a, b, best, a1, b1, other, apart);
    ApartDot(mul, t, a1 - a, b1 - b, apart, best);
    OtherDot(mul, best, other, apart);
    DotPositive(mul, apart);
  }

  lemma OtherDot(mul: Mul, best: Vec, other: Vec, apart: Vec)
    requires Multiplies(mul) && |best| == |other| == |apart|
    requires forall i | 0 <= i < |best| :: apart[i] == best[i] - other[i]
    requires Dot(mul, apart, best) == 0.0
    ensures Dot(mul, other, other) == Dot(mul, best, best) + Dot(mul, apart, apart)
  {
    forall i | 0 <= i < |best| ensures other[i] == best[i] + mul(-1.0, apart[i]) {
      assert Seen(-1.0, apart[i]);
    }
    DotLinear(mul, other, best, -1.0, apart, other);
    DotLinear(mul, other, best, -1.0, apart, best);
    DotLinear(mul, other, best, -1.0, apart, apart);
    DotSwaps(mul, best, other);
    DotSwaps(mul, apart, other);
    DotSwaps(mul, apart, best);
    assert Seen(-1.0, Dot(mul, apart, other)) && Seen(-1.0, Dot(mul, apart, best))
      && Seen(-1.0, Dot(mul, apart, apart));
  }

  lemma ApartAt(mul: Mul, f: real, a: real, b: real, a1: real, b1: real, t: real)
    requires Multiplies(mul)
    ensures ((f - a) + mul(-b, t)) - ((f - a1) + mul(-b1, t)) == (a1 - a) + mul(b1 - b, t)
  {
    assert Seen(-b, t) && Seen(-b1, t) && Seen(b1 - b, t);
    assert (b1 - b) * t == b1 * t - b * t;
  }

  lemma ApartIs(mul: Mul, t: Vec, f: Vec, a: real, b: real, best: Vec, a1: real, b1: real, other: Vec, apart: Vec)
    requires Multiplies(mul) && AreMisses(mul, t, f, a, b, best) && AreMisses(mul, t, f, a1, b1, other)
    requires |apart| == |t| && forall i | 0 <= i < |t| :: apart[i] == best[i] - other[i]
    ensures IsSum(mul, apart, Level(|t|, a1 - a), b1 - b, t)
  {
    forall i | 0 <= i < |t| ensures apart[i] == Level(|t|, a1 - a)[i] + mul(b1 - b, t[i]) {
      ApartAt(mul, f[i], a, b, a1, b1, t[i]);
    }
  }

  lemma ApartDot(mul: Mul, t: Vec, x: real, y: real, apart: Vec, best: Vec)
    requires Multiplies(mul) && |best| == |t| && IsSum(mul, apart, Level(|t|, x), y, t)
    requires Sum(mul, best) == 0.0 && Dot(mul, best, t) == 0.0
    ensures Dot(mul, apart, best) == 0.0
  {
    DotLinear(mul, apart, Level(|t|, x), y, t, best);
    DotLevel(mul, |t|, x, best);
    DotSwaps(mul, t, best);
    assert Seen(x, 0.0) && Seen(y, 0.0);
  }

  /** On a straight line the slope is the line's. */
  lemma ExactOnALine(mul: Mul, t: Vec, f: Vec, b: real, a1: real, b1: real)
    requires Multiplies(mul) && IsSlope(mul, t, f, b) && IsSum(mul, f, Level(|t|, a1), b1, t)
    ensures b == b1
  {
    DotLinear(mul, f, Level(|t|, a1), b1, t, t);
    DotLinear(mul, f, Level(|t|, a1), b1, t, Ones(|t|));
    DotLevel(mul, |t|, a1, t);
    DotLevel(mul, |t|, a1, Ones(|t|));
    DotOnes(mul, |t|);
    DotSwaps(mul, f, t);
    LineAlgebra(mul, |t| as real, Sum(mul, t), Dot(mul, t, t), Dot(mul, t, f), Sum(mul, f), a1, b1, b, Den(mul, t));
  }

  lemma LineProducts(n: real, s: real, q: real, p: real, f: real, a1: real, b1: real, b: real, den: real)
    requires p == a1 * s + b1 * q && f == a1 * n + b1 * s && den == n * q - s * s && den != 0.0
      && b * den == n * p - s * f
    ensures b == b1
  {
    assert n * p == n * (a1 * s) + n * (b1 * q);
    assert s * f == s * (a1 * n) + s * (b1 * s);
    assert n * (a1 * s) == s * (a1 * n);
    assert b1 * den == n * (b1 * q) - s * (b1 * s);
    assert (b - b1) * den == 0.0;
  }

  lemma LineAlgebra(mul: Mul, n: real, s: real, q: real, p: real, f: real, a1: real, b1: real, b: real, den: real)
    requires Multiplies(mul) && p == mul(a1, s) + mul(b1, q) && f == mul(a1, n) + mul(b1, s)
    requires den == mul(n, q) - mul(s, s) && den != 0.0 && mul(b, den) == mul(n, p) - mul(s, f)
    ensures b == b1
  {
    assert Seen(a1, s) && Seen(b1, q) && Seen(a1, n) && Seen(b1, s) && Seen(n, q) && Seen(s, s) && Seen(b, den)
      && Seen(n, p) && Seen(s, f);
    LineProducts(n, s, q, p, f, a1, b1, b, den);
  }
}
