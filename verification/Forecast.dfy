// How many days the free space lasts: internal/headroom/forecast.go. Times are
// real seconds, and sums and slopes are reals.
module Forecast {
  import opened LeastSquares

  const GIB := 1073741824

  datatype Sample = Sample(at: real, free: int, swapUsed: int)

  const WINDOW := 259200.0 // 72 hours
  const JUMP := 2 * GIB
  const MIN_SPAN := 10800.0 // 3 hours
  const MIN_SAMPLES := 3
  const SECONDS_A_DAY := 86400.0

  // ---- the window ----

  /** The sample before i is near enough, and free space did not jump up after it. */
  predicate Joins(s: seq<Sample>, i: nat)
    requires 0 < i < |s|
  {
    s[|s| - 1].at - s[i - 1].at <= WINDOW && s[i].free - s[i - 1].free < JUMP
  }

  predicate JumpFree(s: seq<Sample>, start: nat) {
    start < |s| && forall i | start < i < |s| :: Joins(s, i)
  }

  /** Such a stretch is none older than 72 hours, over which free space never rose by 2 GiB
      from one sample to the next. */
  lemma JumpFreeExactly(s: seq<Sample>, start: nat)
    requires start < |s|
    ensures JumpFree(s, start) <==>
      && (forall i | start <= i < |s| - 1 :: s[|s| - 1].at - s[i].at <= 72.0 * 3600.0)
      && (forall i | start < i < |s| :: s[i].free - s[i - 1].free < 0x8000_0000)
  {
    if JumpFree(s, start) {
      forall i | start <= i < |s| - 1 ensures s[|s| - 1].at - s[i].at <= 72.0 * 3600.0 { assert Joins(s, i + 1); }
      forall i | start < i < |s| ensures s[i].free - s[i - 1].free < 0x8000_0000 { assert Joins(s, i); }
    } else {
      var i :| start < i < |s| && !Joins(s, i);
      assert s[|s| - 1].at - s[i - 1].at > 72.0 * 3600.0 || s[i].free - s[i - 1].free >= 0x8000_0000;
    }
  }

  /** The longest suffix without a jump inside the window. */
  method ForecastWindow(s: seq<Sample>) returns (w: seq<Sample>, ghost start: nat)
    ensures s == [] ==> w == []
    ensures s != [] ==> start < |s| && w == s[start..] && JumpFree(s, start) && forall k | JumpFree(s, k) :: start <= k
  {
    start := 0;
    if s == [] {
      return [], 0;
    }
    var from := |s| - 1;
    var i := |s| - 1;
    while i > 0
      invariant 0 <= i == from < |s| && JumpFree(s, from)
    {
      if s[|s| - 1].at - s[i - 1].at > WINDOW || s[i].free - s[i - 1].free >= JUMP {
        assert !Joins(s, i);
        break;
      }
      from := i - 1;
      i := i - 1;
    }
    return s[from..], from;
  }

  // ---- the slope ----

  function Product(): Mul { (x: real, y: real) => x * y }

  lemma ProductMultiplies()
    ensures Multiplies(Product())
  {
    forall x: real, y: real | Seen(x, y) ensures Product()(x, y) == x * y {}
    forall x: real, y: real | Seen(x, y) && x == y
      ensures Product()(x, y) > 0.0 || (x == 0.0 && Product()(x, y) == 0.0)
    {
      ProductSquare(x);
    }
  }

  lemma ProductSquare(x: real)
    ensures Product()(x, x) > 0.0 || (x == 0.0 && Product()(x, x) == 0.0)
  {
    SquareSign(x, Product()(x, x));
  }

  lemma SquareSign(x: real, p: real)
    requires p == x * x
    ensures p > 0.0 || (x == 0.0 && p == 0.0)
  {
    if x > 0.0 {
      BothPositive(x, x, p);
    } else if x < 0.0 {
      BothNegative(x, x, p);
    } else {
      NoneTimes(x, x, p);
    }
  }

  lemma BothPositive(x: real, y: real, p: real)
    requires x > 0.0 && y > 0.0 && p == x * y
    ensures p > 0.0
  {
  }

  lemma BothNegative(x: real, y: real, p: real)
    requires x < 0.0 && y < 0.0 && p == x * y
    ensures p > 0.0
  {
  }

  lemma NoneTimes(x: real, y: real, p: real)
    requires x == 0.0 && p == x * y
    ensures p == 0.0
  {
  }

  function Times(w: seq<Sample>): Vec {
    seq(|w|, i requires 0 <= i < |w| => w[i].at - w[0].at)
  }

  function Frees(w: seq<Sample>): Vec {
    seq(|w|, i requires 0 <= i < |w| => w[i].free as real)
  }

  lemma DotNext(a: Vec, b: Vec, i: nat, x: real, y: real)
    requires |a| == |b| && i < |a| && a[i] == x && b[i] == y
    ensures Dot(Product(), a[..i + 1], b[..i + 1]) == Dot(Product(), a[..i], b[..i]) + x * y
  {
    assert a[..i + 1][..i] == a[..i] && b[..i + 1][..i] == b[..i];
  }

  /** The four sums of the loop. */
  method Sums(w: seq<Sample>) returns (sumT: real, sumF: real, sumTT: real, sumTF: real)
    requires w != []
    ensures sumT == Dot(Product(), Times(w), Ones(|w|)) && sumF == Dot(Product(), Frees(w), Ones(|w|))
    ensures sumTT == Dot(Product(), Times(w), Times(w)) && sumTF == Dot(Product(), Times(w), Frees(w))
  {
    sumT, sumF, sumTT, sumTF := 0.0, 0.0, 0.0, 0.0;
    ghost var t, f, one := Times(w), Frees(w), Ones(|w|);
    for i := 0 to |w|
      invariant sumT == Dot(Product(), t[..i], one[..i]) && sumF == Dot(Product(), f[..i], one[..i])
      invariant sumTT == Dot(Product(), t[..i], t[..i]) && sumTF == Dot(Product(), t[..i], f[..i])
    {
      var at, free := w[i].at - w[0].at, w[i].free as real;
      DotNext(t, one, i, at, 1.0);
      DotNext(f, one, i, free, 1.0);
      DotNext(t, t, i, at, at);
      DotNext(t, f, i, at, free);
      sumT, sumF, sumTT, sumTF := sumT + at, sumF + free, sumTT + at * at, sumTF + at * free;
    }
    assert t[..|w|] == t && f[..|w|] == f && one[..|w|] == one;
  }

  lemma Quotient(x: real, y: real)
    requires y != 0.0
    ensures (x / y) * y == x
  {
  }

  method Slope(w: seq<Sample>) returns (b: real)
    requires w != []
    ensures Den(Product(), Times(w)) == 0.0 ==> b == 0.0
    ensures Den(Product(), Times(w)) != 0.0 ==> IsSlope(Product(), Times(w), Frees(w), b)
  {
    var sumT, sumF, sumTT, sumTF := Sums(w);
    var n := |w| as real;
    var den := n * sumTT - sumT * sumT;
    b := 0.0;
    if den != 0.0 {
      b := (n * sumTF - sumT * sumF) / den;
      Quotient(n * sumTF - sumT * sumF, den);
    }
    ProductMultiplies();
    QuotientIsSlope(Product(), Times(w), Frees(w), n, sumT, sumF, sumTT, sumTF, den, b);
  }

  /** Samples span some time, so their slope is a quotient. */
  lemma TimesDiffer(w: seq<Sample>)
    requires w != [] && w[|w| - 1].at != w[0].at
    ensures Den(Product(), Times(w)) > 0.0
  {
    ProductMultiplies();
    DenPositive(Product(), Times(w));
    assert Times(w)[|w| - 1] != Times(w)[0];
  }

  // ---- the forecast ----

  datatype Outlook = Days(days: real) | ShortHistory | NotFalling

  ghost predicate IsFit(w: seq<Sample>, b: real) {
    w != [] && IsSlope(Product(), Times(w), Frees(w), b)
  }

  /** At that rate the free space is gone in that many days. */
  ghost predicate RunsOut(free: int, b: real, days: real) {
    free as real + b * (days * 86400.0) == 0.0
  }

  /** The window starts here: no longer suffix is without a jump inside it. */
  ghost predicate StartsAt(s: seq<Sample>, start: nat) {
    JumpFree(s, start) && forall k | JumpFree(s, k) :: start <= k
  }

  ghost predicate TooShort(s: seq<Sample>, start: nat)
    requires start < |s|
  {
    |s| - start < 3 || s[|s| - 1].at - s[start].at < 3.0 * 3600.0
  }

  /** What a fitted slope means for the disk. */
  ghost predicate Means(free: int, b: real, o: Outlook) {
    if b >= 0.0 then o == NotFalling else o.Days? && RunsOut(free, b, o.days)
  }

  /** What there is to say of a history: too little, or what the slope fitted over its
      window means. */
  ghost predicate OutlookOf(s: seq<Sample>, o: Outlook) {
    if s == [] then o == ShortHistory
    else exists start :: StartsAt(s, start) && OutlookFrom(s, start, o)
  }

  ghost predicate OutlookFrom(s: seq<Sample>, start: nat, o: Outlook)
    requires start < |s|
  {
    if TooShort(s, start) then o == ShortHistory else exists b :: IsFit(s[start..], b) && Means(s[|s| - 1].free, b, o)
  }

  lemma SameQuotient(x: real, y: real, d: real)
    requires d != 0.0 && x * d == y * d
    ensures x == y
  {
    assert (x * d) / d == x && (y * d) / d == y;
  }

  lemma OneSlope(w: seq<Sample>, b: real, c: real)
    requires IsFit(w, b) && IsFit(w, c)
    ensures b == c
  {
    SameQuotient(b, c, Den(Product(), Times(w)));
  }

  lemma OneDay(free: int, b: real, x: real, y: real)
    requires b < 0.0 && RunsOut(free, b, x) && RunsOut(free, b, y)
    ensures x == y
  {
    Swapped(b, x * SECONDS_A_DAY);
    Swapped(b, y * SECONDS_A_DAY);
    SameQuotient(x * SECONDS_A_DAY, y * SECONDS_A_DAY, b);
  }

  lemma Swapped(x: real, y: real)
    ensures x * y == y * x
  {
  }

  /** A history has one outlook. */
  lemma OneOutlook(s: seq<Sample>, o: Outlook, p: Outlook)
    requires OutlookOf(s, o) && OutlookOf(s, p)
    ensures o == p
  {
    if s != [] {
      var start :| StartsAt(s, start) && OutlookFrom(s, start, o);
      var other :| StartsAt(s, other) && OutlookFrom(s, other, p);
      assert start == other;
      if !TooShort(s, start) { SameMeaning(s, start, o, p); }
    }
  }

  lemma SameMeaning(s: seq<Sample>, start: nat, o: Outlook, p: Outlook)
    requires start < |s| && !TooShort(s, start) && OutlookFrom(s, start, o) && OutlookFrom(s, start, p)
    ensures o == p
  {
    var b :| IsFit(s[start..], b) && Means(s[|s| - 1].free, b, o);
    var c :| IsFit(s[start..], c) && Means(s[|s| - 1].free, c, p);
    OneSlope(s[start..], b, c);
    if b < 0.0 { OneDay(s[|s| - 1].free, b, o.days, p.days); }
  }

  /** The outlook of a history. */
  ghost function Foretold(s: seq<Sample>): Outlook {
    if exists o :: OutlookOf(s, o) then
      var o :| OutlookOf(s, o);
      o
    else ShortHistory
  }

  lemma ForetoldIs(s: seq<Sample>, o: Outlook)
    requires OutlookOf(s, o)
    ensures Foretold(s) == o
  {
    OneOutlook(s, o, Foretold(s));
  }

  /** ForecastOrWhy: the fit is over the longest jump-free suffix inside the window. */
  method ForecastOrWhy(s: seq<Sample>) returns (o: Outlook)
    ensures OutlookOf(s, o) && o == Foretold(s)
  {
    var w;
    ghost var start;
    w, start := ForecastWindow(s);
    o := OutlookIn(s, w, start);
    if s != [] { assert StartsAt(s, start); }
    ForetoldIs(s, o);
  }

  method OutlookIn(s: seq<Sample>, w: seq<Sample>, ghost start: nat) returns (o: Outlook)
    requires if s == [] then w == [] else start < |s| && w == s[start..]
    ensures if s == [] then o == ShortHistory else OutlookFrom(s, start, o)
  {
    if |w| < MIN_SAMPLES {
      return ShortHistory;
    }
    var last := w[|w| - 1];
    if last.at - w[0].at < MIN_SPAN {
      return ShortHistory;
    }
    var b := Slope(w);
    TimesDiffer(w);
    assert IsFit(s[start..], b);
    if b >= 0.0 {
      o := NotFalling;
    } else {
      o := Days(last.free as real / (-b * SECONDS_A_DAY));
      DaysRunOut(last.free, b);
    }
    assert Means(s[|s| - 1].free, b, o);
  }

  lemma DaysRunOut(free: int, b: real)
    requires b < 0.0
    ensures RunsOut(free, b, free as real / (-b * SECONDS_A_DAY))
  {
    var d := -b * SECONDS_A_DAY;
    Quotient(free as real, d);
    var x := free as real / d;
    assert b * (x * SECONDS_A_DAY) == -(x * d);
  }

  /** A disk that fills steadily: the slope is its rate, whatever samples were taken. */
  lemma SteadyFall(w: seq<Sample>, b: real, a: real, rate: real)
    requires IsFit(w, b) && forall i | 0 <= i < |w| :: w[i].free as real == a + rate * (w[i].at - w[0].at)
    ensures b == rate
  {
    var t, f := Times(w), Frees(w);
    ProductMultiplies();
    OnALine(Product(), t, f, a, rate);
    ExactOnALine(Product(), t, f, b, a, rate);
  }

  /** The slope the forecast uses misses the samples by least. */
  lemma FitIsLeast(w: seq<Sample>, b: real, best: Vec, a1: real, b1: real, other: Vec)
    requires IsFit(w, b)
    requires var t, f := Times(w), Frees(w);
      AreMisses(Product(), t, f, Intercept(Product(), t, f, b), b, best) && AreMisses(Product(), t, f, a1, b1, other)
    ensures Dot(Product(), best, best) <= Dot(Product(), other, other)
  {
    ProductMultiplies();
    SlopeIsLeast(Product(), Times(w), Frees(w), b, best, a1, b1, other);
  }
}
