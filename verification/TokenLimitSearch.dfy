/** The search for the largest token count per GPU: `_fit`, `_build_micro_batch`, the probe loop and the final estimate of
ajet/utils/find_max_ppo_token_len.py, over exact reals. */
module TokenLimitSearch {
  import opened PyList

  /** A probe that fitted: its token count and the peak memory it took. */
  datatype Sample = Sample(len: int, peak: real)

  /** peak ~= a + b * len */
  datatype Line = Line(a: real, b: real)

  // ----- Least squares -----

  /** The sums the fit is made of; `yy` serves only to state the squared error. */
  datatype Sums = Sums(n: real, x: real, y: real, xx: real, xy: real, yy: real)

  function Grow(t: Sums, x: real, y: real): Sums {
    Sums(t.n + 1.0, t.x + x, t.y + y, t.xx + x * x, t.xy + x * y, t.yy + y * y)
  }

  function X(s: seq<Sample>, i: nat): real
    requires i < |s|
  {
    s[i].len as real
  }

  function SumsOf(s: seq<Sample>, n: nat): (t: Sums)
    requires n <= |s|
    ensures t.n == n as real
  {
    if n == 0 then Sums(0.0, 0.0, 0.0, 0.0, 0.0, 0.0) else Grow(SumsOf(s, n - 1), X(s, n - 1), s[n - 1].peak)
  }

  function Denominator(t: Sums): real {
    t.n * t.xx - t.x * t.x
  }

  function FitSums(t: Sums): Line
    requires t.n > 0.0
  {
    if Denominator(t) == 0.0 then Line(t.y / t.n, 0.0)
    else
      var b := (t.n * t.xy - t.x * t.y) / Denominator(t);
      Line((t.y - b * t.x) / t.n, b)
  }

  /** `_fit(samples)` */
  function Fit(s: seq<Sample>): Line
    requires s != []
  {
    FitSums(SumsOf(s, |s|))
  }

  lemma Product(x: real, y: real, p: real)
    requires p == x * y && ((x > 0.0 && y > 0.0) || (x < 0.0 && y < 0.0))
    ensures p > 0.0
  {
  }

  function Squared(x: real): (r: real)
    ensures r >= 0.0 && (r <= 0.0 ==> x == 0.0)
  {
    var p := x * x;
    if x != 0.0 then Product(x, x, p); p else p
  }

  function At(a: real, b: real, x: real): real {
    a + b * x
  }

  /** The sum of squares of `a + b * x` over the first n token counts. */
  function Energy(s: seq<Sample>, n: nat, a: real, b: real): (r: real)
    requires n <= |s|
    ensures r >= 0.0
  {
    if n == 0 then 0.0 else Energy(s, n - 1, a, b) + Squared(At(a, b, X(s, n - 1)))
  }

  lemma {:induction false} EnergyIsZero(s: seq<Sample>, n: nat, a: real, b: real)
    requires n <= |s| && Energy(s, n, a, b) <= 0.0
    ensures forall i :: 0 <= i < n ==> At(a, b, X(s, i)) == 0.0
  {
    if n > 0 {
      EnergyIsZero(s, n - 1, a, b);
    }
  }

  function EnergyOf(t: Sums, a: real, b: real): real {
    t.n * (a * a) + 2.0 * ((a * b) * t.x) + (b * b) * t.xx
  }

  lemma GrowEnergy(t: Sums, a: real, b: real, x: real, y: real)
    ensures EnergyOf(Grow(t, x, y), a, b) == EnergyOf(t, a, b) + (a + b * x) * (a + b * x)
  {
    var bx := b * x;
    assert (a + bx) * (a + bx) == a * a + 2.0 * (a * bx) + bx * bx;
    assert a * bx == (a * b) * x && bx * bx == (b * b) * (x * x);
    assert (t.n + 1.0) * (a * a) == t.n * (a * a) + a * a;
    assert (a * b) * (t.x + x) == (a * b) * t.x + (a * b) * x && (b * b) * (t.xx + x * x) == (b * b) * t.xx + (b * b) * (x * x);
  }

  lemma {:induction false} EnergyIsPolynomial(s: seq<Sample>, n: nat, a: real, b: real)
    requires n <= |s|
    ensures Energy(s, n, a, b) == EnergyOf(SumsOf(s, n), a, b)
  {
    if n > 0 {
      EnergyIsPolynomial(s, n - 1, a, b);
      GrowEnergy(SumsOf(s, n - 1), a, b, X(s, n - 1), s[n - 1].peak);
    }
  }

  lemma GrowDenominator(t: Sums, x: real, y: real)
    ensures Denominator(Grow(t, x, y)) == Denominator(t) + EnergyOf(t, -x, 1.0)
  {
    assert (t.n + 1.0) * (t.xx + x * x) == t.n * t.xx + t.n * (x * x) + t.xx + x * x;
    assert (t.x + x) * (t.x + x) == t.x * t.x + 2.0 * (x * t.x) + x * x;
    assert (-x) * (-x) == x * x && ((-x) * 1.0) * t.x == -(x * t.x);
  }

  /** One more sample adds to the denominator how far it lies from those before. */
  lemma DenominatorGrows(s: seq<Sample>, n: nat)
    requires n < |s|
    ensures Denominator(SumsOf(s, n + 1)) == Denominator(SumsOf(s, n)) + Energy(s, n, -X(s, n), 1.0)
  {
    EnergyIsPolynomial(s, n, -X(s, n), 1.0);
    GrowDenominator(SumsOf(s, n), X(s, n), s[n].peak);
  }

  lemma NoEnergyIff(s: seq<Sample>, n: nat, x: real)
    requires n <= |s|
    ensures Energy(s, n, -x, 1.0) == 0.0 <==> forall i :: 0 <= i < n ==> X(s, i) == x
  {
    if Energy(s, n, -x, 1.0) == 0.0 {
      EnergyIsZero(s, n, -x, 1.0);
    } else if forall i :: 0 <= i < n ==> X(s, i) == x {
      NoEnergy(s, n, x);
    }
  }

  /** The denominator is never negative, and it is zero exactly when all token counts are the same. */
  lemma {:induction false} DenominatorIsZeroIff(s: seq<Sample>, n: nat)
    requires n <= |s|
    ensures Denominator(SumsOf(s, n)) >= 0.0
    ensures Denominator(SumsOf(s, n)) == 0.0 <==> forall i :: 0 <= i < n ==> X(s, i) == X(s, 0)
  {
    if n > 0 {
      DenominatorIsZeroIff(s, n - 1);
      DenominatorGrows(s, n - 1);
      NoEnergyIff(s, n - 1, X(s, n - 1));
    }
  }

  lemma {:induction false} NoEnergy(s: seq<Sample>, n: nat, x: real)
    requires n <= |s| && forall i :: 0 <= i < n ==> X(s, i) == x
    ensures Energy(s, n, -x, 1.0) == 0.0
  {
    if n > 0 {
      NoEnergy(s, n - 1, x);
    }
  }

  ghost predicate Increasing(s: seq<Sample>) {
    forall i, j :: 0 <= i < j < |s| ==> s[i].len < s[j].len
  }

  /** Probe sizes grow strictly, so two probes are enough for the fit to divide by a positive number. */
  lemma DenominatorIsPositive(s: seq<Sample>)
    requires |s| >= 2 && Increasing(s)
    ensures Denominator(SumsOf(s, |s|)) > 0.0
  {
    DenominatorIsZeroIff(s, |s|);
    assert X(s, 1) != X(s, 0);
  }

  /** The squared error of a line over the first n samples. */
  function Error(s: seq<Sample>, n: nat, l: Line): real
    requires n <= |s|
  {
    if n == 0 then 0.0
    else Error(s, n - 1, l) + Miss(l, X(s, n - 1), s[n - 1].peak)
  }

  function Miss(l: Line, x: real, y: real): real {
    Squared(y - (l.a + l.b * x))
  }

  function Cross(t: Sums, l: Line): real {
    l.a * t.y + l.b * t.xy
  }

  function ErrorOf(t: Sums, l: Line): real {
    t.yy - 2.0 * Cross(t, l) + EnergyOf(t, l.a, l.b)
  }

  lemma GrowCross(t: Sums, l: Line, x: real, y: real)
    ensures Cross(Grow(t, x, y), l) == Cross(t, l) + (l.a + l.b * x) * y
  {
    assert l.a * (t.y + y) == l.a * t.y + l.a * y && l.b * (t.xy + x * y) == l.b * t.xy + l.b * (x * y);
    assert (l.a + l.b * x) * y == l.a * y + l.b * (x * y);
  }

  lemma SquareOfDifference(y: real, v: real)
    ensures (y - v) * (y - v) == y * y - 2.0 * (v * y) + v * v
  {
  }

  lemma GrowError(t: Sums, l: Line, x: real, y: real, error: real)
    requires error == ErrorOf(t, l)
    ensures error + Miss(l, x, y) == ErrorOf(Grow(t, x, y), l)
  {
    GrowEnergy(t, l.a, l.b, x, y);
    GrowCross(t, l, x, y);
    SquareOfDifference(y, l.a + l.b * x);
  }

  lemma {:induction false} ErrorIsPolynomial(s: seq<Sample>, n: nat, l: Line)
    requires n <= |s|
    ensures Error(s, n, l) == ErrorOf(SumsOf(s, n), l)
  {
    if n > 0 {
      ErrorIsPolynomial(s, n - 1, l);
      GrowError(SumsOf(s, n - 1), l, X(s, n - 1), s[n - 1].peak, Error(s, n - 1, l));
    }
  }

  /** The normal equations. */
  ghost predicate Normal(t: Sums, l: Line) {
    t.n * l.a + l.b * t.x == t.y && l.a * t.x + l.b * t.xx == t.xy
  }

  /** A line that meets the normal equations errs least: any other errs more by the energy of the difference. */
  lemma ErrorBeyondNormal(t: Sums, l: Line, other: Line)
    requires Normal(t, l)
    ensures ErrorOf(t, other) == ErrorOf(t, l) + EnergyOf(t, other.a - l.a, other.b - l.b)
  {
    var a, b, c, d := l.a, l.b, other.a, other.b;
    var e, f := c - a, d - b;
    assert c * t.y == a * t.y + e * t.y && d * t.xy == b * t.xy + f * t.xy;
    assert c * c == a * a + 2.0 * (a * e) + e * e;
    assert d * d == b * b + 2.0 * (b * f) + f * f;
    assert c * d == a * b + a * f + e * b + e * f;
    assert Cross(t, other) == Cross(t, l) + Cross(t, Line(e, f));
    var p, q, r := EnergyOf(t, c, d), EnergyOf(t, a, b), EnergyOf(t, e, f);
    assert p == q + r + 2.0 * (t.n * (a * e)) + 2.0 * ((a * f + e * b) * t.x) + 2.0 * ((b * f) * t.xx);
    assert e * t.y == t.n * (a * e) + (e * b) * t.x;
    assert f * t.xy == (a * f) * t.x + (b * f) * t.xx;
    assert (a * f + e * b) * t.x == (a * f) * t.x + (e * b) * t.x;
  }

  lemma Quotient(p: real, q: real)
    requires q != 0.0
    ensures (p / q) * q == p
  {
  }

  lemma FitIsNormal(t: Sums)
    requires t.n > 0.0 && (Denominator(t) == 0.0 ==> t.y * t.x == t.n * t.xy)
    ensures Normal(t, FitSums(t))
  {
    var l := FitSums(t);
    if Denominator(t) == 0.0 {
      Quotient(t.y, t.n);
      FlatIsNormal(t, l.a);
    } else {
      Quotient(t.n * t.xy - t.x * t.y, Denominator(t));
      Quotient(t.y - l.b * t.x, t.n);
      SlopedIsNormal(t, l.a, l.b);
    }
  }

  lemma Cancel(n: real, u: real, v: real)
    requires n != 0.0 && n * u == n * v
    ensures u == v
  {
  }

  lemma FlatIsNormal(t: Sums, a: real)
    requires t.n > 0.0 && a * t.n == t.y && t.y * t.x == t.n * t.xy
    ensures a * t.x == t.xy
  {
    assert t.n * (a * t.x) == (a * t.n) * t.x;
    Cancel(t.n, a * t.x, t.xy);
  }

  lemma SlopedIsNormal(t: Sums, a: real, b: real)
    requires t.n > 0.0 && b * Denominator(t) == t.n * t.xy - t.x * t.y && a * t.n == t.y - b * t.x
    ensures Normal(t, Line(a, b))
  {
    assert b * (t.n * t.xx - t.x * t.x) == t.n * (b * t.xx) - (b * t.x) * t.x;
    assert t.n * (a * t.x) == (a * t.n) * t.x;
    assert (t.y - b * t.x) * t.x == t.x * t.y - (b * t.x) * t.x;
    assert t.n * (a * t.x + b * t.xx) == t.n * (a * t.x) + t.n * (b * t.xx);
    Cancel(t.n, a * t.x + b * t.xx, t.xy);
  }

  /** The sums of n samples of this size. */
  ghost predicate OfOneSize(t: Sums, x: real, n: real) {
    t.x == n * x && t.xy == x * t.y
  }

  lemma {:induction false} SameSizes(s: seq<Sample>, n: nat, x: real)
    requires n <= |s| && forall i :: 0 <= i < n ==> X(s, i) == x
    ensures OfOneSize(SumsOf(s, n), x, n as real)
  {
    if n > 0 {
      SameSizes(s, n - 1, x);
      OneMoreOfSame(SumsOf(s, n - 1), x, s[n - 1].peak, (n - 1) as real);
      assert SumsOf(s, n) == Grow(SumsOf(s, n - 1), x, s[n - 1].peak);
    }
  }

  lemma OneMoreOfSame(t: Sums, x: real, y: real, n: real)
    requires OfOneSize(t, x, n)
    ensures OfOneSize(Grow(t, x, y), x, n + 1.0)
  {
    assert x * (t.y + y) == x * t.y + x * y;
    assert (n + 1.0) * x == n * x + x;
  }

  lemma FitMeetsNormal(s: seq<Sample>)
    requires s != []
    ensures Normal(SumsOf(s, |s|), Fit(s))
  {
    var t := SumsOf(s, |s|);
    if Denominator(t) == 0.0 {
      var x := X(s, 0);
      DenominatorIsZeroIff(s, |s|);
      SameSizes(s, |s|, x);
      assert t.y * (t.n * x) == t.n * (x * t.y);
    }
    FitIsNormal(t);
  }

  /** No line has a smaller squared error than the fitted one, degenerate samples included. */
  lemma FitMinimisesError(s: seq<Sample>, other: Line)
    requires s != []
    ensures Error(s, |s|, Fit(s)) <= Error(s, |s|, other)
  {
    var l := Fit(s);
    FitMeetsNormal(s);
    ErrorIsPolynomial(s, |s|, l);
    ErrorIsPolynomial(s, |s|, other);
    ErrorBeyondNormal(SumsOf(s, |s|), l, other);
    EnergyIsPolynomial(s, |s|, other.a - l.a, other.b - l.b);
  }

  lemma {:induction false} ErrorOnLine(s: seq<Sample>, n: nat, l: Line)
    requires n <= |s| && forall i :: 0 <= i < n ==> s[i].peak == l.a + l.b * X(s, i)
    ensures Error(s, n, l) == 0.0
  {
    if n > 0 {
      ErrorOnLine(s, n - 1, l);
    }
  }

  /** Samples that lie on a line give back that line. */
  lemma FitIsExact(s: seq<Sample>, l: Line)
    requires |s| >= 2 && Increasing(s)
    requires forall i :: 0 <= i < |s| ==> s[i].peak == l.a + l.b * X(s, i)
    ensures Fit(s) == l
  {
    var fit, t := Fit(s), SumsOf(s, |s|);
    ErrorOnLine(s, |s|, l);
    ErrorNonNegative(s, |s|, fit);
    FitMinimisesError(s, l);
    FitMeetsNormal(s);
    ErrorIsPolynomial(s, |s|, l);
    ErrorIsPolynomial(s, |s|, fit);
    ErrorBeyondNormal(t, fit, l);
    EnergyIsPolynomial(s, |s|, l.a - fit.a, l.b - fit.b);
    assert Energy(s, |s|, l.a - fit.a, l.b - fit.b) <= 0.0;
    EnergyIsZero(s, |s|, l.a - fit.a, l.b - fit.b);
    SameLine(s, fit, l);
  }

  lemma SameLine(s: seq<Sample>, fit: Line, l: Line)
    requires |s| >= 2 && Increasing(s)
    requires forall i :: 0 <= i < |s| ==> At(l.a - fit.a, l.b - fit.b, X(s, i)) == 0.0
    ensures fit == l
  {
    assert s[0].len < s[1].len;
    TwoZeros(l.a - fit.a, l.b - fit.b, X(s, 0), X(s, 1));
  }

  lemma TwoZeros(a: real, b: real, x: real, y: real)
    requires x < y && At(a, b, x) == 0.0 && At(a, b, y) == 0.0
    ensures a == 0.0 && b == 0.0
  {
    assert (y - x) * b == (y - x) * 0.0;
    Cancel(y - x, b, 0.0);
  }

  lemma {:induction false} ErrorNonNegative(s: seq<Sample>, n: nat, l: Line)
    requires n <= |s|
    ensures Error(s, n, l) >= 0.0
  {
    if n > 0 {
      ErrorNonNegative(s, n - 1, l);
    }
  }

  // ----- The ramp -----

  /** `int(x)` truncates towards zero. */
  function Trunc(x: real): (r: int)
    ensures x >= 0.0 ==> r >= 0 && r as real <= x < (r + 1) as real
    ensures x < 0.0 ==> r <= 0 && (r - 1) as real < x <= r as real
  {
    if x >= 0.0 then x.Floor else -(-x).Floor
  }

  function Min(a: int, b: int): int {
    if a < b then a else b
  }

  function Max(a: int, b: int): int {
    if a < b then b else a
  }

  const FLAT := 0.000000000001

  function Predicted(l: Line, len: int): real {
    l.a + l.b * len as real
  }

  /** The smallest step worth probing: 256 tokens or 2% of the size just probed. */
  function SmallestStep(len: int): int {
    Max(256, Trunc(0.02 * len as real))
  }

  /** The settings of the search, and how it fits a line: nothing below depends on what `fit` computes. */
  datatype Limits = Limits(start: int, cap: int, safe: real, ceiling: real, fit: seq<Sample> -> Line)

  /** The search fits by least squares. */
  function LeastSquares(start: int, cap: int, safe: real, ceiling: real): Limits {
    Limits(start, cap, safe, ceiling, s => if s == [] then Line(0.0, 0.0) else Fit(s))
  }

  function FirstSize(c: Limits): int {
    Max(512, Min(c.start, c.cap))
  }

  function Distance(x: int, y: int): nat {
    if x < y then y - x else x - y
  }

  /** Of the sizes from 512 up to the cap, or 512 alone under a lower cap, the first one probed is the nearest to the start. */
  lemma FirstSizeIsNearest(c: Limits, x: int)
    requires 512 <= x <= Max(512, c.cap)
    ensures 512 <= FirstSize(c) <= Max(512, c.cap) && Distance(FirstSize(c), c.start) <= Distance(x, c.start)
  {
  }

  /** This size would go beyond the size just probed, and the fit predicts more than the ceiling for it. */
  predicate TooMuch(l: Line, x: int, len: int, ceiling: real) {
    l.b > FLAT && Predicted(l, x) > ceiling && x > len
  }

  /** Back towards the size just probed until the size is not too much. */
  function Guarded(l: Line, x: int, len: int, ceiling: real): (r: int)
    ensures r <= x && !TooMuch(l, r, len, ceiling)
    decreases if x > len then x - len else 0
  {
    if TooMuch(l, x, len, ceiling) then Guarded(l, (x + len) / 2, len, ceiling) else x
  }

  /** x after k halvings of its distance from len. */
  function Halved(x: int, len: int, k: nat): int
    decreases k
  {
    if k == 0 then x else Halved((x + len) / 2, len, k - 1)
  }

  /** The guard halves no more often than needed. */
  lemma {:induction false} GuardIsFirstAllowed(l: Line, x: int, len: int, ceiling: real) returns (k: nat)
    ensures Guarded(l, x, len, ceiling) == Halved(x, len, k)
    ensures forall j :: 0 <= j < k ==> TooMuch(l, Halved(x, len, j), len, ceiling)
    decreases if x > len then x - len else 0
  {
    if TooMuch(l, x, len, ceiling) {
      var n := GuardIsFirstAllowed(l, (x + len) / 2, len, ceiling);
      k := n + 1;
      forall j | 0 <= j < k
        ensures TooMuch(l, Halved(x, len, j), len, ceiling)
      {
        if j > 0 {
          assert Halved(x, len, j) == Halved((x + len) / 2, len, j - 1);
        }
      }
    } else {
      k := 0;
    }
  }

  method Guard(l: Line, wanted: int, len: int, ceiling: real) returns (next: int)
    ensures next == Guarded(l, wanted, len, ceiling)
  {
    next := wanted;
    while l.b > FLAT && Predicted(l, next) > ceiling && next > len
      invariant Guarded(l, wanted, len, ceiling) == Guarded(l, next, len, ceiling)
      decreases next - len
    {
      next := (next + len) / 2;
    }
  }

  datatype Probe = Probe(ok: bool, peak: real)

  /** What the ramp keeps: sizes grow strictly, at most double, stay under the cap, and every probe but the last stayed safe; from the
      third on, a size is probed only if the line through the earlier ones predicts less than the ceiling. */
  ghost predicate Ramp(s: seq<Sample>, c: Limits) {
    && Growing(s, c)
    && (forall k :: 2 <= k < |s| ==> StepAt(s, k, c))
  }

  ghost predicate Growing(s: seq<Sample>, c: Limits) {
    && (s != [] ==> s[0].len == FirstSize(c))
    && Increasing(s) && Doubling(s, c.safe)
    && (forall k :: 0 <= k < |s| ==> 512 <= s[k].len <= Max(512, c.cap))
  }

  /** Sizes at most double, and were safe before they grew. */
  ghost predicate Doubling(s: seq<Sample>, safe: real) {
    forall k :: 0 <= k < |s| - 1 ==> s[k + 1].len <= 2 * s[k].len && s[k].peak < safe
  }

  ghost predicate StepOk(before: seq<Sample>, len: int, c: Limits)
    requires |before| >= 2
  {
    && len - before[|before| - 1].len >= SmallestStep(before[|before| - 1].len)
    && (c.fit(before).b > FLAT ==> Predicted(c.fit(before), len) <= c.ceiling)
  }

  ghost predicate StepAt(s: seq<Sample>, k: nat, c: Limits)
    requires 2 <= k < |s|
  {
    StepOk(s[..k], s[k].len, c)
  }

  /** A size that may be probed after these samples. */
  ghost predicate MayProbe(s: seq<Sample>, len: int, c: Limits) {
    && 512 <= len <= Max(512, c.cap)
    && (if s == [] then len == FirstSize(c)
        else s[|s| - 1].len < len <= 2 * s[|s| - 1].len && s[|s| - 1].peak < c.safe)
    && (|s| >= 2 ==> StepOk(s, len, c))
  }

  /** Where the safe level lies on the line, but at most twice the last size and at most the cap. */
  function Wanted(s: seq<Sample>, c: Limits): int
    requires s != []
  {
    var len, l := s[|s| - 1].len, c.fit(s);
    Min(Min(if l.b > FLAT then Trunc((c.safe - l.a) / l.b) else len * 2, len * 2), c.cap)
  }

  /** The quotient, cut off to an integer, is the last integer at which the line has not passed the level. */
  lemma LastBelow(l: Line, level: real, x: int)
    requires l.b > 0.0
    ensures x > Trunc((level - l.a) / l.b) ==> Predicted(l, x) > level
    ensures 0 < x <= Trunc((level - l.a) / l.b) ==> Predicted(l, x) <= level
  {
    var q := (level - l.a) / l.b;
    Quotient(level - l.a, l.b);
    if x > Trunc(q) {
      Scaled(l.b, q, x as real);
    } else if 0 < x {
      Below(l.b, x as real, q, level - l.a);
    }
  }

  lemma Scaled(b: real, x: real, y: real)
    requires b > 0.0 && x < y
    ensures b * x < b * y
  {
  }

  /** The wanted size is the largest one, up to twice the last size and up to the cap, for which the line stays within the safe level. */
  lemma WantedIsSafe(s: seq<Sample>, c: Limits)
    requires s != []
    ensures var most := Min(s[|s| - 1].len * 2, c.cap);
      if c.fit(s).b > FLAT then
        && Wanted(s, c) <= most
        && (Wanted(s, c) > 0 ==> Predicted(c.fit(s), Wanted(s, c)) <= c.safe)
        && forall x: int :: Wanted(s, c) < x <= most ==> Predicted(c.fit(s), x) > c.safe
      else Wanted(s, c) == most
  {
    var l := c.fit(s);
    if l.b > FLAT {
      LastBelow(l, c.safe, Wanted(s, c));
      forall x: int | Wanted(s, c) < x <= Min(s[|s| - 1].len * 2, c.cap)
        ensures Predicted(l, x) > c.safe
      {
        LastBelow(l, c.safe, x);
      }
    }
  }

  /** The size to probe after these samples; none when the guarded step is too small to be worth it. */
  function NextOf(s: seq<Sample>, c: Limits): Option<int>
    requires s != []
  {
    var len := s[|s| - 1].len;
    if |s| == 1 then Some(Min(len * 2, c.cap))
    else
      var n := Guarded(c.fit(s), Wanted(s, c), len, c.ceiling);
      if n <= len || n - len < SmallestStep(len) then None else Some(n)
  }

  /** From one sample the size doubles, or reaches the cap.  From two on the ramp ends exactly when the guarded size is less than 256 tokens,
      or less than 2% in whole tokens, beyond the last; otherwise that size is next. */
  lemma NextIs(s: seq<Sample>, c: Limits)
    requires s != [] && s[|s| - 1].len >= 0
    ensures |s| == 1 ==> NextOf(s, c) == Some(Min(2 * s[0].len, c.cap))
    ensures |s| >= 2 ==>
      var len := s[|s| - 1].len;
      var n := Guarded(c.fit(s), Wanted(s, c), len, c.ceiling);
      NextOf(s, c) == if n - len < 256 || (n - len + 1) as real <= 0.02 * len as real then None else Some(n)
  {
  }

  method NextSize(s: seq<Sample>, c: Limits) returns (next: Option<int>)
    requires s != []
    ensures next == NextOf(s, c)
  {
    var len := s[|s| - 1].len;
    if |s| >= 2 {
      var l := c.fit(s);
      var wanted := if l.b > FLAT then Trunc((c.safe - l.a) / l.b) else len * 2;
      wanted := Min(Min(wanted, len * 2), c.cap);
      var n := Guard(l, wanted, len, c.ceiling);
      next := if n <= len || n - len < SmallestStep(len) then None else Some(n);
    } else {
      next := Some(Min(len * 2, c.cap));
    }
  }

  lemma NextMayBeProbed(s: seq<Sample>, c: Limits)
    requires s != [] && 512 <= s[|s| - 1].len < c.cap && s[|s| - 1].peak < c.safe
    ensures NextOf(s, c).Some? ==> MayProbe(s, NextOf(s, c).value, c)
  {
  }

  /** The ramp is over: the last probe came close to the safe level, or reached the cap, or no further step is worth it. */
  predicate Enough(s: seq<Sample>, c: Limits) {
    s != [] && (s[|s| - 1].peak >= c.safe || s[|s| - 1].len >= c.cap || NextOf(s, c) == None)
  }

  /** This is the size the ramp goes on with after these samples. */
  predicate GoesOnWith(s: seq<Sample>, len: int, c: Limits) {
    if s == [] then len == FirstSize(c) else !Enough(s, c) && NextOf(s, c) == Some(len)
  }

  /** Each size was the one to go on with. */
  ghost predicate Followed(s: seq<Sample>, c: Limits) {
    forall k :: 0 <= k < |s| ==> FollowedAt(s, k, c)
  }

  ghost predicate FollowedAt(s: seq<Sample>, k: nat, c: Limits)
    requires k < |s|
  {
    GoesOnWith(s[..k], s[k].len, c)
  }

  lemma FollowedGrows(s: seq<Sample>, x: Sample, c: Limits)
    requires Followed(s, c) && GoesOnWith(s, x.len, c)
    ensures Followed(s + [x], c)
  {
    forall k | 0 <= k < |s| + 1
      ensures FollowedAt(s + [x], k, c)
    {
      if k < |s| {
        assert FollowedAt(s, k, c) && (s + [x])[..k] == s[..k];
      } else {
        assert (s + [x])[..k] == s;
      }
    }
  }

  lemma StepStays(s: seq<Sample>, x: Sample, k: nat, c: Limits)
    requires 2 <= k < |s| && StepAt(s, k, c)
    ensures StepAt(s + [x], k, c)
  {
    assert (s + [x])[..k] == s[..k];
  }

  lemma StepTaken(s: seq<Sample>, x: Sample, c: Limits)
    requires |s| >= 2 && StepOk(s, x.len, c)
    ensures StepAt(s + [x], |s|, c)
  {
    assert (s + [x])[..|s|] == s;
  }

  lemma IncreasingGrows(s: seq<Sample>, x: Sample)
    requires Increasing(s) && (s != [] ==> s[|s| - 1].len < x.len)
    ensures Increasing(s + [x])
  {
    forall i, j | 0 <= i < j < |s| + 1
      ensures (s + [x])[i].len < (s + [x])[j].len
    {
      if j == |s| {
        assert i < |s| - 1 ==> s[i].len < s[|s| - 1].len;
      }
    }
  }

  lemma DoublingGrows(s: seq<Sample>, x: Sample, safe: real)
    requires Doubling(s, safe) && (s != [] ==> x.len <= 2 * s[|s| - 1].len && s[|s| - 1].peak < safe)
    ensures Doubling(s + [x], safe)
  {
  }

  lemma GrowingGrows(s: seq<Sample>, x: Sample, c: Limits)
    requires Growing(s, c) && 512 <= x.len <= Max(512, c.cap)
    requires if s == [] then x.len == FirstSize(c)
      else s[|s| - 1].len < x.len <= 2 * s[|s| - 1].len && s[|s| - 1].peak < c.safe
    ensures Growing(s + [x], c)
  {
    IncreasingGrows(s, x);
    DoublingGrows(s, x, c.safe);
  }

  lemma RampGrows(s: seq<Sample>, x: Sample, c: Limits)
    requires Ramp(s, c) && MayProbe(s, x.len, c)
    ensures Ramp(s + [x], c)
  {
    GrowingGrows(s, x, c);
    forall k | 2 <= k < |s| + 1
      ensures StepAt(s + [x], k, c)
    {
      if k < |s| {
        StepStays(s, x, k, c);
      } else {
        StepTaken(s, x, c);
      }
    }
  }

  ghost predicate Measured(s: seq<Sample>, probe: int -> Probe) {
    forall k :: 0 <= k < |s| ==> probe(s[k].len) == Probe(true, s[k].peak)
  }

  /** The probe loop.  It ends whatever the probes report and even if the time budget never runs out; an out-of-memory size is larger
      than every size that fitted.  Each probe is the size to go on with after those before, and the loop ends only because a
      probe ran out of memory, the budget is used up, or the ramp is over. */
  method Search(c: Limits, probe: int -> Probe, budgetLeft: nat -> bool) returns (samples: seq<Sample>, oom: Option<int>)
    ensures Ramp(samples, c) && Measured(samples, probe) && Followed(samples, c)
    ensures oom.Some? ==> MayProbe(samples, oom.value, c) && !probe(oom.value).ok && GoesOnWith(samples, oom.value, c)
    ensures oom.Some? || !budgetLeft(|samples|) || Enough(samples, c)
    ensures samples == [] <==> !budgetLeft(0) || !probe(FirstSize(c)).ok
  {
    samples, oom := [], None;
    var len := FirstSize(c);
    var asked: nat := 0;
    while budgetLeft(asked)
      invariant Ramp(samples, c) && Measured(samples, probe) && MayProbe(samples, len, c) && oom == None
      invariant Followed(samples, c) && GoesOnWith(samples, len, c)
      invariant asked == |samples| && (asked > 0 ==> budgetLeft(0))
      decreases Max(512, c.cap) - len
    {
      asked := asked + 1;
      var p := probe(len);
      if !p.ok {
        oom := Some(len);
        return;
      }
      samples := Taken(samples, len, p.peak, c, probe);
      if p.peak >= c.safe || len >= c.cap {
        return;
      }
      var next := NextSize(samples, c);
      if next == None {
        return;
      }
      NextMayBeProbed(samples, c);
      len := next.value;
    }
  }

  method Taken(s: seq<Sample>, len: int, peak: real, c: Limits, ghost probe: int -> Probe) returns (t: seq<Sample>)
    requires Ramp(s, c) && MayProbe(s, len, c) && Measured(s, probe) && probe(len) == Probe(true, peak)
    requires Followed(s, c) && GoesOnWith(s, len, c)
    ensures t == s + [Sample(len, peak)] && Ramp(t, c) && Measured(t, probe) && Followed(t, c) && 512 <= len
  {
    RampGrows(s, Sample(len, peak), c);
    FollowedGrows(s, Sample(len, peak), c);
    t := s + [Sample(len, peak)];
  }

  /** `max(p0, 1e-6)` */
  function CountedPeak(peak: real): real {
    if peak > 0.000001 then peak else 0.000001
  }

  /** The size at which a peak that grows in proportion reaches the level. */
  function InProportion(len: int, peak: real, level: real): int
    requires peak > 0.0
  {
    Trunc(len as real * level / peak)
  }

  /** The estimate of the largest size from the samples. */
  function Estimate(s: seq<Sample>, c: Limits): int
    requires s != []
  {
    var l := c.fit(s);
    if |s| >= 2 then (if l.b > FLAT then Trunc((c.ceiling - l.a) / l.b) else s[|s| - 1].len)
    else InProportion(s[0].len, CountedPeak(s[0].peak), c.ceiling)
  }

  /** The reported limit, from the estimate and the out-of-memory size if there was one. */
  function Ceiling(s: seq<Sample>, oom: Option<int>, c: Limits): int
    requires s != []
  {
    Max(if oom.Some? then Min(Estimate(s, c), Trunc(oom.value as real * 0.97)) else Estimate(s, c), s[|s| - 1].len)
  }

  /** This size is within reach: below 97% of a size that ran out of memory. */
  predicate WithinReach(x: int, oom: Option<int>) {
    oom.Some? ==> x as real <= 0.97 * oom.value as real
  }

  /** More memory than the ceiling is expected for this size: by the line through the samples, or in proportion to a single sample, whose
      peak counts at least as a millionth. */
  ghost predicate Exceeds(s: seq<Sample>, x: int, c: Limits)
    requires s != []
  {
    if |s| >= 2 then Predicted(c.fit(s), x) > c.ceiling
    else ExceedsInProportion(s[0].len, CountedPeak(s[0].peak), c.ceiling, x)
  }

  /** `x : len` exceeds `level : peak`. */
  predicate ExceedsInProportion(len: int, peak: real, level: real, x: int) {
    x as real * peak > len as real * level
  }

  lemma LastInProportion(len: int, peak: real, level: real, x: int)
    requires peak > 0.0
    ensures x > InProportion(len, peak, level) ==> ExceedsInProportion(len, peak, level, x)
    ensures 0 < x <= InProportion(len, peak, level) ==> !ExceedsInProportion(len, peak, level, x)
  {
    LastBelow(Line(0.0, peak), len as real * level, x);
  }

  /** Before the sizes that ran out of memory are looked at: the estimate is the last size that is not expected to exceed the ceiling. */
  lemma EstimateIsLast(s: seq<Sample>, c: Limits, x: int)
    requires s != [] && (|s| >= 2 ==> c.fit(s).b > FLAT)
    ensures x > Estimate(s, c) ==> Exceeds(s, x, c)
    ensures 0 < x <= Estimate(s, c) ==> !Exceeds(s, x, c)
  {
    if |s| >= 2 {
      LastBelow(c.fit(s), c.ceiling, x);
    } else {
      LastInProportion(s[0].len, CountedPeak(s[0].peak), c.ceiling, x);
    }
  }

  /** The reported limit is the largest size not expected to exceed the ceiling and within reach, unless the last size probed is larger
      still.  A flat line says nothing, and the limit is the last size. */
  lemma LimitIsLargest(s: seq<Sample>, oom: Option<int>, c: Limits)
    requires s != [] && s[|s| - 1].len > 0 && (oom.Some? ==> oom.value > 0)
    ensures var limit, last := Ceiling(s, oom, c), s[|s| - 1].len;
      if |s| >= 2 && c.fit(s).b <= FLAT then limit == last
      else
        && (limit > last ==> !Exceeds(s, limit, c) && WithinReach(limit, oom))
        && forall x: int :: x > limit && WithinReach(x, oom) ==> Exceeds(s, x, c)
  {
    var limit := Ceiling(s, oom, c);
    if |s| < 2 || c.fit(s).b > FLAT {
      EstimateIsLast(s, c, limit);
      forall x: int | x > limit && WithinReach(x, oom)
        ensures Exceeds(s, x, c)
      {
        EstimateIsLast(s, c, x);
      }
    }
  }

  /** The reported limit is never below a size that fitted, and always below one that ran out of memory.  Without such a size, a
      limit above the sizes probed is one at which the fitted line stays within the ceiling. */
  lemma CeilingIsBracketed(s: seq<Sample>, oom: Option<int>, c: Limits)
    requires s != [] && Ramp(s, c) && (oom.Some? ==> MayProbe(s, oom.value, c))
    ensures forall k :: 0 <= k < |s| ==> s[k].len <= Ceiling(s, oom, c)
    ensures oom.Some? ==> Ceiling(s, oom, c) < oom.value
    ensures |s| >= 2 && c.fit(s).b > FLAT && Ceiling(s, oom, c) > s[|s| - 1].len ==>
      Predicted(c.fit(s), Ceiling(s, oom, c)) <= c.ceiling
  {
    var last := s[|s| - 1].len;
    assert Ceiling(s, oom, c) >= last;
    assert oom.Some? ==> last < oom.value;
    if oom.Some? {
      Shrinks(oom.value);
    }
    if |s| >= 2 && c.fit(s).b > FLAT && Ceiling(s, oom, c) > last {
      ExtrapolationIsSafe(s, oom, c);
    }
  }

  lemma ExtrapolationIsSafe(s: seq<Sample>, oom: Option<int>, c: Limits)
    requires |s| >= 2 && s[|s| - 1].len > 0 && c.fit(s).b > FLAT && Ceiling(s, oom, c) > s[|s| - 1].len
    ensures Predicted(c.fit(s), Ceiling(s, oom, c)) <= c.ceiling
  {
    var l, r := c.fit(s), Ceiling(s, oom, c);
    var q := (c.ceiling - l.a) / l.b;
    assert r <= Trunc(q);
    Below(l.b, r as real, q, c.ceiling - l.a);
  }

  lemma Shrinks(oom: int)
    requires oom >= 512
    ensures Trunc(oom as real * 0.97) < oom
  {
  }

  lemma Below(b: real, r: real, q: real, p: real)
    requires b > 0.0 && r <= q && q == p / b
    ensures b * r <= p
  {
    Quotient(p, b);
    assert (q - r) * b >= 0.0;
  }

  /** The whole search, fitting by least squares: it fails when not even the first size fitted, and otherwise reports a limit that no
      size that fitted exceeds and no size that ran out of memory is below. */
  method FindLimit(start: int, cap: int, safe: real, ceiling: real, probe: int -> Probe, budgetLeft: nat -> bool)
      returns (limit: Option<int>, samples: seq<Sample>, oom: Option<int>)
    ensures limit == None <==> !budgetLeft(0) || !probe(FirstSize(LeastSquares(start, cap, safe, ceiling))).ok
    ensures limit.Some? ==> samples != [] && limit == Some(Ceiling(samples, oom, LeastSquares(start, cap, safe, ceiling)))
    ensures limit.Some? ==> forall k :: 0 <= k < |samples| ==> probe(samples[k].len).ok && samples[k].len <= limit.value
    ensures limit.Some? && oom.Some? ==> !probe(oom.value).ok && limit.value < oom.value
    ensures limit.Some? && |samples| >= 2 && Fit(samples).b > FLAT && limit.value > samples[|samples| - 1].len ==>
      Predicted(Fit(samples), limit.value) <= ceiling
  {
    var c := LeastSquares(start, cap, safe, ceiling);
    samples, oom := Search(c, probe, budgetLeft);
    if samples == [] {
      return None, samples, oom;
    }
    CeilingIsBracketed(samples, oom, c);
    limit := Some(Ceiling(samples, oom, c));
  }

  // ----- The synthetic micro-batch -----

  function CeilDiv(a: int, b: int): int
    requires b > 0
  {
    (a + b - 1) / b
  }

  datatype MicroBatch = MicroBatch(sequences: int, length: int, response: int)

  function BuildMicroBatch(totalTokens: int, sequenceCap: int): MicroBatch
    requires sequenceCap >= 8
  {
    var total := Max(8, totalTokens);
    var sequences := Max(1, CeilDiv(total, sequenceCap));
    var length := Max(8, CeilDiv(total, sequences));
    MicroBatch(sequences, length, Max(1, length / 2))
  }

  /** The batch holds at least the tokens asked for and no sequence exceeds the cap; one sequence fewer would not do, nor would sequences
      shorter by one token, beyond the shortest of eight; half of each sequence is the response. */
  lemma MicroBatchHoldsTokens(totalTokens: int, sequenceCap: int)
    requires sequenceCap >= 8
    ensures var b := BuildMicroBatch(totalTokens, sequenceCap);
      && b.sequences * b.length >= totalTokens && b.length <= sequenceCap
      && b.length >= 8 && 2 * b.response <= b.length < 2 * b.response + 2
      && (b.sequences > 1 ==> (b.sequences - 1) * sequenceCap < totalTokens)
      && (b.length > 8 ==> b.sequences * (b.length - 1) < totalTokens)
  {
    var total := Max(8, totalTokens);
    var sequences := BuildMicroBatch(totalTokens, sequenceCap).sequences;
    CeilDivBounds(total, sequenceCap);
    EnoughTokens(sequences, Max(8, CeilDiv(total, sequences)), total);
    NoLongerThanCap(total, sequences, sequenceCap);
  }

  /** Sequences that hold the tokens at the cap need not be longer than it. */
  lemma NoLongerThanCap(total: int, sequences: int, cap: int)
    requires total > 0 && sequences > 0 && total <= sequences * cap
    ensures CeilDiv(total, sequences) <= cap
  {
    CeilDivBounds(total, sequences);
    if CeilDiv(total, sequences) > cap {
      Grows(cap, CeilDiv(total, sequences) - 1, sequences);
      assert false;
    }
  }

  lemma EnoughTokens(sequences: int, length: int, total: int)
    requires sequences > 0 && total > 0 && length == Max(8, CeilDiv(total, sequences))
    ensures sequences * length >= total
    ensures length > 8 ==> sequences * (length - 1) < total
  {
    CeilDivBounds(total, sequences);
    Grows(CeilDiv(total, sequences), length, sequences);
  }

  lemma Grows(p: int, q: int, b: int)
    requires p <= q && b > 0
    ensures p * b <= q * b
  {
  }

  lemma CeilDivBounds(a: int, b: int)
    requires a > 0 && b > 0
    ensures CeilDiv(a, b) >= 1
    ensures (CeilDiv(a, b) - 1) * b < a <= CeilDiv(a, b) * b
  {
    var q, r := (a + b - 1) / b, (a + b - 1) % b;
    assert a + b - 1 == q * b + r;
    assert (q - 1) * b == q * b - b;
    if q <= 0 {
      Grows(q, 0, b);
      assert false;
    }
  }
}
