/** The rectangular-to-polar rotation of seqpolar.v as a pure loop: a quadrant
    pre-rotation, then rotations by shifts 1, 2, ..., 33. */
module Cordic {
  import opened Bits

  const STAGES: nat := 33
  const TURN: int := 0x10_0000_0000        // one revolution, 2^36
  const HALF35: int := 0x4_0000_0000       // the 35-bit working word holds [-2^34, 2^34)
  const HALF29: int := 0x1000_0000         // the 29-bit inputs hold [-2^28, 2^28)

  datatype Vec = Vec(x: int, y: int, ph: int)

  /** The arctangent table of the source; entry k belongs to shift k + 1. */
  const ANGLES: seq<int> := [
    0x12e4051da, 0x09fb385b5, 0x051111d41, 0x028b0d430, 0x0145d7e15, 0x00a2f61e5, 0x00517c551,
    0x0028be534, 0x00145f2eb, 0x000a2f980, 0x000517cc1, 0x00028be60, 0x000145f30, 0x0000a2f98,
    0x0000517cc, 0x000028be6, 0x0000145f3, 0x00000a2f9, 0x00000517c, 0x0000028be, 0x00000145f,
    0x000000a2f, 0x000000517, 0x00000028b, 0x000000145, 0x0000000a2, 0x000000051, 0x000000028,
    0x000000014, 0x00000000a, 0x000000005, 0x000000002, 0x000000001, 0x000000000, 0x000000000,
    0x000000000, 0x000000000]

  /** Quadrant pre-rotation of the inputs, scaled by 16 into the working word. */
  function PreRotate(x: int, y: int): Vec {
    var ex, ey := 16 * x, 16 * y;
    if x >= 0 && y < 0 then Vec(ex - ey, ex + ey, 0xe00000000)
    else if x < 0 && y >= 0 then Vec(-ex + ey, -ex - ey, 0x600000000)
    else if x < 0 then Vec(-ex - ey, ex - ey, 0xa00000000)
    else Vec(ex + ey, -ex + ey, 0x200000000)
  }

  /** One rotation by shift k towards the x axis, by the given angle. */
  function Rotate(v: Vec, k: nat, angle: int): Vec {
    if v.y < 0
    then Vec(v.x - Asr(v.y, k), v.y + Asr(v.x, k), (v.ph - angle) % TURN)
    else Vec(v.x + Asr(v.y, k), v.y - Asr(v.x, k), (v.ph + angle) % TURN)
  }

  /** The first k rotations; rotation j shifts by j and turns by entry j - 1 of the table. */
  function Spin(v: Vec, t: seq<int>, k: nat): Vec
    requires k <= |t|
  {
    if k == 0 then v else Rotate(Spin(v, t, k - 1), k, t[k - 1])
  }

  /** The pre-rotation lands within 45 degrees of the x axis, doubles the squared
      length (besides the scale 256), and fits the working word. */
  lemma PreRotateLands(x: int, y: int)
    requires Fits(x, HALF29) && Fits(y, HALF29)
    ensures var v := PreRotate(x, y);
      && Abs(v.y) <= v.x <= 0x2_0000_0000
      && v.x * v.x + v.y * v.y == 512 * (x * x + y * y)
      && 0 <= v.ph < TURN
  {}

  // ---------------------------------------------------------- convergence

  /** |y| <= x / 2^k + k */
  predicate Near(v: Vec, k: nat) {
    v.x >= 0 && Abs(v.y) <= Asr(v.x, k) + k
  }

  lemma {:induction false} RotateConverges(v: Vec, k: nat, angle: int)
    requires k >= 1 && Near(v, k - 1)
    ensures Near(Rotate(v, k, angle), k)
    ensures Rotate(v, k, angle).x >= v.x
  {
    AsrMonotone(v.y, v.y, k);
    AsrMonotone(v.x, Rotate(v, k, angle).x, k);
  }

  /** After k rotations y has shrunk to at most x / 2^k + k, and x never decreases. */
  lemma {:induction false} SpinConverges(v: Vec, t: seq<int>, j: nat, k: nat)
    requires j <= k <= |t|
    requires Abs(v.y) <= v.x
    ensures Near(Spin(v, t, k), k)
    ensures v.x <= Spin(v, t, j).x <= Spin(v, t, k).x
  {
    if k > 0 {
      SpinConverges(v, t, if j < k then j else k - 1, k - 1);
      RotateConverges(Spin(v, t, k - 1), k, t[k - 1]);
    }
  }

  // ---------------------------------------------------------- magnitude law

  /** 2^-k */
  function Unit(k: nat): (q: real)
    ensures 0.0 < q <= 1.0
  {
    if k == 0 then 1.0 else Unit(k - 1) / 2.0
  }

  /** The squared length n after k exact rotations: n times the product of
      (1 + 4^-j) for j = 1..k. */
  function Ideal(n: real, k: nat): (g: real)
    ensures n >= 0.0 ==> g >= n
  {
    if k == 0 then n else Grow(Ideal(n, k - 1), Unit(k))
  }

  /** The squared gain of k rotations. */
  function Gain2(k: nat): (g: real)
    ensures g >= 1.0
  {
    if k == 0 then 1.0 else Grow(Gain2(k - 1), Unit(k))
  }

  lemma {:induction false} IdealScales(n: real, k: nat)
    ensures Ideal(n, k) == Times(Gain2(k), n)
  {
    if k > 0 {
      IdealScales(n, k - 1);
      GrowScales(Gain2(k - 1), n, Unit(k));
    }
  }

  /** The ideal growth of a squared length in one rotation: n * (1 + q^2). */
  function Grow(n: real, q: real): (g: real)
    ensures n >= 0.0 ==> g >= n
  {
    n * (1.0 + q * q)
  }

  function Norm2(x: real, y: real): real {
    x * x + y * y
  }

  lemma ScaleLe(f: real, a: real, b: real)
    requires f >= 0.0 && a <= b
    ensures f * a <= f * b
  {}

  /** a is the quotient q * v short of at most one unit. */
  predicate Truncates(q: real, v: real, a: real) {
    0.0 <= q * v - a <= 1.0
  }

  /** Truncating shifts lose at most one unit of the exact quotient. */
  lemma {:induction false} ShiftLoss(v: int, k: nat)
    ensures Truncates(Unit(k), v as real, Asr(v, k) as real)
  {
    if k > 0 {
      ShiftLoss(v, k - 1);
      HalfLoss(Asr(v, k - 1), Asr(v, k));
      HalveTruncates(Unit(k - 1), v as real, Asr(v, k - 1) as real, Asr(v, k) as real);
    }
  }

  lemma HalveTruncates(q: real, v: real, a: real, b: real)
    requires Truncates(q, v, a) && 0.0 <= a / 2.0 - b <= 0.5
    ensures Truncates(q / 2.0, v, b)
  {
    assert (q / 2.0) * v == (q * v) / 2.0;
  }

  lemma HalfLoss(a: int, b: int)
    requires b == a / 2
    ensures 0.0 <= a as real / 2.0 - b as real <= 0.5
  {
    assert a == 2 * b || a == 2 * b + 1;
  }

  /** An exact rotation by the tangent q scales the squared length by 1 + q^2. */
  lemma ExactRotation(x: real, y: real, q: real)
    ensures Norm2(x + q * y, y - q * x) == Grow(Norm2(x, y), q)
    ensures Norm2(x - q * y, y + q * x) == Grow(Norm2(x, y), q)
  {
    var a, b := q * x, q * y;
    assert a * a + b * b == (x * x + y * y) * (q * q);
    assert x * b == y * a;
  }

  lemma ProductNonNeg(a: real, b: real)
    requires a >= 0.0 && b >= 0.0
    ensures a * b >= 0.0
  {}

  lemma ProductBound(x: real, m: real, a: real)
    requires -m <= x <= m && -1.0 <= a <= 1.0
    ensures -m <= x * a <= m
  {
    ProductNonNeg(m - x, 1.0 + a);
    ProductNonNeg(m + x, 1.0 - a);
    ProductNonNeg(m + x, 1.0 + a);
    ProductNonNeg(m - x, 1.0 - a);
    assert (m - x) * (1.0 + a) + (m + x) * (1.0 - a) == 2.0 * m - 2.0 * (x * a);
    assert (m + x) * (1.0 + a) + (m - x) * (1.0 - a) == 2.0 * m + 2.0 * (x * a);
  }

  lemma NudgeAxis(x: real, m: real, a: real)
    requires -m <= x <= m && -1.0 <= a <= 1.0
    ensures -(2.0 * m) <= (x + a) * (x + a) - x * x <= 2.0 * m + 1.0
  {
    ProductBound(x, m, a);
    ProductBound(a, 1.0, a);
    assert (x + a) * (x + a) == x * x + 2.0 * (x * a) + a * a;
  }

  /** Moving a vector by at most one unit along each axis. */
  lemma Nudge(x: real, y: real, m: real, a: real, b: real)
    requires x >= 0.0 && -1.0 <= a <= 1.0 && -1.0 <= b <= 1.0
    requires -m <= y <= m
    ensures -(2.0 * x + 2.0 * m + 2.0) <= Norm2(x + a, y + b) - Norm2(x, y) <= 2.0 * x + 2.0 * m + 2.0
  {
    NudgeAxis(x, x, a);
    NudgeAxis(y, m, b);
  }

  function RealNorm2(v: Vec): real {
    Norm2(v.x as real, v.y as real)
  }

  /** One integer rotation misses the ideal growth by at most 2x' + 2|y'| + 2. */
  lemma RotateGrowth(v: Vec, k: nat, angle: int)
    requires k >= 1 && Near(v, k - 1)
    ensures var w := Rotate(v, k, angle);
      Misses(RealNorm2(w), Grow(RealNorm2(v), Unit(k)), 2.0 * w.x as real + 2.0 * Abs(w.y) as real + 2.0)
  {
    RotateConverges(v, k, angle);
    ShiftLoss(v.x, k);
    ShiftLoss(v.y, k);
    var w := Rotate(v, k, angle);
    RotateNudge(v.x as real, v.y as real, w.x as real, w.y as real, Abs(w.y) as real, Unit(k),
                Asr(v.x, k) as real, Asr(v.y, k) as real, v.y < 0);
  }

  /** n lies within slack of the ideal value. */
  predicate Misses(n: real, ideal: real, slack: real) {
    -slack <= n - ideal <= slack
  }

  lemma RotateNudge(x: real, y: real, x': real, y': real, m: real, q: real, a: real, b: real, below: bool)
    requires Truncates(q, x, a) && Truncates(q, y, b)
    requires if below then x' == x - b && y' == y + a else x' == x + b && y' == y - a
    requires x' >= 0.0 && -m <= y' <= m
    ensures Misses(Norm2(x', y'), Grow(Norm2(x, y), q), 2.0 * x' + 2.0 * m + 2.0)
  {
    ExactRotation(x, y, q);
    var lx, ly := q * x - a, q * y - b;
    if below {
      assert x' - ly == x - q * y && y' + lx == y + q * x;
      Nudge(x', y', m, -ly, lx);
    } else {
      assert x' + ly == x + q * y && y' - lx == y - q * x;
      Nudge(x', y', m, ly, -lx);
    }
  }

  function Times(a: real, b: real): real {
    a * b
  }

  /** What k rotations of a vector whose x never exceeds top lose to truncation. */
  function Slack(top: real, k: nat): real {
    2.0 * top + 2.0 * (Times(Unit(k), top) + k as real) + 2.0
  }

  /** The sum of the slacks of k rotations. */
  function Budget(top: real, k: nat): (b: real)
    requires top >= 0.0
    ensures b >= 0.0
  {
    if k == 0 then 0.0 else Budget(top, k - 1) + Slack(top, k)
  }

  /** Each slack grows with the rotations that follow it. */
  function Error(top: real, k: nat): real {
    if k == 0 then 0.0 else Grow(Error(top, k - 1), Unit(k)) + Slack(top, k)
  }

  lemma {:induction false} BudgetClosed(top: real, k: nat)
    requires top >= 0.0
    ensures Budget(top, k) == 2.0 * Times(k as real, top) + 2.0 * (top - Times(Unit(k), top)) + (k * k + 3 * k) as real
  {
    if k > 0 {
      BudgetClosed(top, k - 1);
      HalfTimes(Unit(k - 1), top);
      TimesSucc(k - 1, top);
    }
  }

  lemma HalfTimes(q: real, t: real)
    ensures Times(q, t) == 2.0 * Times(q / 2.0, t)
  {}

  lemma TimesSucc(k: nat, t: real)
    ensures Times((k + 1) as real, t) == Times(k as real, t) + t
    ensures ((k + 1) * (k + 1) + 3 * (k + 1)) as real == (k * k + 3 * k) as real + 2.0 * (k + 1) as real + 2.0
  {
    assert (k + 1) * (k + 1) + 3 * (k + 1) == k * k + 3 * k + 2 * (k + 1) + 2;
  }

  lemma {:induction false} ErrorBound(top: real, k: nat)
    requires top >= 0.0
    ensures Error(top, k) <= Times(Gain2(k), Budget(top, k))
  {
    if k > 0 {
      ErrorBound(top, k - 1);
      SlackNonNeg(top, k);
      ErrorBoundStep(Error(top, k - 1), Gain2(k - 1), Budget(top, k - 1), Unit(k), Slack(top, k));
    }
  }

  lemma SlackNonNeg(top: real, k: nat)
    requires top >= 0.0
    ensures Slack(top, k) >= 0.0
  {
    ProductNonNeg(Unit(k), top);
  }

  lemma GrowMonotone(a: real, b: real, q: real)
    requires a <= b
    ensures Grow(a, q) <= Grow(b, q)
  {
    ScaleLe(1.0 + q * q, a, b);
    assert Grow(a, q) == (1.0 + q * q) * a && Grow(b, q) == (1.0 + q * q) * b;
  }

  lemma TimesGrows(h: real, b: real, slack: real)
    requires h >= 1.0 && slack >= 0.0
    ensures Times(h, b) + slack <= Times(h, b + slack)
  {
    ScaleLe(slack, 1.0, h);
    assert h * (b + slack) == h * b + slack * h;
  }

  lemma ErrorBoundStep(e: real, g: real, b: real, q: real, slack: real)
    requires g >= 1.0 && b >= 0.0 && slack >= 0.0 && e <= Times(g, b)
    ensures Grow(e, q) + slack <= Times(Grow(g, q), b + slack)
  {
    GrowMonotone(e, Times(g, b), q);
    GrowScales(g, b, q);
    TimesGrows(Grow(g, q), b, slack);
  }

  lemma GrowError(n: real, ideal: real, err: real, q: real)
    requires Misses(n, ideal, err)
    ensures Misses(Grow(n, q), Grow(ideal, q), Grow(err, q))
  {
    var f := 1.0 + q * q;
    GrowIs(n, q);
    GrowIs(ideal, q);
    GrowIs(err, q);
    hide Grow;
    ScaleLe(f, n, ideal + err);
    ScaleLe(f, ideal - err, n);
    assert f * (ideal + err) == f * ideal + f * err;
    assert f * (ideal - err) == f * ideal - f * err;
  }

  lemma GrowIs(n: real, q: real)
    ensures Grow(n, q) == (1.0 + q * q) * n
  {}

  lemma GrowScales(g: real, n: real, q: real)
    ensures Grow(Times(g, n), q) == Times(Grow(g, q), n)
  {}

  lemma WithinSlack(w: Vec, k: nat, top: nat)
    requires Near(w, k) && w.x <= top
    ensures 2.0 * w.x as real + 2.0 * Abs(w.y) as real + 2.0 <= Slack(top as real, k)
  {
    ShiftLoss(w.x, k);
    ShiftBelow(Unit(k), w.x as real, top as real, Asr(w.x, k) as real);
    assert Abs(w.y) as real <= Asr(w.x, k) as real + k as real;
  }

  lemma ShiftBelow(u: real, x: real, t: real, a: real)
    requires Truncates(u, x, a) && u >= 0.0 && x <= t
    ensures a <= Times(u, t)
  {
    ScaleLe(u, x, t);
    var z := u * x;
    assert a <= z <= u * t;
  }

  /** One more rotation of u into w. */
  lemma GrowthStep(u: Vec, w: Vec, ideal: real, err: real, k: nat, angle: int, top: nat)
    requires k >= 1 && Near(u, k - 1) && w == Rotate(u, k, angle) && w.x <= top
    requires Misses(RealNorm2(u), ideal, err)
    ensures Misses(RealNorm2(w), Grow(ideal, Unit(k)), Grow(err, Unit(k)) + Slack(top as real, k))
  {
    RotateConverges(u, k, angle);
    RotateGrowth(u, k, angle);
    WithinSlack(w, k, top);
    GrowError(RealNorm2(u), ideal, err, Unit(k));
  }

  /** After k rotations the squared length is the ideal one, up to the error. */
  lemma {:induction false} SpinGrowth(v: Vec, t: seq<int>, k: nat, top: nat)
    requires k <= |t|
    requires Abs(v.y) <= v.x
    requires Spin(v, t, k).x <= top
    ensures Misses(RealNorm2(Spin(v, t, k)), Ideal(RealNorm2(v), k), Error(top as real, k))
  {
    if k > 0 {
      SpinConverges(v, t, k - 1, k);
      SpinConverges(v, t, k - 1, k - 1);
      SpinGrowth(v, t, k - 1, top);
      GrowthStep(Spin(v, t, k - 1), Spin(v, t, k), Ideal(RealNorm2(v), k - 1), Error(top as real, k - 1),
                 k, t[k - 1], top);
    }
  }

  // ---------------------------------------------------------- numeric form

  /** The squared gain of the first four rotations is 5/4 * 17/16 * 65/64 * 257/256. */
  lemma Gain2Four()
    ensures Unit(4) == 1.0 / 16.0
    ensures Gain2(4) == 1419925.0 / 1048576.0
  {
    assert Unit(1) == 1.0 / 2.0 && Unit(2) == 1.0 / 4.0 && Unit(3) == 1.0 / 8.0;
    assert Gain2(1) == 5.0 / 4.0;
    assert Gain2(2) == 85.0 / 64.0;
    assert Gain2(3) == 5525.0 / 4096.0;
  }

  predicate GainNear(g: real, q: real) {
    0.0 <= q <= 1.0 / 16.0 && 1.35590 - 0.450 * (q * q) <= g <= 1.35592 - 0.452 * (q * q)
  }

  /** The remaining rotations bring the squared gain to 1.3559, the gain to 1.1644. */
  lemma {:induction false} Gain2Tail(k: nat)
    requires k >= 4
    ensures GainNear(Gain2(k), Unit(k))
  {
    if k == 4 {
      Gain2Four();
    } else {
      Gain2Tail(k - 1);
      GainTailStep(Gain2(k - 1), Unit(k - 1), Unit(k));
    }
  }

  lemma GainTailStep(g: real, q: real, r: real)
    requires r == q / 2.0 && GainNear(g, q)
    ensures GainNear(Grow(g, r), r)
  {
    var a := r * r;
    assert q * q == 4.0 * a;
    ProductNonNeg(1.0 / 32.0 - r, 1.0 / 32.0 + r);
    assert 0.0 <= a <= 1.0 / 1024.0;
    var aa := a * a;
    ProductNonNeg(1.0 / 1024.0 - a, a);
    assert 0.0 <= aa <= a / 1024.0;
    var h := (1.0 + a) * g;
    ScaleLe(1.0 + a, g, 1.35592 - 1.808 * a);
    ScaleLe(1.0 + a, 1.35590 - 1.8 * a, g);
    assert h <= 1.35592 - 0.45208 * a - 1.808 * aa;
    assert h >= 1.35590 - 0.4441 * a - 1.8 * aa;
    assert Grow(g, r) == h;
  }

  lemma IdealBand(n: real, k: nat)
    requires n >= 0.0 && k >= 6
    ensures Times(1.3557, n) <= Ideal(n, k) <= Times(1.35592, n)
  {
    IdealScales(n, k);
    Gain2Tail(k);
    UnitSmall(k);
    GainBand(Gain2(k), Unit(k));
    TimesMonotone(1.3557, Gain2(k), n);
    TimesMonotone(Gain2(k), 1.35592, n);
  }

  lemma TimesMonotone(a: real, b: real, n: real)
    requires a <= b && n >= 0.0
    ensures Times(a, n) <= Times(b, n)
  {
    ScaleLe(n, a, b);
  }

  lemma GainBand(g: real, q: real)
    requires GainNear(g, q) && q <= 1.0 / 64.0
    ensures 1.3557 <= g <= 1.35592
  {
    ProductNonNeg(1.0 / 64.0 - q, 1.0 / 64.0 + q);
    assert (1.0 / 64.0 - q) * (1.0 / 64.0 + q) == 1.0 / 4096.0 - q * q;
    assert 0.0 <= q * q <= 1.0 / 4096.0;
  }

  lemma UnitSmall(k: nat)
    requires k >= 6
    ensures Unit(k) <= 1.0 / 64.0
  {
    if k > 6 {
      UnitSmall(k - 1);
    } else {
      assert Unit(3) == 1.0 / 8.0;
    }
  }

  lemma BudgetNumeric(top: real, k: nat)
    requires top >= 0.0 && k <= 33
    ensures Budget(top, k) <= 68.0 * top + 1188.0
  {
    BudgetClosed(top, k);
    ProductNonNeg(Unit(k), top);
    TimesMonotone(k as real, 33.0, top);
    SquareSmall(k);
  }

  lemma SquareSmall(k: nat)
    requires k <= 33
    ensures k * k + 3 * k <= 1188
  {
    MulLe(k, k, 33);
  }

  lemma ErrorNumeric(top: real, k: nat)
    requires top >= 0.0 && 6 <= k <= 33
    ensures Error(top, k) <= 93.0 * top + 1616.0
  {
    ErrorBound(top, k);
    Gain2Tail(k);
    UnitSmall(k);
    GainBand(Gain2(k), Unit(k));
    BudgetNumeric(top, k);
    TimesMonotone(Gain2(k), 1.35592, Budget(top, k));
  }

  /** The squared magnitude the rotations aim for, in units of the working word. */
  function Target(x: int, y: int): real {
    Ideal(512.0 * (x * x + y * y) as real, STAGES)
  }

  function FinalX(x: int, y: int): int {
    Spin(PreRotate(x, y), ANGLES, STAGES).x
  }

  lemma RealSquare(a: int)
    ensures (a * a) as real == a as real * a as real
  {}

  lemma PreRotateNorm(x: int, y: int)
    requires Fits(x, HALF29) && Fits(y, HALF29)
    ensures RealNorm2(PreRotate(x, y)) == 512.0 * (x * x + y * y) as real
  {
    PreRotateLands(x, y);
    var v := PreRotate(x, y);
    RealSquare(v.x);
    RealSquare(v.y);
    assert (v.x * v.x) as real + (v.y * v.y) as real == (v.x * v.x + v.y * v.y) as real;
  }

  /** w is the true magnitude, the root of t, within half an output unit (one output
      unit is 256 units of the working word). */
  predicate MagnitudeNear(w: real, t: real) {
    && w >= 0.0
    && t <= (w + 64.0) * (w + 64.0)
    && (w >= 128.0 ==> (w - 128.0) * (w - 128.0) <= t)
  }

  lemma ErrorToBand(x: real, y: real, t: real, e: real)
    requires Misses(Norm2(x, y), t, e)
    requires x >= 0.0 && -34.0 <= y <= 34.0
    requires e <= 93.0 * x + 1616.0
    ensures MagnitudeNear(x, t)
  {
    ProductNonNeg(34.0 - y, 34.0 + y);
    assert (34.0 - y) * (34.0 + y) == 1156.0 - y * y;
    assert 0.0 <= y * y <= 1156.0;
    assert (x + 64.0) * (x + 64.0) == x * x + 128.0 * x + 4096.0;
    assert (x - 128.0) * (x - 128.0) == x * x - 256.0 * x + 16384.0;
  }

  lemma BoundByEnergy(x: real, y: real, t: real, e: real)
    requires Misses(Norm2(x, y), t, e)
    requires x >= 0.0 && e <= 93.0 * x + 1616.0
    requires t <= 1.36 * 73786976294838206464.0
    ensures x <= 10100000000.0
  {
    var h := 10100000000.0;
    assert x >= h ==> x * x >= h * x by { if x >= h { ScaleLe(x, h, x); } }
    assert y * y >= 0.0;
  }

  lemma {:induction false} AsrSmall(v: int, k: nat, j: nat)
    requires j <= k && 0 <= v < 2 * Pow2(j)
    ensures Asr(v, k) <= 1
  {
    AsrFloor(v, k);
    AsrMonotone(0, v, k);
    Pow2Grows(j, k);
    MulLe(Pow2(k), 2, Asr(v, k));
  }

  lemma {:induction false} Pow2Grows(j: nat, k: nat)
    requires j <= k
    ensures Pow2(j) <= Pow2(k)
  {
    if j < k {
      Pow2Grows(j, k - 1);
    }
  }

  lemma FinalShift(x: int, k: nat)
    requires k == 33 && 0 <= x < 0x4_0000_0000
    ensures Asr(x, k) <= 1
  {
    assert Pow2(11) == 0x800;
    assert Pow2(22) == 0x40_0000;
    assert Pow2(33) == 0x2_0000_0000;
    AsrSmall(x, 33, 33);
  }

  lemma SpinBand(v: Vec, t: seq<int>, k: nat)
    requires k == 33 <= |t|
    requires Abs(v.y) <= v.x
    requires RealNorm2(v) <= 73786976294838206464.0
    ensures MagnitudeNear(Spin(v, t, k).x as real, Ideal(RealNorm2(v), k))
    ensures 0 <= Spin(v, t, k).x <= 10100000000
    ensures Abs(Spin(v, t, k).y) <= 34
  {
    SpinConverges(v, t, 0, k);
    SpinGrowth(v, t, k, Spin(v, t, k).x);
    FinalBand(Spin(v, t, k), RealNorm2(v), k);
  }

  lemma FinalBand(w: Vec, n: real, k: nat)
    requires k == 33 && Near(w, k) && 0.0 <= n <= 73786976294838206464.0
    requires Misses(RealNorm2(w), Ideal(n, k), Error(w.x as real, k))
    ensures MagnitudeNear(w.x as real, Ideal(n, k))
    ensures 0 <= w.x <= 10100000000
    ensures Abs(w.y) <= 34
  {
    var x, y := w.x as real, w.y as real;
    ErrorNumeric(x, k);
    IdealBand(n, k);
    BoundByEnergy(x, y, Ideal(n, k), Error(x, k));
    FinalShift(w.x, k);
    ErrorToBand(x, y, Ideal(n, k), Error(x, k));
  }

  /** The magnitude law. Over all 29-bit inputs the final x is the true magnitude, the root
      of 1.3559 * 512 * (x^2 + y^2), within half an output unit; the residual y is at
      most 34. */
  lemma MagnitudeLaw(x: int, y: int)
    requires Fits(x, HALF29) && Fits(y, HALF29)
    ensures MagnitudeNear(FinalX(x, y) as real, Target(x, y))
    ensures Times(1.3557 * 512.0, (x * x + y * y) as real) <= Target(x, y)
    ensures Target(x, y) <= Times(1.35592 * 512.0, (x * x + y * y) as real)
    ensures 0 <= FinalX(x, y) <= 10100000000
    ensures Abs(Spin(PreRotate(x, y), ANGLES, STAGES).y) <= 34
  {
    PreRotateLands(x, y);
    PreRotateNorm(x, y);
    SquareOfInput(x);
    SquareOfInput(y);
    SpinBand(PreRotate(x, y), ANGLES, STAGES);
    IdealBand(512.0 * (x * x + y * y) as real, STAGES);
  }

  lemma SquareOfInput(x: int)
    requires Fits(x, HALF29)
    ensures 0 <= x * x <= HALF29 * HALF29
  {
    MulLe(Abs(x), Abs(x), HALF29);
    assert Abs(x) * Abs(x) == x * x;
  }

  /** No working value leaves the signed 35-bit word, whatever the input. */
  lemma WordsFit(x: int, y: int, k: nat)
    requires Fits(x, HALF29) && Fits(y, HALF29) && k <= STAGES
    ensures var v := Spin(PreRotate(x, y), ANGLES, k); Fits(v.x, HALF35) && Fits(v.y, HALF35)
  {
    PreRotateLands(x, y);
    MagnitudeLaw(x, y);
    var v := PreRotate(x, y);
    SpinConverges(v, ANGLES, k, STAGES);
    SpinConverges(v, ANGLES, k, k);
    AsrBelow(Spin(v, ANGLES, k).x, k);
  }

  lemma {:induction false} AsrBelow(v: int, k: nat)
    requires v >= 0
    ensures 0 <= Asr(v, k) <= v
    ensures k >= 1 ==> 2 * Asr(v, k) <= v
  {
    if k > 0 {
      AsrBelow(v, k - 1);
    }
  }

  // ---------------------------------------------------------- output stage

  /** The output word: x plus 255 (or 256 when bit 9 is set), bits 33 down to 8 of the sum. */
  function OutMag(x: int): int {
    var sum := Signed(x + (if (x / 512) % 2 == 1 then 256 else 255), HALF35);
    Signed(sum / 256, 0x200_0000)
  }

  /** The top 26 of the 36 angle bits. */
  function OutPhase(ph: int): int {
    ph / 1024
  }

  /** The slice rounds up to the next output unit; it reads as negative exactly when the
      word has outgrown 33 bits. */
  lemma OutMagRounds(x: int)
    requires 0 <= x <= 10100000000
    ensures OutMag(x) >= 0 <==> x + 256 < 0x2_0000_0000
    ensures OutMag(x) >= 0 ==> x <= 256 * OutMag(x) <= x + 256
  {}

  /** The exact output: the least unit not below x, or, in every second block of 256 values, the
      least unit above x. The two differ on the multiples of 256 only. */
  lemma OutMagExact(x: int)
    requires 0 <= x && x + 256 < 0x2_0000_0000
    ensures var up := (x / 512) % 2 == 1;
      256 * (OutMag(x) - 1) < x + (if up then 1 else 0) <= 256 * OutMag(x)
  {
    var sum := x + (if (x / 512) % 2 == 1 then 256 else 255);
    DivFloor(sum, 256);
  }

  lemma ProductPositive(a: real, b: real)
    requires a > 0.0 && b > 0.0
    ensures a * b > 0.0
  {}

  lemma SquareOrder(a: real, b: real)
    requires a >= 0.0 && b >= 0.0
    ensures a <= b <==> a * a <= b * b
  {
    assert a * a - b * b == (a - b) * (a + b);
    if a > b {
      ProductPositive(a - b, a + b);
    } else {
      ProductNonNeg(b - a, a + b);
      assert (b - a) * (a + b) == -((a - b) * (a + b));
    }
  }

  /** 256 times the published word lies within one and a half output units of the true
      magnitude. */
  predicate PublishedNear(w: real, t: real) {
    && t <= (w + 64.0) * (w + 64.0)
    && (w >= 384.0 ==> (w - 384.0) * (w - 384.0) <= t)
  }

  lemma WidenBand(x: real, w: real, t: real)
    requires MagnitudeNear(x, t) && x <= w <= x + 256.0
    ensures PublishedNear(w, t)
  {
    SquareOrder(x + 64.0, w + 64.0);
    assert t <= (w + 64.0) * (w + 64.0);
    if w >= 384.0 {
      SquareOrder(w - 384.0, x - 128.0);
      assert (w - 384.0) * (w - 384.0) <= (x - 128.0) * (x - 128.0) <= t;
    }
  }

  lemma MagnitudeThreshold(x: real, t: real)
    requires MagnitudeNear(x, t)
    ensures t <= 73786969000000000000.0 ==> x + 256.0 < 8589934592.0
    ensures t >= 73786980000000000000.0 ==> x + 256.0 >= 8589934592.0
  {
    if x >= 128.0 {
      SquareOrder(x - 128.0, 8589934207.0);
    }
    SquareOrder(8589934592.0, x + 64.0);
  }

  lemma CeilingReal(x: real, t: real)
    requires MagnitudeNear(x, t)
    ensures t <= 50000000000000000000.0 ==> x <= 7200000000.0
  {
    if x >= 128.0 {
      SquareOrder(x - 128.0, 7199999872.0);
    }
  }

  /** Inputs of squared length up to 7.2e16 give magnitudes of at most 28125001. */
  lemma MagnitudeCeiling(x: int, y: int)
    requires Fits(x, HALF29) && Fits(y, HALF29) && x * x + y * y <= 72000000000000000
    ensures OutMag(FinalX(x, y)) <= 28125001
  {
    MagnitudeLaw(x, y);
    CeilingReal(FinalX(x, y) as real, Target(x, y));
    OutMagRounds(FinalX(x, y));
  }

  /** The published magnitude is gain * |(x, y)| with gain 0.103: it lies within one and a
      half units of the true one whenever it is not negative. Inputs no longer than
      326000000 always get such a magnitude; beyond 326050000 the word has wrapped. */
  lemma PublishedMagnitude(x: int, y: int)
    requires Fits(x, HALF29) && Fits(y, HALF29)
    ensures var m := OutMag(FinalX(x, y));
      m >= 0 ==> PublishedNear(256.0 * m as real, Target(x, y))
    ensures x * x + y * y <= 326000000 * 326000000 ==> OutMag(FinalX(x, y)) >= 0
    ensures x * x + y * y >= 326050000 * 326050000 ==> OutMag(FinalX(x, y)) < 0
  {
    MagnitudeLaw(x, y);
    var f := FinalX(x, y);
    OutMagRounds(f);
    var m := OutMag(f);
    if m >= 0 {
      WidenBand(f as real, 256.0 * m as real, Target(x, y));
    }
    MagnitudeThreshold(f as real, Target(x, y));
  }

  /** Full-scale inputs do wrap: both sums at their largest 29-bit value, at length 379625060,
      publish a negative magnitude. */
  lemma FullScaleWraps()
    ensures var m := 0x1000_0000 - 1;
      Fits(m, HALF29) && OutMag(FinalX(m, m)) < 0
  {
    hide FinalX, OutMag;
    PublishedMagnitude(0x1000_0000 - 1, 0x1000_0000 - 1);
  }

  // ---------------------------------------------------------- phase

  /** The vector with its angle advanced. */
  function Advanced(v: Vec, d: int): Vec {
    v.(ph := (v.ph + d) % TURN)
  }

  lemma ModSwap(ph: int, d: int, a: int)
    ensures ((ph + d) % TURN + a) % TURN == ((ph + a) % TURN + d) % TURN
  {}

  lemma RotateAdvanced(v: Vec, d: int, k: nat, angle: int)
    ensures Rotate(Advanced(v, d), k, angle) == Advanced(Rotate(v, k, angle), d)
  {
    ModSwap(v.ph, d, angle);
    ModSwap(v.ph, d, -angle);
  }

  /** An offset of the starting angle passes through all rotations unchanged. */
  lemma {:induction false} SpinAdvanced(v: Vec, d: int, t: seq<int>, k: nat)
    requires k <= |t|
    ensures Spin(Advanced(v, d), t, k) == Advanced(Spin(v, t, k), d)
  {
    if k > 0 {
      SpinAdvanced(v, d, t, k - 1);
      RotateAdvanced(Spin(v, t, k - 1), d, k, t[k - 1]);
    }
  }

  const QUARTER: int := TURN / 4

  /** The three other quadrants differ from the first one in the starting angle only: by one, two
      and three quarter turns. */
  lemma PreRotateQuarters(x: int, y: int)
    ensures 0 <= x && 0 < y ==> PreRotate(-y, x) == Advanced(PreRotate(x, y), QUARTER)
    ensures 0 < x && 0 < y ==> PreRotate(-x, -y) == Advanced(PreRotate(x, y), 2 * QUARTER)
    ensures 0 < x && 0 <= y ==> PreRotate(y, -x) == Advanced(PreRotate(x, y), 3 * QUARTER)
  {}

  /** What is published of a conversion: magnitude and phase. */
  function Polar(x: int, y: int): (int, int) {
    (OutMag(FinalX(x, y)), OutPhase(Spin(PreRotate(x, y), ANGLES, STAGES).ph))
  }

  /** So many quarter turns added to a published pair. */
  function Turned(p: (int, int), quarters: nat): (int, int) {
    (p.0, (p.1 + 0x100_0000 * quarters) % 0x400_0000)
  }

  lemma PhaseAdvanced(ph: int, quarters: nat)
    requires 0 <= ph < TURN && quarters <= 3
    ensures OutPhase((ph + quarters * QUARTER) % TURN) == (OutPhase(ph) + 0x100_0000 * quarters) % 0x400_0000
  {
    var sum := ph + quarters * QUARTER;
    assert sum / 1024 == ph / 1024 + 0x100_0000 * quarters;
    if sum < TURN {
      assert sum % TURN == sum && sum / 1024 < 0x400_0000;
    } else {
      assert sum % TURN == sum - TURN && (sum - TURN) / 1024 == sum / 1024 - 0x400_0000;
    }
  }

  lemma {:induction false} PhaseInTurn(v: Vec, t: seq<int>, k: nat)
    requires k <= |t| && 0 <= v.ph < TURN
    ensures 0 <= Spin(v, t, k).ph < TURN
  {
    if k > 0 {
      PhaseInTurn(v, t, k - 1);
    }
  }

  lemma PolarAdvanced(x: int, y: int, x': int, y': int, quarters: nat)
    requires quarters <= 3 && PreRotate(x', y') == Advanced(PreRotate(x, y), quarters * QUARTER)
    ensures Polar(x', y') == Turned(Polar(x, y), quarters)
  {
    hide OutMag, OutPhase;
    var v := PreRotate(x, y);
    SpinAdvanced(v, quarters * QUARTER, ANGLES, STAGES);
    PhaseInTurn(v, ANGLES, STAGES);
    PhaseAdvanced(Spin(v, ANGLES, STAGES).ph, quarters);
  }

  /** The quarter-turn law: turning the input vector by a quarter, half or three quarters of a
      revolution leaves the published magnitude and turns the published phase by just that. */
  lemma QuarterTurns(x: int, y: int)
    ensures 0 <= x && 0 < y ==> Polar(-y, x) == Turned(Polar(x, y), 1)
    ensures 0 < x && 0 < y ==> Polar(-x, -y) == Turned(Polar(x, y), 2)
    ensures 0 < x && 0 <= y ==> Polar(y, -x) == Turned(Polar(x, y), 3)
  {
    hide PreRotate, Polar, Turned;
    PreRotateQuarters(x, y);
    if 0 <= x && 0 < y {
      PolarAdvanced(x, y, -y, x, 1);
    }
    if 0 < x && 0 < y {
      PolarAdvanced(x, y, -x, -y, 2);
    }
    if 0 < x && 0 <= y {
      PolarAdvanced(x, y, y, -x, 3);
    }
  }

  /** The sum of the first k angles of the table. */
  function AngleSum(t: seq<int>, k: nat): int
    requires k <= |t|
  {
    if k == 0 then 0 else AngleSum(t, k - 1) + t[k - 1]
  }

  lemma ModAdd(a: int, b: int)
    ensures (a % TURN + b) % TURN == (a + b) % TURN
  {}

  /** An anchor: the zero vector counts as above the axis at every shift, so all angles add up. */
  lemma {:induction false} ZeroPhase(t: seq<int>, k: nat)
    requires k <= |t|
    ensures Spin(PreRotate(0, 0), t, k) == Vec(0, 0, (0x2_0000_0000 + AngleSum(t, k)) % TURN)
  {
    if k > 0 {
      ZeroPhase(t, k - 1);
      AsrZero(k);
      ModAdd(0x2_0000_0000 + AngleSum(t, k - 1), t[k - 1]);
    }
  }

  lemma {:induction false} AsrZero(k: nat)
    ensures Asr(0, k) == 0 && Asr(-1, k) == -1
  {
    if k > 0 {
      AsrZero(k - 1);
    }
  }

  /** The vector (1, 1) from the sixth rotation on: one unit below the axis. */
  lemma {:induction false} UnitDiagonal(t: seq<int>, k: nat)
    requires 6 <= k <= STAGES <= |t|
    ensures Spin(PreRotate(1, 1), t, k) == Vec(34 + k, -1, (0x2_0000_0000 + 2 * t[0] - AngleSum(t, k)) % TURN)
  {
    if k == 6 {
      DiagonalStart(t);
    } else {
      UnitDiagonal(t, k - 1);
      AsrZero(k);
      AsrOfSmall(33 + k, k);
      ModAdd(0x2_0000_0000 + 2 * t[0] - AngleSum(t, k - 1), -t[k - 1]);
    }
  }

  lemma DiagonalStart(t: seq<int>)
    requires |t| >= STAGES
    ensures Spin(PreRotate(1, 1), t, 6) == Vec(40, -1, (0x2_0000_0000 + 2 * t[0] - AngleSum(t, 6)) % TURN)
  {
    var v, base := PreRotate(1, 1), 0x2_0000_0000;
    DiagonalAsr();
    assert Spin(v, t, 1) == Vec(32, -16, (base + t[0]) % TURN);
    ModAdd(base + t[0], -t[1]);
    assert Spin(v, t, 2) == Vec(36, -8, (base + t[0] - t[1]) % TURN);
    ModAdd(base + t[0] - t[1], -t[2]);
    assert Spin(v, t, 3) == Vec(37, -4, (base + t[0] - t[1] - t[2]) % TURN);
    ModAdd(base + t[0] - t[1] - t[2], -t[3]);
    assert Spin(v, t, 4) == Vec(38, -2, (base + t[0] - t[1] - t[2] - t[3]) % TURN);
    ModAdd(base + t[0] - t[1] - t[2] - t[3], -t[4]);
    assert Spin(v, t, 5) == Vec(39, -1, (base + t[0] - t[1] - t[2] - t[3] - t[4]) % TURN);
    ModAdd(base + t[0] - t[1] - t[2] - t[3] - t[4], -t[5]);
    SumOfSix(t);
  }

  lemma SumOfSix(t: seq<int>)
    requires |t| >= 6
    ensures AngleSum(t, 6) == t[0] + t[1] + t[2] + t[3] + t[4] + t[5]
  {
    assert AngleSum(t, 1) == t[0];
    assert AngleSum(t, 2) == t[0] + t[1];
    assert AngleSum(t, 4) == AngleSum(t, 2) + t[2] + t[3];
  }

  lemma DiagonalAsr()
    ensures Asr(0, 1) == 0 && Asr(32, 1) == 16 && Asr(-16, 2) == -4 && Asr(32, 2) == 8
    ensures Asr(-8, 3) == -1 && Asr(36, 3) == 4 && Asr(-4, 4) == -1 && Asr(37, 4) == 2
    ensures Asr(-2, 5) == -1 && Asr(38, 5) == 1 && Asr(-1, 6) == -1 && Asr(39, 6) == 0
  {}

  /** Two anchors of the published phase: for the zero vector an eighth of a turn and all table
      angles, for (1, 1) an eighth of a turn and the first angle less all the others. */
  lemma Anchors()
    ensures Polar(0, 0).1 == OutPhase((TURN / 8 + AngleSum(ANGLES, STAGES)) % TURN)
    ensures Polar(1, 1).1 == OutPhase((TURN / 8 + 2 * ANGLES[0] - AngleSum(ANGLES, STAGES)) % TURN)
  {
    hide Spin, PreRotate, AngleSum, FinalX, OutMag, OutPhase;
    ZeroPhase(ANGLES, STAGES);
    UnitDiagonal(ANGLES, STAGES);
  }

  lemma AsrOfSmall(v: int, k: nat)
    requires 0 <= v <= 66 && k >= 7
    ensures Asr(v, k) == 0
  {
    AsrFloor(v, k);
    PowAtLeast(k);
  }

  lemma {:induction false} PowAtLeast(k: nat)
    requires k >= 7
    ensures Pow2(k) >= 128
  {
    if k == 7 {
      assert Pow2(0) == 1 && Pow2(1) == 2 && Pow2(2) == 4 && Pow2(3) == 8 && Pow2(4) == 16 && Pow2(5) == 32;
    } else {
      PowAtLeast(k - 1);
    }
  }
}
