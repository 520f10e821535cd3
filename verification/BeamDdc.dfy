/** The down-converter of beam_ddc.vhd: mix, filter, accumulate per turn, convert to
    magnitude and phase. */
module BeamDdc {
  import opened Bits
  import F = FirLpDdc
  import C = Cordic
  import P = SeqPolar

  const HALF32: int := 0x8000_0000
  const HALF16: int := 0x8000
  const UNITY: int := 0x1_0000
  const PEAK: int := 0x40_0000        // filtered samples lie in [-2^22, 2^22]
  const MAX_TURN: nat := 310          // clocks per turn

  /** One clock of inputs; ext are the samples of the alternative filter. */
  datatype In = In(rst: bool, trig: bool, sel: bool, din: int, sine: int, cos: int, extI: int, extQ: int)

  /** One of the two quadrature arms. */
  datatype Arm = Arm(raw: int, fir: F.Regs, filt: int, acc: int, sum: int)

  datatype Regs = Regs(i: Arm, q: Arm, polar: P.Regs)

  function NextArm(a: Arm, rst: bool, trig: bool, sel: bool, product: int, ext: int): Arm {
    Arm(
      product,
      F.Next(a.fir, rst, a.raw / UNITY),
      if sel then ext else a.fir.dout,
      if rst || trig then 0 else Signed(a.acc + a.filt, HALF32),
      if rst then 0 else if trig then a.acc else a.sum)
  }

  /** What the converter sees: the sums of the turn before, cut to 29 bits. */
  function PolarIn(s: Regs, i: In): P.In {
    P.In(i.rst, i.trig, s.i.sum / 8, s.q.sum / 8, false)
  }

  function Next(s: Regs, i: In): Regs {
    Regs(
      NextArm(s.i, i.rst, i.trig, i.sel, i.din * i.cos, i.extI),
      NextArm(s.q, i.rst, i.trig, i.sel, i.din * i.sine, i.extQ),
      P.Next(s.polar, PolarIn(s, i)))
  }

  function Magnitude(s: Regs): int {
    64 * s.polar.mag
  }

  /** The phase word: the 26 published bits above six zeros, read as a signed 32-bit number. */
  function Phase(s: Regs): int {
    Signed(64 * s.polar.phase, HALF32)
  }

  predicate Ranged(i: In) {
    Fits(i.din, 0x80_0000) && Fits(i.sine, HALF16) && Fits(i.cos, HALF16)
  }

  /** The down-converter object. */
  class Converter {
    var raw: (int, int)
    var firI: F.Regs
    var firQ: F.Regs
    var filt: (int, int)
    var acc: (int, int)
    var sum: (int, int)
    var polar: P.Regs

    ghost function View(): Regs
      reads this
    {
      Regs(Arm(raw.0, firI, filt.0, acc.0, sum.0), Arm(raw.1, firQ, filt.1, acc.1, sum.1), polar)
    }

    constructor ()
      ensures View() == Cleared()
    {
      raw, filt, acc, sum := (0, 0), (0, 0), (0, 0), (0, 0);
      firI, firQ := F.Regs(0, 0, 0, 0, 0, 0, 0), F.Regs(0, 0, 0, 0, 0, 0, 0);
      polar := P.Power();
    }

    method Clock(i: In)
      modifies this
      ensures View() == Next(old(View()), i)
    {
      polar := P.Next(polar, P.In(i.rst, i.trig, sum.0 / 8, sum.1 / 8, false));
      if i.rst {
        sum, acc := (0, 0), (0, 0);
      } else if i.trig {
        sum, acc := acc, (0, 0);
      } else {
        acc := (Signed(acc.0 + filt.0, HALF32), Signed(acc.1 + filt.1, HALF32));
      }
      filt := if i.sel then (i.extI, i.extQ) else (firI.dout, firQ.dout);
      firI, firQ := F.Next(firI, i.rst, raw.0 / UNITY), F.Next(firQ, i.rst, raw.1 / UNITY);
      raw := (i.din * i.cos, i.din * i.sine);
    }
  }

  function ClearedArm(): Arm {
    Arm(0, F.Regs(0, 0, 0, 0, 0, 0, 0), 0, 0, 0)
  }

  function Cleared(): Regs {
    Regs(ClearedArm(), ClearedArm(), P.Power())
  }

  function At(ins: nat -> In, n: nat): Regs {
    if n == 0 then Cleared() else Next(At(ins, n - 1), ins(n - 1))
  }

  /** No reset, the 4-tap filter selected, inputs within their widths. */
  predicate Plain(ins: nat -> In, n: nat) {
    forall k :: 0 <= k < n ==> !ins(k).rst && !ins(k).sel && Ranged(ins(k))
  }

  // ------------------------------------------------------------- sample bounds

  lemma MixFits(din: int, w: int)
    requires Fits(din, 0x80_0000) && Fits(w, HALF16)
    ensures -0x40_0000_0000 <= din * w <= 0x40_0000_0000
  {
    MulLe(Abs(din), Abs(w), HALF16);
    assert Abs(din * w) == Abs(din) * Abs(w);
  }

  predicate Within(v: int, m: int) {
    -m <= v <= m
  }

  /** No register of an arm up to the filtered sample ever exceeds these bounds, so none wraps. */
  predicate Bounded(a: Arm) {
    Within(a.raw, 0x40_0000_0000) && FirWithin(a.fir) && Within(a.filt, PEAK)
  }

  predicate FirWithin(s: F.Regs) {
    && Within(s.outer, F.C0 * PEAK) && Within(s.inner, F.C1 * PEAK)
    && Within(s.sum0, F.C0 * PEAK) && Within(s.sum1, (F.C0 + F.C1) * PEAK)
    && Within(s.sum2, (F.C0 + 2 * F.C1) * PEAK) && Within(s.sum3, UNITY * PEAK)
    && Within(s.dout, PEAK)
  }

  lemma BoundedNext(a: Arm, trig: bool, product: int, ext: int)
    requires Bounded(a) && Within(product, 0x40_0000_0000)
    ensures Bounded(NextArm(a, false, trig, false, product, ext))
  {
    FirBounded(a.fir, a.raw / UNITY);
    hide F.Next;
  }

  lemma FirBounded(s: F.Regs, din: int)
    requires Within(din, PEAK) && FirWithin(s)
    ensures FirWithin(F.Next(s, false, din))
  {
    FirSums(s, din);
    FirTaps(s, din);
    hide F.Next;
  }

  lemma FirTaps(s: F.Regs, din: int)
    requires Within(din, PEAK) && FirWithin(s)
    ensures var t := F.Next(s, false, din);
      && Within(t.outer, F.C0 * PEAK) && Within(t.inner, F.C1 * PEAK) && Within(t.sum0, F.C0 * PEAK)
      && Within(t.dout, PEAK)
  {}

  lemma FirSums(s: F.Regs, din: int)
    requires FirWithin(s)
    ensures var t := F.Next(s, false, din);
      && Within(t.sum1, (F.C0 + F.C1) * PEAK) && Within(t.sum2, (F.C0 + 2 * F.C1) * PEAK)
      && Within(t.sum3, UNITY * PEAK)
  {}

  // ------------------------------------------------------------- filtered samples

  datatype Side = InPhase | Quadrature

  function ArmAt(ins: nat -> In, side: Side, n: nat): Arm {
    if side.InPhase? then At(ins, n).i else At(ins, n).q
  }

  function Product(i: In, side: Side): int {
    i.din * (if side.InPhase? then i.cos else i.sine)
  }

  /** The mixed samples of an arm, cut to 24 bits, as its filter takes them. */
  function Mixed(ins: nat -> In, side: Side): nat -> int {
    (k: nat) => ArmAt(ins, side, k).raw / UNITY
  }

  lemma ArmStep(ins: nat -> In, side: Side, n: nat)
    requires n >= 1
    ensures var i := ins(n - 1);
      ArmAt(ins, side, n) == NextArm(ArmAt(ins, side, n - 1), i.rst, i.trig, i.sel, Product(i, side),
                                     if side.InPhase? then i.extI else i.extQ)
  {
    hide NextArm, P.Next;
  }

  lemma ArmStart(ins: nat -> In, side: Side)
    ensures ArmAt(ins, side, 0) == ClearedArm()
  {}

  lemma {:induction false} BoundedAt(ins: nat -> In, side: Side, n: nat)
    requires Plain(ins, n)
    ensures Bounded(ArmAt(ins, side, n))
  {
    hide ArmAt, NextArm;
    if n == 0 {
      ArmStart(ins, side);
    } else {
      BoundedAt(ins, side, n - 1);
      var i := ins(n - 1);
      MixFits(i.din, if side.InPhase? then i.cos else i.sine);
      ArmStep(ins, side, n);
      BoundedNext(ArmAt(ins, side, n - 1), i.trig, Product(i, side), if side.InPhase? then i.extI else i.extQ);
    }
  }

  lemma {:induction false} FirRuns(ins: nat -> In, side: Side, n: nat)
    requires Plain(ins, n)
    ensures ArmAt(ins, side, n).fir == F.At(ClearedArm().fir, Mixed(ins, side), n)
  {
    hide ArmAt, F.Next;
    if n == 0 {
      ArmStart(ins, side);
    } else {
      FirRuns(ins, side, n - 1);
      ArmStep(ins, side, n);
    }
  }

  /** A mixed sample: the product with the local oscillator, divided by 2^16 and floored. */
  function Mix(i: In, side: Side): int {
    Product(i, side) / UNITY
  }

  lemma MixedIs(ins: nat -> In, side: Side, k: nat)
    requires k >= 1
    ensures Mixed(ins, side)(k) == Mix(ins(k - 1), side)
  {
    hide ArmAt, Product;
    ArmStep(ins, side, k);
  }

  lemma MixedInRange(ins: nat -> In, side: Side, n: nat)
    requires Plain(ins, n)
    ensures F.InRange(Mixed(ins, side), n)
  {
    hide ArmAt;
    forall k | 0 <= k < n
      ensures Fits(Mixed(ins, side)(k), F.HALF24)
    {
      BoundedAt(ins, side, k);
    }
  }

  /** The sample accumulated at clock n, in either arm, is the 4-tap filter of the four mixed
      samples that entered five to eight clocks before. */
  lemma FilteredSample(ins: nat -> In, side: Side, n: nat)
    requires n >= 8 && Plain(ins, n)
    ensures ArmAt(ins, side, n).filt
         == F.Direct(Mix(ins(n - 5), side), Mix(ins(n - 6), side), Mix(ins(n - 7), side), Mix(ins(n - 8), side))
  {
    hide ArmAt, F.Next, F.At, F.Direct, Mix;
    MixedInRange(ins, side, n);
    FirRuns(ins, side, n - 1);
    F.TransposedIsDirect(ClearedArm().fir, Mixed(ins, side), n - 1);
    MixedIs(ins, side, n - 4);
    MixedIs(ins, side, n - 5);
    MixedIs(ins, side, n - 6);
    MixedIs(ins, side, n - 7);
    ArmStep(ins, side, n);
  }

  /** With the alternative filter selected its output is accumulated instead, one clock later. */
  lemma ExternalSample(ins: nat -> In, side: Side, n: nat)
    requires n >= 1 && ins(n - 1).sel
    ensures ArmAt(ins, side, n).filt == if side.InPhase? then ins(n - 1).extI else ins(n - 1).extQ
  {
    hide ArmAt;
    ArmStep(ins, side, n);
  }

  // ------------------------------------------------------------- turn sums

  /** The sum of an arm's filtered samples at clocks from .. to - 1. */
  function TurnTotal(ins: nat -> In, side: Side, from: nat, to: nat): int {
    if to <= from then 0 else TurnTotal(ins, side, from, to - 1) + ArmAt(ins, side, to - 1).filt
  }

  predicate NoTrigger(ins: nat -> In, from: nat, to: nat) {
    forall k :: from <= k < to ==> !ins(k).trig
  }

  /** Between triggers the accumulators hold the plain sums: a turn of at most 310 clocks
      cannot wrap them. */
  lemma {:induction false} AccAt(ins: nat -> In, side: Side, p: nat, n: nat)
    requires Plain(ins, n) && p < n && ins(p).trig && NoTrigger(ins, p + 1, n) && n - p <= MAX_TURN
    ensures var acc := ArmAt(ins, side, n).acc;
      acc == TurnTotal(ins, side, p + 1, n) && Within(acc, (n - p - 1) * PEAK)
  {
    hide ArmAt, Bounded, F.Next, Product;
    ArmStep(ins, side, n);
    if n > p + 1 {
      AccAt(ins, side, p, n - 1);
      BoundedAt(ins, side, n - 1);
      AccNext(ArmAt(ins, side, n - 1), n - p - 2);
    }
  }

  lemma AccNext(a: Arm, k: nat)
    requires Bounded(a) && k < MAX_TURN && Within(a.acc, k * PEAK)
    ensures Signed(a.acc + a.filt, HALF32) == a.acc + a.filt && Within(a.acc + a.filt, (k + 1) * PEAK)
  {}

  predicate Consecutive(ins: nat -> In, p: nat, t: nat) {
    p < t && ins(p).trig && ins(t).trig && NoTrigger(ins, p + 1, t)
  }

  /** A trigger latches the sum of the samples strictly between it and the one before. */
  lemma TurnSum(ins: nat -> In, side: Side, p: nat, t: nat)
    requires Plain(ins, t + 1) && Consecutive(ins, p, t) && t - p <= MAX_TURN
    ensures ArmAt(ins, side, t + 1).sum == TurnTotal(ins, side, p + 1, t)
    ensures Within(TurnTotal(ins, side, p + 1, t), 309 * PEAK)
  {
    hide ArmAt, F.Next, TurnTotal, Product;
    AccAt(ins, side, p, t);
    ArmStep(ins, side, t + 1);
  }

  /** The latched sum stays until the next trigger. */
  lemma {:induction false} SumHolds(ins: nat -> In, side: Side, p: nat, n: nat)
    requires Plain(ins, n) && p < n && NoTrigger(ins, p + 1, n)
    ensures ArmAt(ins, side, n).sum == ArmAt(ins, side, p + 1).sum
  {
    hide ArmAt, F.Next, Product;
    if n > p + 1 {
      SumHolds(ins, side, p, n - 1);
      ArmStep(ins, side, n);
    }
  }

  /** The sums always fit their 32-bit registers, so the converter sees 29-bit words. */
  lemma {:induction false} SumsFit(ins: nat -> In, side: Side, n: nat)
    ensures Fits(ArmAt(ins, side, n).acc, HALF32) && Fits(ArmAt(ins, side, n).sum, HALF32)
  {
    hide ArmAt, F.Next, Product;
    if n == 0 {
      ArmStart(ins, side);
    } else {
      SumsFit(ins, side, n - 1);
      ArmStep(ins, side, n);
    }
  }

  // ------------------------------------------------------------- magnitudes

  /** The converter input stream of a run. */
  function PolarIns(ins: nat -> In): nat -> P.In {
    (k: nat) => PolarIn(At(ins, k), ins(k))
  }

  lemma PolarStep(ins: nat -> In, n: nat)
    requires n >= 1
    ensures At(ins, n).polar == P.Next(At(ins, n - 1).polar, PolarIn(At(ins, n - 1), ins(n - 1)))
  {
    hide P.Next, NextArm;
  }

  lemma {:induction false} PolarRuns(ins: nat -> In, n: nat)
    ensures At(ins, n).polar == P.At(P.Power(), PolarIns(ins), n)
  {
    hide P.Next, At;
    if n == 0 {
      AtStart(ins);
    } else {
      PolarRuns(ins, n - 1);
      PolarStep(ins, n);
    }
  }

  lemma AtStart(ins: nat -> In)
    ensures At(ins, 0) == Cleared()
  {}

  /** Any two triggers are at least a conversion time apart. */
  predicate Spaced(ins: nat -> In, n: nat) {
    forall p, t :: 0 <= p < t < n && ins(p).trig && ins(t).trig ==> t - p >= 36
  }

  function Back(n: nat, d: nat): nat {
    if n < d then 0 else n - d
  }

  /** The converter is idle whenever no trigger fell into the last 35 clocks. */
  lemma {:induction false} IdleWhenQuiet(ins: nat -> In, n: nat)
    requires Plain(ins, n) && Spaced(ins, n)
    requires NoTrigger(ins, Back(n, 35), n)
    ensures At(ins, n).polar.idle
  {
    hide At, P.Published;
    if n == 0 {
      AtStart(ins);
    } else if n >= 36 && ins(n - 36).trig {
      IdleWhenQuiet(ins, n - 36);
      ConversionAt(ins, n - 36);
      PublishedIdle(At(ins, n).polar, At(ins, n - 36).i.sum / 8, At(ins, n - 36).q.sum / 8);
    } else {
      IdleWhenQuiet(ins, n - 1);
      PolarStep(ins, n);
      StaysIdle(At(ins, n - 1).polar, PolarIn(At(ins, n - 1), ins(n - 1)));
    }
  }

  lemma PublishedIdle(r: P.Regs, x: int, y: int)
    requires P.Published(r, x, y, false, false)
    ensures r.idle
  {}

  lemma StaysIdle(s: P.Regs, i: P.In)
    requires s.idle && !i.stb
    ensures P.Next(s, i).idle
  {}

  /** A trigger that finds the converter idle starts the conversion of the latched sums. */
  lemma ConversionAt(ins: nat -> In, t: nat)
    requires Plain(ins, t + 36) && At(ins, t).polar.idle && ins(t).trig
    ensures P.Published(At(ins, t + 36).polar, At(ins, t).i.sum / 8, At(ins, t).q.sum / 8, false, ins(t + 35).trig)
  {
    hide At, P.Next, P.At, P.Published;
    SumsFit(ins, InPhase, t);
    SumsFit(ins, Quadrature, t);
    PolarRuns(ins, t);
    PolarRuns(ins, t + 36);
    P.Conversion(P.Power(), PolarIns(ins), t);
  }

  lemma TurnMagnitudeRange(x: int, y: int)
    requires Within(x, 309 * PEAK) && Within(y, 309 * PEAK)
    ensures Fits(x / 8, C.HALF29) && Fits(y / 8, C.HALF29)
    ensures 0 <= C.OutMag(C.FinalX(x / 8, y / 8)) <= 28125001
  {
    hide C.OutMag, C.FinalX;
    var a, b := x / 8, y / 8;
    SquareBound(a, 162004992);
    SquareBound(b, 162004992);
    C.PublishedMagnitude(a, b);
    C.MagnitudeCeiling(a, b);
  }

  lemma SquareBound(a: int, m: int)
    requires m >= 0 && Within(a, m)
    ensures a * a <= m * m
  {
    MulLe(Abs(a), Abs(a), m);
    MulLe(m, Abs(a), m);
    assert Abs(a) * Abs(a) == a * a;
  }

  /** The down-converter end to end. For three consecutive triggers, at least 36 and at most
      310 clocks apart: 36 clocks after the third one the published magnitude is the
      converter's value of the sums of the filtered samples strictly between the first two,
      that is, of the turn before, and so is the phase; the magnitude is never negative, and
      small enough that a block of 38 turns cannot overflow its lane of the fast averager. */
  lemma MagnitudeOfTurn(ins: nat -> In, o: nat, p: nat, t: nat)
    requires Plain(ins, t + 36) && Spaced(ins, t + 36)
    requires Consecutive(ins, o, p) && Consecutive(ins, p, t) && p - o <= MAX_TURN
    ensures var x, y := TurnTotal(ins, InPhase, o + 1, p) / 8, TurnTotal(ins, Quadrature, o + 1, p) / 8;
      && At(ins, t + 36).polar.done
      && Phase(At(ins, t + 36)) == Signed(64 * C.Polar(x, y).1, HALF32)
      && Magnitude(At(ins, t + 36)) == 64 * C.OutMag(C.FinalX(x, y))
      && 0 <= Magnitude(At(ins, t + 36)) <= 1808407282
  {
    hide At, P.Next, TurnTotal, C.OutMag, C.FinalX;
    IdleWhenQuiet(ins, t);
    ConversionAt(ins, t);
    TurnSum(ins, InPhase, o, p);
    TurnSum(ins, Quadrature, o, p);
    SumHolds(ins, InPhase, p, t);
    SumHolds(ins, Quadrature, p, t);
    TurnMagnitudeRange(TurnTotal(ins, InPhase, o + 1, p), TurnTotal(ins, Quadrature, o + 1, p));
  }
}
