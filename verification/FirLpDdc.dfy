/** The 4-tap low-pass filter of fir_lp_ddc.vhd in transposed form. */
module FirLpDdc {
  import opened Bits

  const C0: int := 0x21D1
  const C1: int := 0x5E2F
  const UNITY: int := 0x1_0000
  const HALF40: int := 0x80_0000_0000   // the 40-bit sums hold [-2^39, 2^39)
  const HALF24: int := 0x80_0000

  /** Products of the newest sample, the chain of partial sums, and the output. The outer
      taps share one coefficient, the inner taps the other. */
  datatype Regs = Regs(outer: int, inner: int, sum0: int, sum1: int, sum2: int, sum3: int, dout: int)

  function Next(s: Regs, rst: bool, din: int): Regs {
    Regs(
      Signed(din * C0, HALF40), Signed(din * C1, HALF40),
      s.outer,
      Signed(s.inner + s.sum0, HALF40),
      Signed(s.inner + s.sum1, HALF40),
      Signed(s.outer + s.sum2, HALF40),
      if rst then 0 else Signed(s.sum3 / UNITY, HALF24))
  }

  /** The filter object. */
  class Filter {
    var tap: seq<int>
    var sum: seq<int>
    var dout: int

    ghost predicate Valid()
      reads this
    {
      |tap| == 4 && |sum| == 4 && tap[0] == tap[3] && tap[1] == tap[2]
    }

    ghost function View(): Regs
      requires Valid()
      reads this
    {
      Regs(tap[0], tap[1], sum[0], sum[1], sum[2], sum[3], dout)
    }

    constructor ()
      ensures Valid() && View() == Regs(0, 0, 0, 0, 0, 0, 0)
    {
      tap, sum, dout := [0, 0, 0, 0], [0, 0, 0, 0], 0;
    }

    method Clock(rst: bool, din: int)
      requires Valid()
      modifies this
      ensures Valid() && View() == Next(old(View()), rst, din)
    {
      dout := if rst then 0 else Signed(sum[3] / UNITY, HALF24);
      sum := [tap[0], Signed(tap[1] + sum[0], HALF40), Signed(tap[2] + sum[1], HALF40),
              Signed(tap[3] + sum[2], HALF40)];
      var p0, p1 := Signed(din * C0, HALF40), Signed(din * C1, HALF40);
      tap := [p0, p1, p1, p0];
    }
  }

  function At(s: Regs, din: nat -> int, n: nat): Regs {
    if n == 0 then s else Next(At(s, din, n - 1), false, din(n - 1))
  }

  /** The direct form: four samples, newest first, weighted and summed. */
  function Weighted(a: int, b: int, c: int, d: int): int {
    C0 * a + C1 * b + C1 * c + C0 * d
  }

  function Direct(a: int, b: int, c: int, d: int): int {
    Weighted(a, b, c, d) / UNITY
  }

  predicate InRange(din: nat -> int, n: nat) {
    forall k :: 0 <= k < n ==> Fits(din(k), HALF24)
  }

  lemma TapsAt(s: Regs, din: nat -> int, n: nat)
    requires n >= 1 && InRange(din, n)
    ensures At(s, din, n).outer == C0 * din(n - 1) && At(s, din, n).inner == C1 * din(n - 1)
  {}

  lemma Sum1At(s: Regs, din: nat -> int, n: nat)
    requires n >= 3 && InRange(din, n)
    ensures At(s, din, n).sum1 == C1 * din(n - 2) + C0 * din(n - 3)
  {
    hide Next;
    TapsAt(s, din, n - 1);
    TapsAt(s, din, n - 2);
    Sum1Next(At(s, din, n - 2), din(n - 2), din(n - 1), din(n - 3));
  }

  lemma Sum1Next(r: Regs, din: int, later: int, a: int)
    requires Fits(din, HALF24) && Fits(a, HALF24) && r.outer == C0 * a
    ensures Next(Next(r, false, din), false, later).sum1 == C1 * din + C0 * a
  {}

  lemma Sum2Next(r: Regs, din: int, a: int, b: int, c: int)
    requires Fits(a, HALF24) && Fits(b, HALF24) && Fits(c, HALF24)
    requires r.inner == C1 * a && r.sum1 == C1 * b + C0 * c
    ensures Next(r, false, din).sum2 == C1 * a + C1 * b + C0 * c
  {}

  lemma Sum2At(s: Regs, din: nat -> int, n: nat)
    requires n >= 4 && InRange(din, n)
    ensures At(s, din, n).sum2 == C1 * din(n - 2) + C1 * din(n - 3) + C0 * din(n - 4)
  {
    hide Next;
    TapsAt(s, din, n - 1);
    Sum1At(s, din, n - 1);
    Sum2Next(At(s, din, n - 1), din(n - 1), din(n - 2), din(n - 3), din(n - 4));
  }

  lemma Sum3Next(r: Regs, din: int, a: int, b: int, c: int, d: int)
    requires Fits(a, HALF24) && Fits(b, HALF24) && Fits(c, HALF24) && Fits(d, HALF24)
    requires r.outer == C0 * a && r.sum2 == C1 * b + C1 * c + C0 * d
    ensures Next(r, false, din).sum3 == Weighted(a, b, c, d)
  {}

  lemma Sum3At(s: Regs, din: nat -> int, n: nat)
    requires n >= 5 && InRange(din, n)
    ensures At(s, din, n).sum3 == Weighted(din(n - 2), din(n - 3), din(n - 4), din(n - 5))
  {
    hide Next, Weighted;
    TapsAt(s, din, n - 1);
    Sum2At(s, din, n - 1);
    Sum3Next(At(s, din, n - 1), din(n - 1), din(n - 2), din(n - 3), din(n - 4), din(n - 5));
  }

  /** The refinement: from any register contents, after six clocks the transposed pipeline
      gives the direct 4-tap sum divided by 2^16 and floored; no sum has wrapped. */
  lemma TransposedIsDirect(s: Regs, din: nat -> int, n: nat)
    requires n >= 6 && InRange(din, n)
    ensures At(s, din, n).dout == Direct(din(n - 3), din(n - 4), din(n - 5), din(n - 6))
  {
    hide Next, Direct, Weighted;
    Sum3At(s, din, n - 1);
    OutputNext(At(s, din, n - 1), din(n - 1), din(n - 3), din(n - 4), din(n - 5), din(n - 6));
  }

  lemma OutputNext(r: Regs, din: int, a: int, b: int, c: int, d: int)
    requires Fits(a, HALF24) && Fits(b, HALF24) && Fits(c, HALF24) && Fits(d, HALF24)
    requires r.sum3 == Weighted(a, b, c, d)
    ensures Next(r, false, din).dout == Direct(a, b, c, d)
  {
    DirectWithin(a, b, c, d, -HALF24, HALF24 - 1);
  }

  /** The output stays between the extremes of the four samples; a constant passes through. */
  lemma DirectWithin(a: int, b: int, c: int, d: int, lo: int, hi: int)
    requires lo <= a <= hi && lo <= b <= hi && lo <= c <= hi && lo <= d <= hi
    ensures lo <= Direct(a, b, c, d) <= hi
    ensures lo == hi ==> Direct(a, b, c, d) == a
  {
    assert UNITY * lo <= Weighted(a, b, c, d) <= UNITY * hi;
  }
}
