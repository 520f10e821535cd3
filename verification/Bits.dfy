/** Machine arithmetic shared by the register models: powers of two, the
    arithmetic shift, and the two's complement reading of a register. */
module Bits {

  function Abs(v: int): nat {
    if v < 0 then -v else v
  }

  function Pow2(k: nat): (p: int)
    ensures p >= 1
    ensures k >= 1 ==> p >= 2
  {
    if k == 0 then 1 else 2 * Pow2(k - 1)
  }

  /** Arithmetic shift right by k, one place at a time. */
  function Asr(v: int, k: nat): int {
    if k == 0 then v else Asr(v, k - 1) / 2
  }

  /** The shift is the floor of v / 2^k. */
  lemma {:induction false} AsrFloor(v: int, k: nat)
    ensures Pow2(k) * Asr(v, k) <= v < Pow2(k) * (Asr(v, k) + 1)
  {
    if k > 0 {
      AsrFloor(v, k - 1);
      HalveFloor(v, Pow2(k - 1), Asr(v, k - 1), Asr(v, k));
    }
  }

  lemma HalveFloor(v: int, h: int, a: int, b: int)
    requires h > 0 && h * a <= v < h * (a + 1) && b == a / 2
    ensures (2 * h) * b <= v < (2 * h) * (b + 1)
  {
    MulLe(h, 2 * b, a);
    MulLe(h, a + 1, 2 * b + 2);
    assert h * (2 * b + 2) == (2 * h) * (b + 1);
    assert h * (2 * b) == (2 * h) * b;
  }

  lemma {:induction false} AsrMonotone(v: int, w: int, k: nat)
    requires v <= w
    ensures Asr(v, k) <= Asr(w, k)
    ensures v >= 0 ==> Asr(v, k) >= 0
    ensures v < 0 ==> Asr(v, k) < 0
  {
    if k > 0 {
      AsrMonotone(v, w, k - 1);
    }
  }

  /** What a signed register holding values in [-half, half) keeps of v. */
  function Signed(v: int, half: int): (w: int)
    requires half > 0
    ensures -half <= w < half
    ensures -half <= v < half ==> w == v
  {
    DivFloor(v + half, 2 * half);
    DivUnique(v + half, 2 * half, 0);
    (v + half) % (2 * half) - half
  }

  predicate Fits(v: int, half: int) {
    -half <= v < half
  }

  lemma MulLe(p: int, a: int, b: int)
    requires p >= 0
    ensures a <= b ==> p * a <= p * b
  {}

  /** Floor division by a positive divisor, as quotient and remainder. */
  lemma DivFloor(v: int, p: int)
    requires p > 0
    ensures v == p * (v / p) + v % p
    ensures 0 <= v % p < p
  {}

  lemma DivUnique(v: int, p: int, q: int)
    requires p > 0
    ensures p * q <= v < p * q + p ==> v / p == q
  {
    DivFloor(v, p);
    MulLe(p, q + 1, v / p);
    MulLe(p, v / p + 1, q);
  }

  /** Values that differ by a multiple of the range read the same. */
  lemma SignedPeriod(v: int, half: int, q: int)
    requires half > 0
    ensures Signed(v + 2 * half * q, half) == Signed(v, half)
  {
    var m := 2 * half;
    DivFloor(v + half, m);
    var k := (v + half) / m;
    assert m * (k + q) == m * k + m * q;
    DivUnique(v + m * q + half, m, k + q);
    DivFloor(v + m * q + half, m);
  }

  /** A register may wrap at every addition or only once at the end. */
  lemma SignedAdd(v: int, w: int, half: int)
    requires half > 0
    ensures Signed(Signed(v, half) + w, half) == Signed(v + w, half)
  {
    var m := 2 * half;
    DivFloor(v + half, m);
    var q := (v + half) / m;
    assert v == Signed(v, half) + m * q;
    SignedPeriod(Signed(v, half) + w, half, q);
  }
}
