/** The arctangent table of seqpolar.v against the arctangent series. */
module AngleTable {
  import C = Cordic

  /** The arctangent series divided by its argument, from term j up to term n, in the square q of
      the argument: 1 / (2 j + 1) - q / (2 j + 3) + ... */
  function Series(q: real, j: nat, n: nat): real
    requires j <= n
    decreases n - j
  {
    if j == n then 0.0 else 1.0 / (2 * j + 1) as real - q * Series(q, j + 1, n)
  }

  const PI_LOW: real := 3.14159265358979
  const PI_HIGH: real := 3.14159265358980

  /** The angle, in units of 2^-36 turns, is the arctangent of t to within one unit: the first n
      terms of the series stand for it, and the slack covers the terms left out. */
  predicate IsArctan(angle: int, t: real, n: nat) {
    var radians, unit := 2.0 * angle as real / C.TURN as real, 6.3 / C.TURN as real;
    radians * PI_LOW - unit < t * Series(t * t, 0, n) < radians * PI_HIGH + unit
  }

  /** Terms of the series that matter for the angle of shift k. */
  function Terms(k: nat): nat {
    if k <= 1 then 18 else if k <= 3 then 9 else if k <= 7 then 4 else 2
  }

  /** The entry used with shift k is the arctangent of 2^-k. */
  predicate TableAt(k: nat)
    requires 1 <= k <= C.STAGES
  {
    IsArctan(C.ANGLES[k - 1], C.Unit(k), Terms(k))
  }

  lemma EntryOne()
    requires C.Unit(1) == 1.0 / 2.0
    ensures C.Unit(2) == 1.0 / 4.0
    ensures forall k :: 1 <= k <= 1 ==> TableAt(k)
  {
    assert 0.0429366 < Series(0.25, 9, 18) < 0.0429367;
    assert C.Unit(2) == 1.0 / 4.0;
    forall k | 1 <= k <= 1
      ensures TableAt(k)
    {
      assert k == 1;
    }
  }

  lemma EntriesFromTwo()
    requires C.Unit(2) == 1.0 / 4.0
    ensures C.Unit(4) == 1.0 / 16.0
    ensures forall k :: 2 <= k <= 3 ==> TableAt(k)
  {
    assert C.Unit(3) == 1.0 / 8.0 && C.Unit(4) == 1.0 / 16.0;
    forall k | 2 <= k <= 3
      ensures TableAt(k)
    {
      assert k == 2 || k == 3;
    }
  }

  lemma EntriesFromFour()
    requires C.Unit(4) == 1.0 / 16.0
    ensures C.Unit(8) == 1.0 / 256.0
    ensures forall k :: 4 <= k <= 7 ==> TableAt(k)
  {
    assert C.Unit(5) == 1.0 / 32.0 && C.Unit(6) == 1.0 / 64.0 && C.Unit(7) == 1.0 / 128.0;
    assert C.Unit(8) == 1.0 / 256.0;
    forall k | 4 <= k <= 7
      ensures TableAt(k)
    {
      assert k == 4 || k == 5 || k == 6 || k == 7;
    }
  }

  lemma EntriesFromEight()
    requires C.Unit(8) == 1.0 / 256.0
    ensures C.Unit(14) == 1.0 / 16384.0
    ensures forall k :: 8 <= k <= 13 ==> TableAt(k)
  {
    assert C.Unit(9) == 1.0 / 512.0 && C.Unit(10) == 1.0 / 1024.0 && C.Unit(11) == 1.0 / 2048.0;
    assert C.Unit(12) == 1.0 / 4096.0 && C.Unit(13) == 1.0 / 8192.0 && C.Unit(14) == 1.0 / 16384.0;
    forall k | 8 <= k <= 13
      ensures TableAt(k)
    {
      assert k == 8 || k == 9 || k == 10 || k == 11 || k == 12 || k == 13;
    }
  }

  lemma EntriesFromFourteen()
    requires C.Unit(14) == 1.0 / 16384.0
    ensures C.Unit(20) == 1.0 / 1048576.0
    ensures forall k :: 14 <= k <= 19 ==> TableAt(k)
  {
    assert C.Unit(15) == 1.0 / 32768.0 && C.Unit(16) == 1.0 / 65536.0 && C.Unit(17) == 1.0 / 131072.0;
    assert C.Unit(18) == 1.0 / 262144.0 && C.Unit(19) == 1.0 / 524288.0 && C.Unit(20) == 1.0 / 1048576.0;
    forall k | 14 <= k <= 19
      ensures TableAt(k)
    {
      assert k == 14 || k == 15 || k == 16 || k == 17 || k == 18 || k == 19;
    }
  }

  lemma EntriesFromTwenty()
    requires C.Unit(20) == 1.0 / 1048576.0
    ensures C.Unit(25) == 1.0 / 33554432.0
    ensures forall k :: 20 <= k <= 24 ==> TableAt(k)
  {
    assert C.Unit(21) == 1.0 / 2097152.0 && C.Unit(22) == 1.0 / 4194304.0 && C.Unit(23) == 1.0 / 8388608.0;
    assert C.Unit(24) == 1.0 / 16777216.0 && C.Unit(25) == 1.0 / 33554432.0;
    forall k | 20 <= k <= 24
      ensures TableAt(k)
    {
      assert k == 20 || k == 21 || k == 22 || k == 23 || k == 24;
    }
  }

  lemma EntriesFromTwentyFive()
    requires C.Unit(25) == 1.0 / 33554432.0
    ensures C.Unit(30) == 1.0 / 1073741824.0
    ensures forall k :: 25 <= k <= 29 ==> TableAt(k)
  {
    assert C.Unit(26) == 1.0 / 67108864.0 && C.Unit(27) == 1.0 / 134217728.0 && C.Unit(28) == 1.0 / 268435456.0;
    assert C.Unit(29) == 1.0 / 536870912.0 && C.Unit(30) == 1.0 / 1073741824.0;
    forall k | 25 <= k <= 29
      ensures TableAt(k)
    {
      assert k == 25 || k == 26 || k == 27 || k == 28 || k == 29;
    }
  }

  lemma EntriesFromThirty()
    requires C.Unit(30) == 1.0 / 1073741824.0
    ensures C.Unit(34) == 1.0 / 17179869184.0
    ensures forall k :: 30 <= k <= 33 ==> TableAt(k)
  {
    assert C.Unit(31) == 1.0 / 2147483648.0 && C.Unit(32) == 1.0 / 4294967296.0 && C.Unit(33) == 1.0 / 8589934592.0;
    assert C.Unit(34) == 1.0 / 17179869184.0;
    forall k | 30 <= k <= 33
      ensures TableAt(k)
    {
      assert k == 30 || k == 31 || k == 32 || k == 33;
    }
  }

  lemma FirstUnit()
    ensures C.Unit(1) == 1.0 / 2.0
  {
    assert C.Unit(0) == 1.0;
  }

  /** Every angle the rotations use is the arctangent of its shift, in units of 2^-36 turns, to
      within one unit. */
  lemma TableIsArctan(k: nat)
    requires 1 <= k <= C.STAGES
    ensures TableAt(k)
  {
    hide TableAt, C.Unit;
    FirstUnit();
    EntryOne();
    EntriesFromTwo();
    EntriesFromFour();
    EntriesFromEight();
    EntriesFromFourteen();
    EntriesFromTwenty();
    EntriesFromTwentyFive();
    EntriesFromThirty();
  }
}
