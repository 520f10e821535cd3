/** What the trigger generator of dsp_cntrl.vhd does over whole runs: where the turn triggers come
    from, what the dividers publish, what passes the gate. */
module TurnTriggers {
  import opened Bits
  import opened DspCntrl

  // ------------------------------------------------------------- turn triggers over a run

  lemma {:induction false} BoosterRuns(c: Config, ext: nat -> bool, sync: nat -> bool, n: nat)
    ensures At(c, ext, sync, n).booster == BoosterAt(ext, n)
  {
    hide NextDivider, NextGate, NextSide, NextBooster, TurnEnds;
    if n > 0 {
      BoosterRuns(c, ext, sync, n - 1);
    }
  }

  lemma TurnNext(c: Config, ext: nat -> bool, sync: nat -> bool, n: nat)
    ensures var s := At(c, ext, sync, n);
      At(c, ext, sync, n + 1).turn == if c.internal then s.turnInt else if c.booster then s.booster.trig else ext(n)
  {
    hide NextDivider, NextGate, NextSide, NextBooster, TurnEnds;
  }

  /** External turn triggers: for the storage ring each external pulse is one, for the booster the
      five pulses made of it, one edge later; and there are no others. */
  lemma ExternalTurns(c: Config, ext: nat -> bool, sync: nat -> bool, n: nat)
    requires !c.internal && (c.booster ==> ExtSpaced(ext, n))
    ensures At(c, ext, sync, n + 1).turn <==> if c.booster then BoosterDue(ext, n) else ext(n)
  {
    hide At, BoosterDue;
    TurnNext(c, ext, sync, n);
    BoosterRuns(c, ext, sync, n);
    if c.booster {
      BoosterLaw(ext, n);
    }
  }

  /** Clocks per internal turn. */
  function Period(c: Config): nat {
    if c.booster then 62 else 310
  }

  lemma CountNext(c: Config, ext: nat -> bool, sync: nat -> bool, n: nat)
    ensures var s, t := At(c, ext, sync, n), At(c, ext, sync, n + 1);
      && t.turnInt == TurnEnds(c, s.turnCnt)
      && t.turnCnt == if TurnEnds(c, s.turnCnt) then 0 else (s.turnCnt + 1) % 512
  {
    hide NextDivider, NextGate, NextSide, NextBooster, TurnEnds;
  }

  lemma {:induction false} CountAt(c: Config, ext: nat -> bool, sync: nat -> bool, n: nat)
    ensures At(c, ext, sync, n).turnCnt == n % Period(c)
    ensures At(c, ext, sync, n).turnInt <==> n > 0 && n % Period(c) == 0
  {
    hide At;
    if n == 0 {
      AtReset(c, ext, sync);
    } else {
      CountAt(c, ext, sync, n - 1);
      CountNext(c, ext, sync, n - 1);
      if c.booster {
        assert n % 62 == if (n - 1) % 62 == 61 then 0 else (n - 1) % 62 + 1;
      } else {
        assert n % 310 == if (n - 1) % 310 == 309 then 0 else (n - 1) % 310 + 1;
      }
    }
  }

  /** Internal turn triggers: one every period, the first one clock after the first period. */
  lemma InternalTurns(c: Config, ext: nat -> bool, sync: nat -> bool, n: nat)
    requires c.internal
    ensures At(c, ext, sync, n + 1).turn <==> n > 0 && n % Period(c) == 0
  {
    TurnNext(c, ext, sync, n);
    CountAt(c, ext, sync, n);
  }

  // ------------------------------------------------------------- dividers and gate over a run

  /** Turns counted before edge n, since the last clear if the event clock clears. */
  function Count(c: Config, ext: nat -> bool, sync: nat -> bool, cleared: bool, n: nat): nat {
    if n == 0 then 0
    else if At(c, ext, sync, n - 1).turn then Count(c, ext, sync, cleared, n - 1) + 1
    else if cleared && sync(n - 1) then 0
    else Count(c, ext, sync, cleared, n - 1)
  }

  lemma DividerNext(d: Divider, count: nat, turn: bool, sync: bool, booster: bool,
                    limit: nat, boosterLimit: nat, range: nat)
    requires d.cnt == count % (limit + 1) && limit + 1 <= range && (booster ==> limit < boosterLimit)
    ensures var e := NextDivider(d, turn, sync, booster, limit, boosterLimit, range);
      && e.cnt == (if turn then count + 1 else if sync then 0 else count) % (limit + 1)
      && (e.trig <==> turn && count % (limit + 1) == limit)
  {
    var m := limit + 1;
    ModNext(count, m);
    DivFloor(count, m);
    ModSmall(0, m);
    if turn && d.cnt != limit {
      ModSmall(d.cnt + 1, range);
    }
  }

  lemma ModSmall(v: nat, m: nat)
    requires v < m
    ensures v % m == v
  {
    DivUnique(v, m, 0);
    DivFloor(v, m);
  }

  lemma ModNext(a: nat, m: nat)
    requires m > 0
    ensures (a + 1) % m == if a % m == m - 1 then 0 else a % m + 1
  {
    DivFloor(a, m);
    DivFloor(a + 1, m);
    var q := a / m;
    assert m * (q + 1) == m * q + m;
    DivUnique(a + 1, m, if a % m == m - 1 then q + 1 else q);
  }

  lemma DividersNext(c: Config, ext: nat -> bool, sync: nat -> bool, n: nat)
    ensures var s, t := At(c, ext, sync, n), At(c, ext, sync, n + 1);
      && t.fast == NextDivider(s.fast, s.turn, sync(n), c.booster, 37, 190, 256)
      && t.slow == NextDivider(s.slow, s.turn, sync(n), c.booster, 38000, 190000, 0x10_0000)
      && t.side.pilot == NextDivider(s.side.pilot, s.turn, false, false, 1, 0, 256)
  {
    hide NextDivider, NextGate, NextBooster, TurnEnds;
  }

  lemma {:induction false} DividersAt(c: Config, ext: nat -> bool, sync: nat -> bool, n: nat)
    ensures var s := At(c, ext, sync, n);
      && s.fast.cnt == Count(c, ext, sync, true, n) % 38
      && s.slow.cnt == Count(c, ext, sync, true, n) % 38001
      && s.side.pilot.cnt == Count(c, ext, sync, false, n) % 2
  {
    hide At, NextDivider;
    if n == 0 {
      AtReset(c, ext, sync);
    } else {
      DividersAt(c, ext, sync, n - 1);
      DividersNext(c, ext, sync, n - 1);
      var s := At(c, ext, sync, n - 1);
      var count, plain := Count(c, ext, sync, true, n - 1), Count(c, ext, sync, false, n - 1);
      DividerNext(s.fast, count, s.turn, sync(n - 1), c.booster, 37, 190, 256);
      DividerNext(s.slow, count, s.turn, sync(n - 1), c.booster, 38000, 190000, 0x10_0000);
      DividerNext(s.side.pilot, plain, s.turn, false, false, 1, 0, 256);
    }
  }

  lemma AtReset(c: Config, ext: nat -> bool, sync: nat -> bool)
    ensures At(c, ext, sync, 0) == Reset()
  {}

  /** The dividers, for both machines and any turn triggers: the fast data are published on every
      38th turn and the slow data on every 38001st, counted from the last clear, the pilot tone
      comes on every second. */
  lemma DividerLaw(c: Config, ext: nat -> bool, sync: nat -> bool, n: nat)
    ensures var s, t := At(c, ext, sync, n), At(c, ext, sync, n + 1);
      && (t.fast.trig <==> s.turn && Count(c, ext, sync, true, n) % 38 == 37)
      && (t.slow.trig <==> s.turn && Count(c, ext, sync, true, n) % 38001 == 38000)
      && (t.side.pilot.trig <==> s.turn && Count(c, ext, sync, false, n) % 2 == 1)
  {
    hide At, NextDivider;
    DividersAt(c, ext, sync, n);
    DividersNext(c, ext, sync, n);
    var s, count, plain := At(c, ext, sync, n), Count(c, ext, sync, true, n), Count(c, ext, sync, false, n);
    DividerNext(s.fast, count, s.turn, sync(n), c.booster, 37, 190, 256);
    DividerNext(s.slow, count, s.turn, sync(n), c.booster, 38000, 190000, 0x10_0000);
    DividerNext(s.side.pilot, plain, s.turn, false, false, 1, 0, 256);
  }

  /** The gate with its delayed pulse and the output register. */
  datatype Passage = Passage(gate: Gate, delayed: bool, out: bool)

  function NextPassage(p: Passage, turn: bool, delay: nat): Passage {
    Passage(NextGate(p.gate, turn, delay),
            if p.gate.Idle? then false else p.gate.left == 0 || p.delayed,
            p.delayed)
  }

  function PassageAt(turns: nat -> bool, delay: nat, n: nat): Passage {
    if n == 0 then Passage(Idle, false, false)
    else NextPassage(PassageAt(turns, delay, n - 1), turns(n - 1), delay)
  }

  /** The turn pulses of a run. */
  function Turns(c: Config, ext: nat -> bool, sync: nat -> bool): nat -> bool {
    (k: nat) => At(c, ext, sync, k).turn
  }

  function PassageOf(s: Regs): Passage {
    Passage(s.gate, s.delayed, s.turnOut)
  }

  lemma PassageNext(c: Config, s: Regs, ext: bool, sync: bool)
    ensures PassageOf(Next(c, s, ext, sync)) == NextPassage(PassageOf(s), s.turn, c.gateDelay)
  {
    hide NextDivider, NextSide, NextBooster, TurnEnds;
  }

  lemma AtNext(c: Config, ext: nat -> bool, sync: nat -> bool, n: nat)
    ensures At(c, ext, sync, n + 1) == Next(c, At(c, ext, sync, n), ext(n), sync(n))
  {
    hide Next;
  }

  lemma {:induction false} PassageRuns(c: Config, ext: nat -> bool, sync: nat -> bool, n: nat)
    ensures PassageOf(At(c, ext, sync, n)) == PassageAt(Turns(c, ext, sync), c.gateDelay, n)
  {
    hide At, Next, NextPassage;
    if n == 0 {
      AtReset(c, ext, sync);
    } else {
      PassageRuns(c, ext, sync, n - 1);
      AtNext(c, ext, sync, n - 1);
      PassageNext(c, At(c, ext, sync, n - 1), ext(n - 1), sync(n - 1));
    }
  }

  /** A turn pulse finds the gate idle on clock n. */
  predicate Enters(turns: nat -> bool, delay: nat, n: nat) {
    turns(n) && PassageAt(turns, delay, n).gate.Idle?
  }

  lemma {:induction false} Delays(turns: nat -> bool, delay: nat, n: nat, j: nat)
    requires Enters(turns, delay, n) && j <= delay
    ensures PassageAt(turns, delay, n + 1 + j).gate == Delaying(delay - j)
  {
    if j > 0 {
      Delays(turns, delay, n, j - 1);
    }
  }

  /** A delaying gate was entered so many clocks back, and no pulse is on the way out of it. */
  lemma {:induction false} Entered(turns: nat -> bool, delay: nat, n: nat)
    ensures var p := PassageAt(turns, delay, n);
      p.gate.Delaying? ==>
        && !p.delayed && p.gate.left <= delay < n + p.gate.left
        && Enters(turns, delay, n - 1 - (delay - p.gate.left))
  {
    if n > 0 {
      Entered(turns, delay, n - 1);
    }
  }

  lemma PulseOut(turns: nat -> bool, delay: nat, n: nat)
    requires n >= 2
    ensures PassageAt(turns, delay, n).out <==> PassageAt(turns, delay, n - 2).gate == Delaying(0)
  {
    Entered(turns, delay, n - 2);
  }

  /** The gate: the turn trigger output carries exactly the turn pulses that find the gate idle,
      each delayed by the programmed delay and three clocks. */
  lemma GateLaw(c: Config, ext: nat -> bool, sync: nat -> bool, n: nat)
    ensures var turns, d := Turns(c, ext, sync), c.gateDelay;
      At(c, ext, sync, n).turnOut <==> n >= d + 3 && Enters(turns, d, n - d - 3)
  {
    var turns, d := Turns(c, ext, sync), c.gateDelay;
    hide At, PassageAt, Turns;
    PassageRuns(c, ext, sync, n);
    if n >= 2 {
      PulseOut(turns, d, n);
      Entered(turns, d, n - 2);
      if n >= d + 3 && Enters(turns, d, n - d - 3) {
        Delays(turns, d, n - d - 3, d);
      }
    } else {
      NothingYet(turns, d, n);
    }
  }

  lemma NothingYet(turns: nat -> bool, delay: nat, n: nat)
    requires n < 2
    ensures !PassageAt(turns, delay, n).out
  {}
}
