/** The trigger generator of dsp_cntrl.vhd: internal turn counter, booster pulses, gate delay
    and the fast and slow dividers. */
module DspCntrl {

  /** Machine selection, internal trigger selection, gate delay and gate width (9 bits each). */
  datatype Config = Config(booster: bool, internal: bool, gateDelay: nat, gateWidth: nat)

  datatype Booster = Booster(active: bool, rev: nat, adc: nat, trig: bool)

  datatype Gate = Idle | Delaying(left: nat)

  /** A divider of the turn trigger. */
  datatype Divider = Divider(cnt: nat, trig: bool)

  datatype Regs = Regs(turnCnt: nat, turnInt: bool, booster: Booster, turn: bool,
                       gate: Gate, delayed: bool, turnOut: bool, fast: Divider, slow: Divider, side: Side)

  /** What nothing else in the generator reads: the gate signal, which rises and falls with the
      delayed turn pulse, its output register, the gate width, loaded and never used, and the
      pilot tone divider. */
  datatype Side = Side(window: bool, gateOut: bool, width: nat, pilot: Divider)

  /** The booster machine: five pulses for each external one. */
  function NextBooster(b: Booster, ext: bool): Booster {
    if !b.active then Booster(ext, 0, 0, ext || b.trig)
    else Booster(b.rev != 4,
                 if b.adc == 0x3D then (b.rev + 1) % 16 else b.rev,
                 if b.adc == 0x3D then 0 else (b.adc + 1) % 256,
                 b.adc == 0x3D)
  }

  function NextGate(g: Gate, turn: bool, delay: nat): Gate {
    match g
    case Idle => if turn then Delaying(delay) else Idle
    case Delaying(left) => if left == 0 then Idle else Delaying(left - 1)
  }

  /** The event clock may clear the count between turns; a turn on the same edge wins. */
  function NextDivider(d: Divider, turn: bool, sync: bool, booster: bool,
                       limit: nat, boosterLimit: nat, range: nat): Divider
    requires range > 0
  {
    if !turn then Divider(if sync then 0 else d.cnt, false)
    else if (d.cnt == boosterLimit && booster) || d.cnt == limit then Divider(0, true)
    else Divider((d.cnt + 1) % range, false)
  }

  function NextSide(s: Side, gate: Gate, turn: bool, width: nat): Side {
    Side(if gate.Idle? then false else gate.left == 0 || s.window,
         s.window,
         if gate.Idle? && turn then width else s.width,
         NextDivider(s.pilot, turn, false, false, 1, 0, 256))
  }

  predicate TurnEnds(c: Config, cnt: nat) {
    (cnt == 0x3D && c.booster) || cnt == 0x135
  }

  /** All registers after one edge, out of reset; ext is the external turn pulse, sync the
      clear of the dividers. */
  function Next(c: Config, s: Regs, ext: bool, sync: bool): Regs {
    Regs(
      if TurnEnds(c, s.turnCnt) then 0 else (s.turnCnt + 1) % 512,
      TurnEnds(c, s.turnCnt),
      NextBooster(s.booster, ext),
      if c.internal then s.turnInt else if c.booster then s.booster.trig else ext,
      NextGate(s.gate, s.turn, c.gateDelay),
      if s.gate.Idle? then false else s.gate.left == 0 || s.delayed,
      s.delayed,
      NextDivider(s.fast, s.turn, sync, c.booster, 37, 190, 256),
      NextDivider(s.slow, s.turn, sync, c.booster, 38000, 190000, 0x10_0000),
      NextSide(s.side, s.gate, s.turn, c.gateWidth))
  }

  function Reset(): Regs {
    Regs(0, false, Booster(false, 0, 0, false), false, Idle, false, false, Divider(0, false), Divider(0, false),
         Side(false, false, 0, Divider(0, false)))
  }

  /** The generator object, process by process. */
  class Generator {
    var turnCnt: nat
    var turnInt: bool
    var booster: Booster
    var turn: bool
    var gate: Gate
    var delayed: bool
    var turnOut: bool
    var fast: Divider
    var slow: Divider
    var side: Side

    function View(): Regs
      reads this
    {
      Regs(turnCnt, turnInt, booster, turn, gate, delayed, turnOut, fast, slow, side)
    }

    constructor ()
      ensures View() == Reset()
    {
      turnCnt, turnInt, booster, turn := 0, false, Booster(false, 0, 0, false), false;
      gate, delayed, turnOut := Idle, false, false;
      fast, slow, side := Divider(0, false), Divider(0, false), Side(false, false, 0, Divider(0, false));
    }

    /** The gate process. */
    method ClockGate(delay: nat)
      modifies `gate, `delayed
      ensures gate == NextGate(old(gate), turn, delay)
      ensures delayed == if old(gate).Idle? then false else old(gate).left == 0 || old(delayed)
    {
      match gate {
        case Idle =>
          delayed := false;
          if turn {
            gate := Delaying(delay);
          }
        case Delaying(left) =>
          if left == 0 {
            delayed, gate := true, Idle;
          } else {
            gate := Delaying(left - 1);
          }
      }
    }

    /** The gate signal, its output register and width, and the pilot tone process. */
    method ClockSide(width: nat)
      modifies `side
      ensures side == NextSide(old(side), gate, turn, width)
    {
      var was := side;
      side := side.(gateOut := was.window, pilot := NextDivider(was.pilot, turn, false, false, 1, 0, 256));
      match gate {
        case Idle =>
          side := side.(window := false, width := if turn then width else was.width);
        case Delaying(left) =>
          if left == 0 {
            side := side.(window := true);
          }
      }
    }

    method Clock(c: Config, ext: bool, sync: bool)
      modifies this
      ensures View() == Next(c, old(View()), ext, sync)
    {
      hide NextDivider, NextBooster, NextGate, NextSide, TurnEnds;
      fast := NextDivider(fast, turn, sync, c.booster, 37, 190, 256);
      slow := NextDivider(slow, turn, sync, c.booster, 38000, 190000, 0x10_0000);
      turnOut := delayed;
      ClockSide(c.gateWidth);
      ClockGate(c.gateDelay);
      turn := if c.internal then turnInt else if c.booster then booster.trig else ext;
      booster := NextBooster(booster, ext);
      turnInt := TurnEnds(c, turnCnt);
      turnCnt := if turnInt then 0 else (turnCnt + 1) % 512;
    }
  }

  /** The registers after n edges from reset. */
  function At(c: Config, ext: nat -> bool, sync: nat -> bool, n: nat): Regs {
    if n == 0 then Reset() else Next(c, At(c, ext, sync, n - 1), ext(n - 1), sync(n - 1))
  }

  /** The programmed gate width has no effect: over every run the gate output is the delayed
      turn trigger itself, one clock per turn that passes. */
  lemma {:induction false} GateIsPulse(c: Config, ext: nat -> bool, sync: nat -> bool, n: nat)
    ensures var s := At(c, ext, sync, n); s.side.window == s.delayed && s.side.gateOut == s.turnOut
    ensures At(c, ext, sync, n).gate.Delaying? ==> !At(c, ext, sync, n).delayed
  {
    hide NextDivider, NextBooster, TurnEnds;
    if n > 0 {
      GateIsPulse(c, ext, sync, n - 1);
    }
  }

  // ------------------------------------------------------------- booster pulses

  function BoosterAt(ext: nat -> bool, n: nat): Booster {
    if n == 0 then Booster(false, 0, 0, false) else NextBooster(BoosterAt(ext, n - 1), ext(n - 1))
  }

  /** Clocks since the last external pulse; counted from far back when there was none. */
  function Age(ext: nat -> bool, n: nat): (a: nat)
    ensures a >= 1
  {
    if n == 0 then 250 else if ext(n - 1) then 1 else Age(ext, n - 1) + 1
  }

  /** The machine a clocks after an external pulse. */
  function Closed(a: nat): Booster
    requires a >= 1
  {
    if a <= 249 then Booster(true, (a - 1) / 62, (a - 1) % 62, (a - 1) % 62 == 0)
    else if a == 250 then Booster(false, 4, 1, false)
    else Booster(false, 0, 0, false)
  }

  predicate Same(b: Booster, d: Booster) {
    b.active == d.active && b.trig == d.trig && (b.active ==> b == d)
  }

  lemma ClosedNext(b: Booster, a: nat, ext: bool)
    requires a >= 1 && Same(b, Closed(a)) && (ext ==> a >= 250)
    ensures Same(NextBooster(b, ext), Closed(if ext then 1 else a + 1))
  {
    if a <= 249 {
      var q, r := (a - 1) / 62, (a - 1) % 62;
      assert a - 1 == 62 * q + r && q <= 4;
      if r == 61 {
        assert a / 62 == q + 1 && a % 62 == 0;
      } else {
        assert a / 62 == q && a % 62 == r + 1;
      }
    }
  }

  predicate ExtSpaced(ext: nat -> bool, n: nat) {
    forall e, f :: 0 <= e < f < n && ext(e) && ext(f) ==> f - e >= 250
  }

  lemma {:induction false} AgeIsPulse(ext: nat -> bool, n: nat)
    ensures var a := Age(ext, n);
      && (a <= n ==> ext(n - a))
      && (forall e :: n - a < e < n && e >= 0 ==> !ext(e))
      && (a > n ==> a == n + 250)
  {
    if n > 0 {
      AgeIsPulse(ext, n - 1);
    }
  }

  lemma {:induction false} BoosterClosed(ext: nat -> bool, n: nat)
    requires ExtSpaced(ext, n)
    ensures Same(BoosterAt(ext, n), Closed(Age(ext, n)))
  {
    if n > 0 {
      BoosterClosed(ext, n - 1);
      AgeIsPulse(ext, n - 1);
      ClosedNext(BoosterAt(ext, n - 1), Age(ext, n - 1), ext(n - 1));
    }
  }

  predicate PulseOffset(d: int) {
    d == 0 || d == 62 || d == 124 || d == 186 || d == 248
  }

  /** An external pulse lies at the given offset before edge n - 1. */
  predicate BoosterDue(ext: nat -> bool, n: nat) {
    exists e: nat :: e < n && ext(e) && PulseOffset(n - 1 - e)
  }

  /** The booster law: with external pulses at least 250 clocks apart, each gives exactly five
      one-clock pulses at offsets 0, 62, 124, 186 and 248, and there are no others. */
  lemma BoosterLaw(ext: nat -> bool, n: nat)
    requires ExtSpaced(ext, n)
    ensures BoosterAt(ext, n).trig <==> BoosterDue(ext, n)
  {
    BoosterClosed(ext, n);
    AgeIsPulse(ext, n);
    var a := Age(ext, n);
    if BoosterDue(ext, n) {
      var e: nat :| e < n && ext(e) && PulseOffset(n - 1 - e);
      assert a <= n - e;
      assert ext(n - a);
    }
    if a <= 249 {
      OffsetsOf62(a - 1);
    }
  }

  lemma OffsetsOf62(d: nat)
    requires d <= 248
    ensures d % 62 == 0 <==> PulseOffset(d)
  {}

  /** The external pulses come every 310 clocks from first on. */
  ghost predicate Periodic(ext: nat -> bool, first: nat) {
    forall k: nat :: ext(k) <==> OnBeat(first, k, 310)
  }

  predicate OnBeat(first: nat, k: nat, period: nat)
    requires period > 0
  {
    k >= first && (k - first) % period == 0
  }

  lemma BeatsApart(first: nat, e: nat, f: nat)
    requires OnBeat(first, e, 310) && OnBeat(first, f, 310) && e < f
    ensures f - e >= 310
  {}

  lemma BeatOffset(first: nat, e: nat, o: nat)
    requires OnBeat(first, e, 310) && PulseOffset(o)
    ensures OnBeat(first, e + o, 62)
  {}

  lemma LastBeat(first: nat, n: nat) returns (e: nat)
    requires OnBeat(first, n, 62)
    ensures e <= n && OnBeat(first, e, 310) && PulseOffset(n - e)
  {
    var d := n - first;
    var q, r := d / 310, d % 310;
    e := n - r;
    assert e - first == 310 * q;
    OffsetsOf62(if r <= 248 then r else 0);
  }

  /** With the external period 310 the whole pulse train is even: one pulse every 62 clocks. */
  lemma BoosterEven(ext: nat -> bool, first: nat, n: nat)
    requires Periodic(ext, first)
    ensures BoosterAt(ext, n + 1).trig <==> OnBeat(first, n, 62)
  {
    hide OnBeat, PulseOffset;
    forall e, f | 0 <= e < f < n + 1 && ext(e) && ext(f)
      ensures f - e >= 250
    {
      BeatsApart(first, e, f);
    }
    BoosterLaw(ext, n + 1);
    if BoosterDue(ext, n + 1) {
      var e: nat :| e < n + 1 && ext(e) && PulseOffset(n - e);
      BeatOffset(first, e, n - e);
    }
    if OnBeat(first, n, 62) {
      var e := LastBeat(first, n);
      assert ext(e) && PulseOffset(n + 1 - 1 - e);
    }
  }
}
