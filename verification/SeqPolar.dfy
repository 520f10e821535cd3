/** The clocked converter of seqpolar.v and its refinement to the pure loop. */
module SeqPolar {
  import opened Bits
  import opened Cordic

  datatype In = In(reset: bool, stb: bool, x: int, y: int, aux: bool)

  datatype Regs = Regs(
    pre: Vec, v: Vec, cangle: int,
    idle: bool, preValid: bool, state: nat,
    aux: bool, done: bool, mag: int, phase: int, oAux: bool)

  const LAST: nat := 34

  /** The angle memory; entries past the table are never addressed. */
  function AngleMem(state: nat): int {
    if state < |ANGLES| then ANGLES[state] else 0
  }

  /** A vector as the 35-bit registers hold it. */
  function Held(v: Vec): Vec {
    Vec(Signed(v.x, HALF35), Signed(v.y, HALF35), v.ph)
  }

  /** The rotated vector register: the pre-rotated input when it has just arrived, one
      more rotation by the current shift and the registered angle otherwise. */
  function NextVec(s: Regs): Vec {
    if s.preValid then s.pre else Held(Rotate(s.v, s.state, s.cangle))
  }

  /** All registers after one rising edge, from their values before it. */
  function Next(s: Regs, i: In): Regs {
    var last := s.state >= LAST;
    Regs(
      Held(PreRotate(i.x, i.y)), NextVec(s), AngleMem(s.state),
      i.reset || (!i.stb && (s.idle || last)),
      !i.reset && i.stb && s.idle,
      if i.reset || s.idle || last then 0 else s.state + 1,
      !i.reset && (if i.stb && s.idle then i.aux else s.aux),
      !i.reset && last,
      if last then OutMag(s.v.x) else s.mag,
      if last then OutPhase(s.v.ph) else s.phase,
      if last then s.aux else s.oAux)
  }

  /** The converter object: each Clock is one rising edge, every process reading the
      register values from before the edge. */
  class Converter {
    var pre: Vec
    var v: Vec
    var cangle: int
    var idle: bool
    var preValid: bool
    var state: nat
    var aux: bool
    var done: bool
    var mag: int
    var phase: int
    var oAux: bool

    ghost function View(): Regs
      reads this
    {
      Regs(pre, v, cangle, idle, preValid, state, aux, done, mag, phase, oAux)
    }

    constructor ()
      ensures View() == Power()
    {
      pre, v, cangle := Vec(0, 0, 0), Vec(0, 0, 0), 0;
      idle, preValid, state := true, false, 0;
      aux, done, mag, phase, oAux := false, false, 0, 0, false;
    }

    /** The vector after the next edge. */
    method Rotator() returns (w: Vec)
      ensures w == NextVec(View())
    {
      var dx, dy := Asr(v.y, state), Asr(v.x, state);
      if preValid {
        w := pre;
      } else if v.y < 0 {
        w := Held(Vec(v.x - dx, v.y + dy, (v.ph - cangle) % TURN));
      } else {
        w := Held(Vec(v.x + dx, v.y - dy, (v.ph + cangle) % TURN));
      }
    }

    method Clock(i: In)
      modifies this
      ensures View() == Next(old(View()), i)
    {
      hide PreRotate, OutMag, OutPhase, AngleMem, Held, NextVec;
      var lastState := state >= LAST;
      var w := Rotator();
      if lastState {
        mag, phase, oAux := OutMag(v.x), OutPhase(v.ph), aux;
      }
      done := !i.reset && lastState;
      v := w;
      pre := Held(PreRotate(i.x, i.y));
      cangle := AngleMem(state);
      if i.reset {
        aux := false;
      } else if i.stb && idle {
        aux := i.aux;
      }
      preValid := !i.reset && i.stb && idle;
      state := if i.reset || idle || lastState then 0 else state + 1;
      idle := i.reset || (!i.stb && (lastState || idle));
    }
  }

  /** Power-on values: only idle, pre_valid and state are initialised by the source, the
      rest is never read before it is written. */
  function Power(): Regs {
    Regs(Vec(0, 0, 0), Vec(0, 0, 0), 0, true, false, 0, false, false, 0, 0, false)
  }

  /** The registers after n edges of the input stream. */
  function At(s: Regs, ins: nat -> In, n: nat): Regs {
    if n == 0 then s else Next(At(s, ins, n - 1), ins(n - 1))
  }

  /** Holds of every reachable state. */
  predicate Coherent(s: Regs) {
    && s.state <= LAST
    && (s.idle ==> s.state == 0 && !s.preValid)
    && (s.preValid ==> s.state == 0)
  }

  lemma {:induction false} StaysCoherent(s: Regs, ins: nat -> In, n: nat)
    requires Coherent(s)
    ensures Coherent(At(s, ins, n))
  {
    if n > 0 {
      StaysCoherent(s, ins, n - 1);
    }
  }

  /** Busy with k rotations of (x, y) done. */
  predicate Converting(s: Regs, x: int, y: int, aux: bool, k: nat) {
    && k <= STAGES
    && !s.idle && !s.preValid && !s.done
    && s.state == k + 1
    && s.v == Spin(PreRotate(x, y), ANGLES, k)
    && s.cangle == ANGLES[k]
    && s.aux == aux
  }

  lemma Accepted(s: Regs, i: In, j: In)
    requires Coherent(s) && s.idle && !i.reset && i.stb && !j.reset
    requires Fits(i.x, HALF29) && Fits(i.y, HALF29)
    ensures var m := Next(s, i); !m.idle && !m.done
    ensures Converting(Next(Next(s, i), j), i.x, i.y, i.aux, 0)
  {
    PreRotateLands(i.x, i.y);
  }

  lemma RotatesOn(s: Regs, x: int, y: int, aux: bool, k: nat, j: In)
    requires Fits(x, HALF29) && Fits(y, HALF29)
    requires Converting(s, x, y, aux, k) && k < STAGES && !j.reset
    ensures Converting(Next(s, j), x, y, aux, k + 1)
  {
    WordsFit(x, y, k + 1);
  }

  lemma Publishes(s: Regs, x: int, y: int, aux: bool, j: In)
    requires Converting(s, x, y, aux, STAGES) && !j.reset
    ensures Published(Next(s, j), x, y, aux, j.stb)
  {}

  /** The outputs hold the loop's result for (x, y), and the converter is idle again
      unless it was strobed on the last edge. */
  predicate Published(r: Regs, x: int, y: int, aux: bool, late: bool) {
    && r.done
    && r.mag == OutMag(FinalX(x, y))
    && r.phase == OutPhase(Spin(PreRotate(x, y), ANGLES, STAGES).ph)
    && r.oAux == aux
    && r.idle == !late
  }

  predicate NoReset(ins: nat -> In, from: nat, to: nat) {
    forall n :: from <= n < to ==> !ins(n).reset
  }

  /** A strobe with 29-bit inputs that finds the converter idle. */
  predicate Taken(s: Regs, ins: nat -> In, t: nat) {
    At(s, ins, t).idle && ins(t).stb && Fits(ins(t).x, HALF29) && Fits(ins(t).y, HALF29)
  }

  lemma {:induction false} ConvertsFrom(s: Regs, ins: nat -> In, t: nat, k: nat)
    requires Coherent(s) && Taken(s, ins, t)
    requires NoReset(ins, t, t + k + 2) && k <= STAGES
    ensures Converting(At(s, ins, t + k + 2), ins(t).x, ins(t).y, ins(t).aux, k)
  {
    hide Next, Converting;
    if k == 0 {
      StaysCoherent(s, ins, t);
      Accepted(At(s, ins, t), ins(t), ins(t + 1));
    } else {
      ConvertsFrom(s, ins, t, k - 1);
      RotatesOn(At(s, ins, t + k + 1), ins(t).x, ins(t).y, ins(t).aux, k - 1, ins(t + k + 1));
    }
  }

  lemma BusyUntilDone(s: Regs, ins: nat -> In, t: nat, n: nat)
    requires Coherent(s) && Taken(s, ins, t)
    requires NoReset(ins, t, t + 36) && t < n <= t + 35
    ensures !At(s, ins, n).done && !At(s, ins, n).idle
  {
    hide Next;
    if n == t + 1 {
      StaysCoherent(s, ins, t);
      Accepted(At(s, ins, t), ins(t), ins(t));
    } else {
      ConvertsFrom(s, ins, t, n - t - 2);
    }
  }

  /** The refinement: a strobe taken while idle makes the done pulse appear after exactly
      35 further edges, not earlier, whatever is strobed meanwhile, and the words published
      with it are those of the pure loop on the inputs at the strobe. */
  lemma Conversion(s: Regs, ins: nat -> In, t: nat)
    requires Coherent(s) && Taken(s, ins, t)
    requires NoReset(ins, t, t + 36)
    ensures forall n :: t < n <= t + 35 ==> !At(s, ins, n).done && !At(s, ins, n).idle
    ensures Published(At(s, ins, t + 36), ins(t).x, ins(t).y, ins(t).aux, ins(t + 35).stb)
  {
    forall n | t < n <= t + 35
      ensures !At(s, ins, n).done && !At(s, ins, n).idle
    {
      BusyUntilDone(s, ins, t, n);
    }
    ConvertsFrom(s, ins, t, STAGES);
    Publishes(At(s, ins, t + 35), ins(t).x, ins(t).y, ins(t).aux, ins(t + 35));
  }

  /** The quarter-turn law on the machine: in any two runs, a conversion of (x, y) and one of the
      vector a quarter, half or three quarters of a turn further on publish the same
      magnitude, and phases just so far apart. */
  lemma TurnedConversion(s: Regs, ins: nat -> In, t: nat, r: Regs, others: nat -> In, u: nat, quarters: nat)
    requires Coherent(s) && Taken(s, ins, t) && NoReset(ins, t, t + 36)
    requires Coherent(r) && Taken(r, others, u) && NoReset(others, u, u + 36)
    requires 0 < ins(t).x && 0 < ins(t).y && 1 <= quarters <= 3
    requires (others(u).x, others(u).y) == TurnedBy(ins(t).x, ins(t).y, quarters)
    ensures var a, b := At(s, ins, t + 36), At(r, others, u + 36);
      b.mag == a.mag && b.phase == (a.phase + 0x100_0000 * quarters) % 0x400_0000
  {
    hide At, Coherent, Taken, Spin, PreRotate, OutMag, OutPhase;
    Conversion(s, ins, t);
    Conversion(r, others, u);
    QuarterTurns(ins(t).x, ins(t).y);
  }

  function TurnedBy(x: int, y: int, quarters: nat): (int, int) {
    if quarters == 0 then (x, y) else if quarters == 1 then (-y, x) else if quarters == 2 then (-x, -y) else (y, -x)
  }

  /** A strobe that meets the last state is lost: the converter stays busy, loads nothing,
      and counts through a run whose outcome does not depend on the strobed values. */
  lemma LateStrobeLost(s: Regs, i: In, j: In, after: In)
    requires Coherent(s) && !s.idle && s.state == LAST
    requires i.stb && j.stb && !i.reset && !j.reset
    ensures var m := Next(s, i); !m.idle && !m.preValid && m.state == 0
    ensures Next(Next(s, i), after) == Next(Next(s, j), after)
  {}

  predicate LateStrobe(s: Regs, ins: nat -> In, t: nat) {
    !At(s, ins, t).idle && At(s, ins, t).state == LAST && ins(t).stb
  }

  /** Counting through another run with nothing new loaded. */
  predicate Spinning(r: Regs, k: nat) {
    !r.idle && !r.preValid && r.state == k && (k > 0 ==> !r.done)
  }

  lemma SpinningNext(r: Regs, i: In, k: nat)
    requires Spinning(r, k) && k < LAST && !i.reset
    ensures Spinning(Next(r, i), k + 1)
  {}

  lemma {:induction false} LateCounts(s: Regs, ins: nat -> In, t: nat, k: nat)
    requires Coherent(s) && LateStrobe(s, ins, t) && NoReset(ins, t, t + k + 1) && k <= LAST
    ensures Spinning(At(s, ins, t + k + 1), k)
  {
    hide Spinning, NextVec, PreRotate, OutMag, OutPhase;
    StaysCoherent(s, ins, t);
    if k == 0 {
      LateStart(At(s, ins, t), ins(t));
    } else {
      LateCounts(s, ins, t, k - 1);
      SpinningNext(At(s, ins, t + k), ins(t + k), k - 1);
    }
  }

  lemma LateStart(r: Regs, i: In)
    requires Coherent(r) && !r.idle && r.state == LAST && i.stb && !i.reset
    ensures Spinning(Next(r, i), 0)
  {}

  lemma SpinningEnds(r: Regs, i: In)
    requires Spinning(r, LAST) && !i.reset
    ensures var d := Next(r, i); d.done && d.idle == !i.stb && d.mag == OutMag(r.v.x)
  {}

  /** Two runs whose inputs differ only in the words strobed late. */
  predicate SameButWords(ins: nat -> In, other: nat -> In, t: nat, n: nat) {
    && other(t).stb == ins(t).stb && other(t).reset == ins(t).reset
    && forall k :: 0 <= k < n && k != t ==> other(k) == ins(k)
  }

  lemma {:induction false} SameRun(s: Regs, ins: nat -> In, other: nat -> In, t: nat, n: nat)
    requires SameButWords(ins, other, t, n)
    requires Coherent(s) && LateStrobe(s, ins, t) && !ins(t).reset
    ensures n <= t || t + 2 <= n ==> At(s, ins, n) == At(s, other, n)
  {
    hide Next, Coherent;
    if n == t + 2 {
      SameRun(s, ins, other, t, t);
      StaysCoherent(s, ins, t);
      LateStrobeLost(At(s, ins, t), ins(t), other(t), ins(t + 1));
    } else if n > 0 && n != t + 1 {
      SameRun(s, ins, other, t, n - 1);
    }
  }

  /** What a late strobe does lead to: 36 edges after it, and not before but for the pulse of
      the conversion that was just ending, a done pulse with stale words, which would be the same
      for any other strobed values: those of the old vector rotated on. */
  lemma LateStrobeEnds(s: Regs, ins: nat -> In, other: nat -> In, t: nat)
    requires Coherent(s) && LateStrobe(s, ins, t) && NoReset(ins, t, t + 36)
    requires SameButWords(ins, other, t, t + 36)
    ensures forall n :: t + 1 < n <= t + 35 ==> !At(s, ins, n).done && !At(s, ins, n).idle
    ensures At(s, ins, t + 36).done && At(s, ins, t + 36).idle == !ins(t + 35).stb
    ensures At(s, ins, t + 36).mag == OutMag(At(s, ins, t + 35).v.x)
    ensures At(s, other, t + 36) == At(s, ins, t + 36)
  {
    hide Next, Coherent, OutMag;
    forall n | t + 1 < n <= t + 35
      ensures !At(s, ins, n).done && !At(s, ins, n).idle
    {
      LateCounts(s, ins, t, n - t - 1);
    }
    LateCounts(s, ins, t, LAST);
    SpinningEnds(At(s, ins, t + 35), ins(t + 35));
    SameRun(s, ins, other, t, t + 36);
  }
}
