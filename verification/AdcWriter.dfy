/** The continuous writer of adc2dma.vhd: one 64-bit beat of four samples per clock. */
module AdcWriter {

  const WORD: int := 0x1_0000_0000
  const HALFWORD: int := 0x1_0000

  datatype Beat = Beat(tdata: nat, last: bool)

  /** One conversion of the four channels, as 16-bit words. */
  datatype Sample = Sample(a: nat, b: nat, c: nat, d: nat)

  predicate Words16(s: Sample) {
    s.a < HALFWORD && s.b < HALFWORD && s.c < HALFWORD && s.d < HALFWORD
  }

  function Pack(s: Sample): nat {
    (s.c * HALFWORD + s.d) * WORD + (s.a * HALFWORD + s.b)
  }

  datatype Ctl = Ctl(active: bool, wrlen: nat)

  function NextCtl(c: Ctl, trig: bool, len: nat): Ctl {
    if !c.active then (if trig then Ctl(true, len) else c)
    else Ctl(c.wrlen != 1, (c.wrlen - 1) % WORD)
  }

  datatype In = In(reset: bool, trig: bool, len: nat, adc: Sample)

  datatype Regs = Regs(ctl: Ctl, tvalid: bool, tlast: bool)

  function Next(s: Regs, i: In): Regs {
    if i.reset then Regs(Ctl(false, 0), false, false)
    else Regs(NextCtl(s.ctl, i.trig, i.len),
              if s.ctl.active then s.tvalid else i.trig,
              s.ctl.active && (s.tlast || s.ctl.wrlen == 1))
  }

  /** The writer object. */
  class Writer {
    var active: bool
    var wrlen: nat
    var tvalid: bool
    var tlast: bool

    function View(): Regs
      reads this
    {
      Regs(Ctl(active, wrlen), tvalid, tlast)
    }

    constructor ()
      ensures View() == Regs(Ctl(false, 0), false, false)
    {
      active, wrlen, tvalid, tlast := false, 0, false, false;
    }

    method Clock(i: In)
      modifies this
      ensures View() == Next(old(View()), i)
    {
      if i.reset {
        active, wrlen, tvalid, tlast := false, 0, false, false;
      } else if !active {
        tlast, tvalid := false, false;
        if i.trig {
          active, wrlen, tvalid := true, i.len, true;
        }
      } else {
        if wrlen == 1 {
          tlast := true;
          active := false;
        }
        wrlen := (wrlen - 1) % WORD;
      }
    }
  }

  /** A reset leads from any state to the idle one; without a trigger an idle writer sends nothing. */
  lemma ResetClears(s: Regs, i: In)
    ensures i.reset ==> Next(s, i) == Regs(Ctl(false, 0), false, false)
    ensures !s.ctl.active && !i.trig ==> !Next(s, i).tvalid && !Next(s, i).ctl.active
  {}

  function At(s: Regs, ins: nat -> In, n: nat): Regs {
    if n == 0 then s else Next(At(s, ins, n - 1), ins(n - 1))
  }

  /** The beats handed over at edges 0 .. n - 1: the sample present at the edge. */
  function Sent(s: Regs, ins: nat -> In, n: nat): seq<Beat> {
    if n == 0 then []
    else Sent(s, ins, n - 1)
         + (if At(s, ins, n - 1).tvalid then [Beat(Pack(ins(n - 1).adc), At(s, ins, n - 1).tlast)] else [])
  }

  lemma {:induction false} BurstAt(s: Regs, ins: nat -> In, len: nat, n: nat)
    requires s == Regs(Ctl(true, len), true, false) && 1 <= len < WORD && n <= len
    requires forall k :: 0 <= k < len ==> !ins(k).reset
    ensures At(s, ins, n) == Regs(Ctl(n < len, len - n), true, n == len)
    ensures Sent(s, ins, n) == seq(n, (k: nat) => Beat(Pack(ins(k).adc), false))
  {
    if n > 0 {
      BurstAt(s, ins, len, n - 1);
    }
  }

  /** A trigger with burst length len gives exactly len + 1 beats on consecutive clocks, the
      samples of those clocks, with tlast on the last beat only. Triggers during the burst are
      ignored; behind the last beat the writer is idle, or busy again if that edge
      brought a trigger. */
  lemma Burst(idle: Regs, trig: In, ins: nat -> In)
    requires !idle.ctl.active && trig.trig && !trig.reset && 1 <= trig.len < WORD
    requires forall k :: 0 <= k <= trig.len ==> !ins(k).reset
    ensures var s, len := Next(idle, trig), trig.len;
      && Sent(s, ins, len + 1) == seq(len + 1, (k: nat) => Beat(Pack(ins(k).adc), k == len))
      && At(s, ins, len + 1) == (if ins(len).trig then Regs(Ctl(true, ins(len).len), true, false)
                                 else Regs(Ctl(false, 0), false, false))
  {
    BurstAt(Next(idle, trig), ins, trig.len, trig.len);
  }
}
