/** The time-of-day sender of ts_gen.vhd and the transmit register of evg_top.vhd. */
module TsGen {
  import E = EventTime

  const IDLE_BYTE: nat := 0xBC
  const TICK: nat := 32

  datatype State = Idle | Send1Hz | Prepause | Active | Pause | CheckIfLast | Update

  datatype Regs = Regs(st: State, idx: nat, dly: nat, dout: nat, val: bool)

  function Code(bit: bool): nat {
    if bit then E.ONE_BIT else E.ZERO_BIT
  }

  function Next(s: Regs, rst: bool, start: bool, din: E.Bits): Regs
    requires s.idx < 32
  {
    if rst then Regs(Idle, s.idx, s.dly, 0, false)
    else match s.st
      case Idle => Regs(if start then Send1Hz else Idle, if start then 31 else s.idx, 0, s.dout, false)
      case Send1Hz => Regs(Prepause, s.idx, s.dly, TICK, true)
      case Prepause =>
        if s.dly == 10 then Regs(Active, s.idx, 0, s.dout, false)
        else Regs(Prepause, s.idx, (s.dly + 1) % 256, s.dout, false)
      case Active => Regs(Pause, s.idx, s.dly, Code(din[s.idx]), true)
      case Pause =>
        if s.dly == 10 then Regs(CheckIfLast, s.idx, 0, s.dout, false)
        else Regs(Pause, s.idx, (s.dly + 1) % 256, s.dout, false)
      case CheckIfLast =>
        if s.idx == 0 then Regs(Update, 0, s.dly, s.dout, false)
        else Regs(Active, s.idx - 1, s.dly, s.dout, false)
      case Update => Regs(Idle, s.idx, s.dly, E.LATCH, true)
  }

  /** The low byte of the transmit register: the code for one clock, the idle byte otherwise. */
  function NextLink(s: Regs, rst: bool): nat {
    if !rst && s.val then s.dout else IDLE_BYTE
  }

  /** The sender object with its transmit register. */
  class Sender {
    var st: State
    var idx: nat
    var dly: nat
    var dout: nat
    var val: bool
    var link: nat

    function View(): Regs
      reads this
    {
      Regs(st, idx, dly, dout, val)
    }

    constructor ()
      ensures View() == Regs(Idle, 0, 0, 0, false) && link == IDLE_BYTE
    {
      st, idx, dly, dout, val, link := Idle, 0, 0, 0, false, IDLE_BYTE;
    }

    method Clock(rst: bool, start: bool, din: E.Bits)
      requires idx < 32
      modifies this
      ensures View() == Next(old(View()), rst, start, din)
      ensures link == NextLink(old(View()), rst)
    {
      link := if !rst && val then dout else IDLE_BYTE;
      if rst {
        st, dout, val := Idle, 0, false;
        return;
      }
      match st {
        case Idle =>
          val, dly := false, 0;
          if start {
            st, idx := Send1Hz, 31;
          }
        case Send1Hz =>
          dout, val, st := TICK, true, Prepause;
        case Prepause =>
          val := false;
          if dly == 10 {
            dly, st := 0, Active;
          } else {
            dly := (dly + 1) % 256;
          }
        case Active =>
          dout := if din[idx] then E.ONE_BIT else E.ZERO_BIT;
          val, st := true, Pause;
        case Pause =>
          val := false;
          if dly == 10 {
            dly, st := 0, CheckIfLast;
          } else {
            dly := (dly + 1) % 256;
          }
        case CheckIfLast =>
          val := false;
          if idx == 0 {
            st := Update;
          } else {
            idx, st := idx - 1, Active;
          }
        case Update =>
          dout, val, st := E.LATCH, true, Idle;
      }
    }
  }
}
