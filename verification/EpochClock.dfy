/** The one-second square wave and the epoch counter of evg_top.vhd. */
module EpochClock {

  const WORD: int := 0x1_0000_0000
  const HALF_SECOND: int := 50000000
  const EPOCH: nat := 1761037205

  datatype Regs = Regs(cnt: nat, sig: bool, epoch: nat)

  /** All registers after one edge, out of reset. */
  function Next(s: Regs): Regs {
    if s.cnt == HALF_SECOND - 1
    then Regs(0, !s.sig, if s.sig then s.epoch else (s.epoch + 1) % WORD)
    else Regs((s.cnt + 1) % WORD, s.sig, s.epoch)
  }

  /** The clock object. */
  class Clock {
    var cnt: nat
    var sig: bool
    var epoch: nat

    function View(): Regs
      reads this
    {
      Regs(cnt, sig, epoch)
    }

    constructor ()
      ensures View() == Regs(0, false, EPOCH)
    {
      cnt, sig, epoch := 0, false, EPOCH;
    }

    method Tick()
      modifies this
      ensures View() == Next(old(View()))
    {
      if cnt == HALF_SECOND - 1 {
        if !sig {
          epoch := (epoch + 1) % WORD;
        }
        cnt := 0;
        sig := !sig;
      } else {
        cnt := (cnt + 1) % WORD;
      }
    }
  }

  function At(n: nat): Regs {
    if n == 0 then Regs(0, false, EPOCH) else Next(At(n - 1))
  }

  /** The registers r clocks into half second number h. */
  function Closed(h: nat, r: nat): Regs {
    Regs(r, h % 2 == 1, (EPOCH + (h + 1) / 2) % WORD)
  }

  lemma ClosedNext(h: nat, r: nat)
    requires r < HALF_SECOND
    ensures Next(Closed(h, r)) == if r == HALF_SECOND - 1 then Closed(h + 1, 0) else Closed(h, r + 1)
  {
    var e := EPOCH + (h + 1) / 2;
    if h % 2 == 1 {
      assert (h + 2) / 2 == (h + 1) / 2;
    } else {
      assert (h + 2) / 2 == (h + 1) / 2 + 1;
      AddOne(e);
    }
  }

  lemma AddOne(e: nat)
    ensures (e % WORD + 1) % WORD == (e + 1) % WORD
  {}

  lemma Carry(n: nat)
    requires n > 0
    ensures var q, r := (n - 1) / HALF_SECOND, (n - 1) % HALF_SECOND;
      if r == HALF_SECOND - 1 then n / HALF_SECOND == q + 1 && n % HALF_SECOND == 0
      else n / HALF_SECOND == q && n % HALF_SECOND == r + 1
  {
    var q := (n - 1) / HALF_SECOND;
    assert n - 1 == HALF_SECOND * q + (n - 1) % HALF_SECOND;
  }

  /** The wave toggles every half second and the epoch counts its rising edges: the word has
      grown by one at each start of a frame and is steady for the second after it. */
  lemma {:induction false} EpochCountsRises(n: nat)
    ensures At(n) == Closed(n / HALF_SECOND, n % HALF_SECOND)
  {
    hide Closed, Next;
    if n == 0 {
      ClosedStart();
    } else {
      EpochCountsRises(n - 1);
      Carry(n);
      ClosedNext((n - 1) / HALF_SECOND, (n - 1) % HALF_SECOND);
    }
  }

  lemma ClosedStart()
    ensures At(0) == Closed(0, 0)
  {}
}
