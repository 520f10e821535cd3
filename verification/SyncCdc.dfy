/** The three-stage synchroniser with rising-edge pulse of sync_cdc.vhd. */
module SyncCdc {

  datatype Sync = Sync(s0: bool, s1: bool, s2: bool)

  function Next(s: Sync, reset: bool, din: bool): Sync {
    if reset then Sync(false, false, false) else Sync(din, s.s0, s.s1)
  }

  predicate Rise(s: Sync) {
    s.s1 && !s.s2
  }

  /** The shift register object. */
  class Synchroniser {
    var s0: bool
    var s1: bool
    var s2: bool

    function View(): Sync
      reads this
    {
      Sync(s0, s1, s2)
    }

    constructor ()
      ensures View() == Sync(false, false, false)
    {
      s0, s1, s2 := false, false, false;
    }

    method Clock(reset: bool, din: bool)
      modifies this
      ensures View() == Next(old(View()), reset, din)
    {
      if reset {
        s0, s1, s2 := false, false, false;
      } else {
        s0, s1, s2 := din, s0, s1;
      }
    }
  }

  lemma ResetClears(s: Sync, din: bool)
    ensures Next(s, true, din) == Sync(false, false, false)
  {}

  function At(s: Sync, din: nat -> bool, n: nat): Sync {
    if n == 0 then s else Next(At(s, din, n - 1), false, din(n - 1))
  }

  /** Each 0-to-1 step of the input gives one pulse, two edges after the edge that first
      saw the 1, and nothing else gives a pulse. */
  lemma RiseIsEdge(s: Sync, din: nat -> bool, n: nat)
    requires n >= 3
    ensures Rise(At(s, din, n)) <==> din(n - 2) && !din(n - 3)
    ensures Rise(At(s, din, n)) ==> !Rise(At(s, din, n + 1))
  {
    assert At(s, din, n - 2) == Next(At(s, din, n - 3), false, din(n - 3));
    assert At(s, din, n - 1) == Next(At(s, din, n - 2), false, din(n - 2));
  }
}
