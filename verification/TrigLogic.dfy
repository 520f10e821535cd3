/** The trigger gate and busy latch of trig_logic.vhd. */
module TrigLogic {
  import S = SyncCdc

  const WORD: int := 0x1_0000_0000

  datatype In = In(reset: bool, trigsrc: bool, evr: bool, soft: bool, txDone: bool, active: bool, stamp: nat)

  datatype Regs = Regs(evr: S.Sync, soft: S.Sync,
                       trig: bool, lat: bool, running: bool, done: bool, cnt: nat, ts: nat)

  function Selected(s: Regs, trigsrc: bool): bool {
    S.Rise(if trigsrc then s.soft else s.evr)
  }

  /** All registers after one edge; ts is the timestamp pair the host reads, which reset leaves
      alone. The latch is cleared by the level of txtoioc_done; the
      synchronised pulse of it that the source also computes is not used. */
  function Next(s: Regs, i: In): Regs {
    Regs(
      S.Next(s.evr, i.reset, i.evr),
      S.Next(s.soft, i.reset, i.soft),
      !i.reset && !s.lat && Selected(s, i.trigsrc),
      !i.reset && (s.lat || s.trig) && !(s.lat && i.txDone),
      !i.reset && (s.running || (s.lat && i.active)) && !(s.running && !i.active),
      !i.reset && s.running && !i.active,
      if i.reset then 0 else if s.done then (s.cnt + 1) % WORD else s.cnt,
      if !i.reset && s.trig then i.stamp else s.ts)
  }

  /** The trigger object, process by process. */
  class Trigger {
    var evr: S.Sync
    var soft: S.Sync
    var trig: bool
    var lat: bool
    var running: bool
    var done: bool
    var cnt: nat
    var ts: nat

    function View(): Regs
      reads this
    {
      Regs(evr, soft, trig, lat, running, done, cnt, ts)
    }

    constructor ()
      ensures View() == Cleared()
    {
      evr, soft := S.Sync(false, false, false), S.Sync(false, false, false);
      trig, lat, running, done, cnt, ts := false, false, false, false, 0, 0;
    }

    method Clock(i: In)
      modifies this
      ensures View() == Next(old(View()), i)
    {
      hide S.Next, Selected;
      var rise := Selected(View(), i.trigsrc);
      var wasTrig, wasLat, wasRunning, wasDone := trig, lat, running, done;
      evr, soft := S.Next(evr, i.reset, i.evr), S.Next(soft, i.reset, i.soft);
      if i.reset {
        trig, lat, running, done, cnt := false, false, false, false, 0;
        return;
      }
      trig := if wasLat then false else rise;
      done := false;
      if wasTrig {
        lat := true;
        ts := i.stamp;
      }
      if wasLat && i.active {
        running := true;
      }
      if wasRunning && !i.active {
        done := true;
        running := false;
      }
      if wasLat && i.txDone {
        lat := false;
      }
      if wasDone {
        cnt := (cnt + 1) % WORD;
      }
    }
  }

  function Cleared(): Regs {
    Regs(S.Sync(false, false, false), S.Sync(false, false, false), false, false, false, false, 0, 0)
  }

  /** A reset leads from any state to the cleared one; only the timestamp stays. */
  lemma ResetClears(s: Regs, i: In)
    requires i.reset
    ensures Next(s, i) == Cleared().(ts := s.ts)
  {}

  function At(s: Regs, ins: nat -> In, n: nat): Regs {
    if n == 0 then s else Next(At(s, ins, n - 1), ins(n - 1))
  }

  /** The input of the selected trigger source. */
  function Source(i: In): bool {
    if i.trigsrc then i.soft else i.evr
  }

  lemma {:induction false} SyncAt(s: Regs, ins: nat -> In, n: nat)
    requires n >= 3 && forall k :: 0 <= k < n ==> !ins(k).reset
    ensures At(s, ins, n).evr == S.Sync(ins(n - 1).evr, ins(n - 2).evr, ins(n - 3).evr)
    ensures At(s, ins, n).soft == S.Sync(ins(n - 1).soft, ins(n - 2).soft, ins(n - 3).soft)
  {
    assert At(s, ins, n - 1) == Next(At(s, ins, n - 2), ins(n - 2));
    assert At(s, ins, n - 2) == Next(At(s, ins, n - 3), ins(n - 3));
  }

  /** Which triggers are accepted: while the latch is clear each 0-to-1 step of the selected source,
      and nothing else, gives a capture pulse, three edges after the edge that saw the 1. */
  lemma PulseLaw(s: Regs, ins: nat -> In, n: nat)
    requires n >= 3 && forall k :: 0 <= k <= n ==> !ins(k).reset && ins(k).trigsrc == ins(0).trigsrc
    ensures At(s, ins, n + 1).trig <==> !At(s, ins, n).lat && Source(ins(n - 2)) && !Source(ins(n - 3))
  {
    SyncAt(s, ins, n);
    hide At;
    AtNext(s, ins, n);
  }

  lemma AtNext(s: Regs, ins: nat -> In, n: nat)
    ensures At(s, ins, n + 1) == Next(At(s, ins, n), ins(n))
  {
    hide Next;
  }

  /** With the source selection fixed, the capture pulse lasts one clock and is never
      raised while the latch is set. */
  lemma PulseIsOneClock(s: Regs, i: In, j: In)
    requires i.trigsrc == j.trigsrc
    ensures Next(s, i).trig ==> !s.lat
    ensures Next(s, i).trig ==> !Next(Next(s, i), j).trig
  {}
}
