/** The delay and width generator of event_rcv_chan.vhd. */
module EventChannel {

  const WORD: int := 0x1_0000_0000

  datatype Regs = Regs(delay: nat, width: nat, startDelay: bool, startWidth: bool)

  /** The programmed delay and width. */
  datatype Config = Config(delay: nat, width: nat)

  predicate Valid(c: Config) {
    1 <= c.delay < WORD - 1 && 1 <= c.width < WORD - 1
  }

  /** All registers after one edge; event says whether the stream carries the channel's code. */
  function Next(c: Config, s: Regs, reset: bool, event: bool): Regs {
    if reset then Regs(0, 0, false, false)
    else Regs(
      if s.startDelay then (s.delay + 1) % WORD else if s.delay >= c.delay then 0 else s.delay,
      if s.startWidth then (s.width + 1) % WORD else if s.width >= c.width then 0 else s.width,
      event || (s.startDelay && s.delay < c.delay),
      s.delay > c.delay || (s.startWidth && s.width < c.width))
  }

  predicate Trigger(c: Config, s: Regs, polarity: bool) {
    c.delay != 0 && c.width != 0 && s.startWidth != polarity
  }

  /** The channel object, process by process. */
  class Channel {
    var delay: nat
    var width: nat
    var startDelay: bool
    var startWidth: bool

    function View(): Regs
      reads this
    {
      Regs(delay, width, startDelay, startWidth)
    }

    constructor ()
      ensures View() == Regs(0, 0, false, false)
    {
      delay, width, startDelay, startWidth := 0, 0, false, false;
    }

    method Clock(c: Config, reset: bool, event: bool)
      modifies this
      ensures View() == Next(c, old(View()), reset, event)
    {
      if reset {
        delay, width, startDelay, startWidth := 0, 0, false, false;
        return;
      }
      var delayUp, delayPast, widthUp := delay >= c.delay, delay > c.delay, width >= c.width;
      if startDelay {
        delay := (delay + 1) % WORD;
      } else if delayUp {
        delay := 0;
      }
      if startWidth {
        width := (width + 1) % WORD;
      } else if widthUp {
        width := 0;
      }
      if event {
        startDelay := true;
      } else if delayUp {
        startDelay := false;
      }
      if delayPast {
        startWidth := true;
      } else if widthUp {
        startWidth := false;
      }
    }
  }

  /** A delay or width of 0 disables the channel, whatever its polarity and state. */
  lemma ZeroDisables(c: Config, s: Regs, polarity: bool)
    ensures c.delay == 0 || c.width == 0 ==> !Trigger(c, s, polarity)
    ensures c.delay != 0 && c.width != 0 ==> Trigger(c, s, !polarity) == !Trigger(c, s, polarity)
  {}

  /** A reset leads from any state to the start of a run. */
  lemma ResetStarts(c: Config, s: Regs, event: bool, events: nat -> bool)
    ensures Next(c, s, true, event) == At(c, events, 0)
  {}

  function At(c: Config, events: nat -> bool, n: nat): Regs {
    if n == 0 then Regs(0, 0, false, false) else Next(c, At(c, events, n - 1), false, events(n - 1))
  }

  /** The registers a clocks after an event, nothing else having happened. */
  function Closed(c: Config, a: nat): Regs {
    Regs(
      if 1 <= a <= c.delay + 2 then a - 1 else 0,
      if c.delay + 3 <= a <= c.delay + c.width + 4 then a - c.delay - 3 else 0,
      1 <= a <= c.delay + 1,
      c.delay + 3 <= a <= c.delay + c.width + 3)
  }

  lemma ClosedNext(c: Config, a: nat, event: bool)
    requires Valid(c) && a >= 1
    requires event ==> a >= c.delay + c.width + 4
    ensures Next(c, Closed(c, a), false, event) == Closed(c, if event then 1 else a + 1)
  {}

  /** Clocks since the last event before edge n; counted from far back when there was none. */
  function Age(c: Config, events: nat -> bool, n: nat): (a: nat)
    ensures a >= 1
  {
    if n == 0 then c.delay + c.width + 5 else if events(n - 1) then 1 else Age(c, events, n - 1) + 1
  }

  /** Events are far enough apart for the channel to come to rest. */
  predicate Spaced(c: Config, events: nat -> bool, n: nat) {
    forall e, f :: 0 <= e < f < n && events(e) && events(f) ==> f - e >= c.delay + c.width + 4
  }

  /** The last event lies Age clocks back, unless there was none. */
  lemma {:induction false} AgeIsEvent(c: Config, events: nat -> bool, n: nat)
    ensures var a := Age(c, events, n);
      && (a <= n ==> events(n - a))
      && (forall e :: n - a < e < n && e >= 0 ==> !events(e))
      && (a > n ==> a == n + c.delay + c.width + 5)
  {
    if n > 0 {
      AgeIsEvent(c, events, n - 1);
    }
  }

  lemma {:induction false} ClosedAt(c: Config, events: nat -> bool, n: nat)
    requires Valid(c) && Spaced(c, events, n)
    ensures At(c, events, n) == Closed(c, Age(c, events, n))
  {
    if n > 0 {
      ClosedAt(c, events, n - 1);
      AgeIsEvent(c, events, n - 1);
      ClosedNext(c, Age(c, events, n - 1), events(n - 1));
    }
  }

  /** After n edges the output is active exactly when some event edge e lies so far back that
      the (delay + 2)-th edge after it has passed, and no more than width further ones. */
  predicate Due(c: Config, events: nat -> bool, n: nat) {
    exists e: nat :: e < n && events(e) && e + c.delay + 3 <= n <= e + c.delay + c.width + 3
  }

  /** The pulse law: every event gives one pulse of width + 1 clocks starting delay + 2 edges
      after it, and the output is never active otherwise; the polarity bit inverts it. */
  lemma PulseLaw(c: Config, events: nat -> bool, n: nat, polarity: bool)
    requires Valid(c) && Spaced(c, events, n)
    ensures Trigger(c, At(c, events, n), polarity) <==> Due(c, events, n) != polarity
  {
    ClosedAt(c, events, n);
    AgeIsEvent(c, events, n);
    var a := Age(c, events, n);
    if Due(c, events, n) {
      var e: nat :| e < n && events(e) && e + c.delay + 3 <= n <= e + c.delay + c.width + 3;
      assert a <= n - e;
      assert events(n - a);
    }
  }

  /** The rising edges are exactly the events, delay + 3 clocks later: one pulse per event. */
  lemma OneRisePerEvent(c: Config, events: nat -> bool, n: nat)
    requires Valid(c) && Spaced(c, events, n + 1)
    ensures Trigger(c, At(c, events, n + 1), false) && !Trigger(c, At(c, events, n), false)
       <==> n >= c.delay + 2 && events(n - c.delay - 2)
  {
    PulseLaw(c, events, n, false);
    PulseLaw(c, events, n + 1, false);
    if n >= c.delay + 2 && events(n - c.delay - 2) {
      var e: nat := n - c.delay - 2;
      assert e < n + 1 && events(e) && e + c.delay + 3 <= n + 1 <= e + c.delay + c.width + 3;
    }
  }
}
