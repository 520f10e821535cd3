/** The time-of-day receiver of event_rcv_ts.vhd. */
module EventTime {

  const WORD: int := 0x1_0000_0000
  const ZERO_BIT: nat := 0x70
  const ONE_BIT: nat := 0x71
  const LATCH: nat := 0x7D

  /** A 32-bit word by its bits; index 0 is the least significant. */
  type Bits = w: seq<bool> | |w| == 32 witness seq(32, _ => false)

  function Zeros(): Bits {
    seq(32, _ => false)
  }

  function Value(w: seq<bool>): nat {
    if w == [] then 0 else (if w[0] then 1 else 0) + 2 * Value(w[1..])
  }

  /** The 64-bit output: seconds above clocks since the last latch. */
  datatype Stamp = Stamp(sec: Bits, off: nat)

  datatype Regs = Regs(pos: nat, tmp: Bits, sec: Bits, off: nat, clear: bool, clearReg: bool, stamp: Stamp)

  predicate Ranged(r: Regs) {
    r.pos < 32 && r.off < WORD
  }

  predicate IsBit(b: nat) {
    b == ZERO_BIT || b == ONE_BIT
  }

  /** All registers after one edge. The accumulated bits are cleared two edges after the
      latch event, and clearing wins over a bit arriving on that edge. */
  function Next(r: Regs, reset: bool, b: nat): (s: Regs)
    requires Ranged(r)
    ensures Ranged(s)
  {
    Regs(
      if b == LATCH then 31 else if IsBit(b) then (r.pos - 1) % 32 else r.pos,
      if reset || r.clearReg then Zeros() else if IsBit(b) then r.tmp[r.pos := b == ONE_BIT] else r.tmp,
      if b == LATCH then r.tmp else r.sec,
      if b == LATCH then 0 else (r.off + 1) % WORD,
      b == LATCH,
      r.clear,
      if reset then Stamp(Zeros(), 0) else Stamp(r.sec, r.off))
  }

  /** The receiver object. */
  class Receiver {
    var pos: nat
    var tmp: Bits
    var sec: Bits
    var off: nat
    var clear: bool
    var clearReg: bool
    var stamp: Stamp

    function View(): Regs
      reads this
    {
      Regs(pos, tmp, sec, off, clear, clearReg, stamp)
    }

    constructor ()
      ensures View() == Regs(31, Zeros(), Zeros(), 0, false, false, Stamp(Zeros(), 0))
    {
      pos, tmp, sec, off := 31, Zeros(), Zeros(), 0;
      clear, clearReg, stamp := false, false, Stamp(Zeros(), 0);
    }

    method Clock(reset: bool, b: nat)
      requires Ranged(View())
      modifies this
      ensures View() == Next(old(View()), reset, b)
    {
      stamp := if reset then Stamp(Zeros(), 0) else Stamp(sec, off);
      if b == LATCH {
        sec := tmp;
        off := 0;
      } else {
        off := (off + 1) % WORD;
      }
      if reset || clearReg {
        tmp := Zeros();
      } else if b == ZERO_BIT {
        tmp := tmp[pos := false];
      } else if b == ONE_BIT {
        tmp := tmp[pos := true];
      }
      if b == LATCH {
        pos := 31;
      } else if b == ZERO_BIT || b == ONE_BIT {
        pos := (pos - 1) % 32;
      }
      clear, clearReg := b == LATCH, clear;
    }
  }

  /** The receiver on a byte stream, out of reset. */
  function At(r: Regs, bytes: nat -> nat, n: nat): (s: Regs)
    requires Ranged(r)
    ensures Ranged(s)
  {
    if n == 0 then r else Next(At(r, bytes, n - 1), false, bytes(n - 1))
  }

  function Delayed(bytes: nat -> nat, before: nat -> nat, d: nat): nat -> nat {
    (k: nat) => if k < d then before(k) else bytes(k - d)
  }

  /** A link delay only shifts the receiver: after the delay it runs on the undelayed stream
      from whatever state the earlier bytes left it in. */
  lemma {:induction false} DelayShifts(r: Regs, bytes: nat -> nat, before: nat -> nat, d: nat, n: nat)
    requires Ranged(r)
    ensures At(r, Delayed(bytes, before, d), n + d) == At(At(r, Delayed(bytes, before, d), d), bytes, n)
  {
    hide At, Next, Delayed;
    var all := Delayed(bytes, before, d);
    if n == 0 {
      AtStart(At(r, all, d), bytes);
    } else {
      DelayShifts(r, bytes, before, d, n - 1);
      DelayedByte(bytes, before, d, n - 1);
      AtNext(r, all, n - 1 + d);
      AtNext(At(r, all, d), bytes, n - 1);
    }
  }

  lemma DelayedByte(bytes: nat -> nat, before: nat -> nat, d: nat, k: nat)
    ensures Delayed(bytes, before, d)(k + d) == bytes(k)
  {}

  lemma AtStart(r: Regs, bytes: nat -> nat)
    requires Ranged(r)
    ensures At(r, bytes, 0) == r
  {}

  // ---------------------------------------------------------- monotone timestamps

  predicate Later(a: Stamp, b: Stamp) {
    Value(a.sec) < Value(b.sec) || (Value(a.sec) == Value(b.sec) && a.off < b.off)
  }

  /** Whether this clock lets the timestamp advance: at a latch the new seconds must be larger,
      otherwise the clock count must not wrap. */
  predicate Advances(r: Regs, b: nat) {
    if b == LATCH then Value(r.tmp) > Value(r.sec) else r.off + 1 < WORD
  }

  /** Seconds and offset change together, so two neighbouring timestamps are in order
      exactly when the clock between them advances. */
  lemma StampStep(r: Regs, b: nat, c: nat)
    requires Ranged(r)
    ensures var s := Next(r, false, b); Later(s.stamp, Next(s, false, c).stamp) <==> Advances(r, b)
  {}

  // ---------------------------------------------------------- what the stream says

  /** The latest latch event before clock n, in a stream with one at p. */
  function LastLatch(bytes: nat -> nat, p: nat, n: nat): (q: nat)
    requires p < n
    ensures p <= q < n
  {
    if n == p + 1 || bytes(n - 1) == LATCH then n - 1 else LastLatch(bytes, p, n - 1)
  }

  /** The place of the next bit: each latch event starts over at 31, each bit goes one down. */
  function Place(bytes: nat -> nat, p: nat, n: nat): (k: nat)
    requires p < n
    ensures k < 32
  {
    if n == p + 1 || bytes(n - 1) == LATCH then 31
    else if IsBit(bytes(n - 1)) then (Place(bytes, p, n - 1) - 1) % 32
    else Place(bytes, p, n - 1)
  }

  /** The word the stream spells by clock n: the bits since the last latch event, of which
      those on the two clocks right behind it do not count. */
  function Spelled(bytes: nat -> nat, p: nat, n: nat): Bits
    requires p + 3 <= n
  {
    if n == p + 3 || bytes(n - 3) == LATCH then Zeros()
    else if IsBit(bytes(n - 1)) then Spelled(bytes, p, n - 1)[Place(bytes, p, n - 1) := bytes(n - 1) == ONE_BIT]
    else Spelled(bytes, p, n - 1)
  }

  lemma ModSucc(a: nat)
    ensures (a % WORD + 1) % WORD == (a + 1) % WORD
    ensures a % WORD + 1 < WORD <==> (a + 1) % WORD != 0
  {}

  /** The registers as the stream determines them, whatever they held before the latch event
      at p: clocks since the last latch, place of the next bit, word so far, and, once a whole
      word has passed, the seconds. */
  predicate Reads(s: Regs, bytes: nat -> nat, p: nat, n: nat)
    requires p < n
  {
    var last := LastLatch(bytes, p, n);
    && s.off == (n - last - 1) % WORD && s.pos == Place(bytes, p, n)
    && s.clear == (bytes(n - 1) == LATCH)
    && (p + 2 <= n ==> s.clearReg == (bytes(n - 2) == LATCH))
    && (p + 3 <= n ==> s.tmp == Spelled(bytes, p, n))
    && (p + 3 <= last ==> s.sec == Spelled(bytes, p, last))
  }

  lemma {:induction false} ReceiverReads(r: Regs, bytes: nat -> nat, p: nat, n: nat)
    requires Ranged(r) && bytes(p) == LATCH && p < n
    ensures Reads(At(r, bytes, n), bytes, p, n)
  {
    if n > p + 1 {
      ReceiverReads(r, bytes, p, n - 1);
      ModSucc(n - 1 - LastLatch(bytes, p, n - 1) - 1);
    }
  }

  lemma {:induction false} LastLatchFrom(bytes: nat -> nat, p: nat, q: nat, n: nat)
    requires p <= q < n && bytes(q) == LATCH
    ensures LastLatch(bytes, p, n) >= q
  {
    if n > q + 1 {
      LastLatchFrom(bytes, p, q, n - 1);
    }
  }

  /** The value of the timestamp: once a whole word has passed, it is the word of the latest latch
      event before the clock before, and the clocks since that event, modulo 2^32. */
  lemma StampValue(r: Regs, bytes: nat -> nat, p: nat, n: nat)
    requires Ranged(r) && bytes(p) == LATCH && p < n && p + 3 <= LastLatch(bytes, p, n)
    ensures var last := LastLatch(bytes, p, n);
      At(r, bytes, n + 1).stamp == Stamp(Spelled(bytes, p, last), (n - last - 1) % WORD)
  {
    hide Spelled, Place, LastLatch;
    ReceiverReads(r, bytes, p, n);
  }

  /** A reset clears the timestamp and the word so far, and nothing else; from there on the laws
      of the stream hold as from any other state. */
  lemma ResetClears(r: Regs, b: nat)
    requires Ranged(r)
    ensures var s, t := Next(r, true, b), Next(r, false, b);
      s.stamp == Stamp(Zeros(), 0) && s.tmp == Zeros() && s == t.(stamp := s.stamp, tmp := s.tmp)
  {}

  /** Whether the stream moves the timestamp on at clock k: a latch event must carry a larger
      word than the last one, any other clock must not be 2^32 clocks behind it. */
  predicate Moves(bytes: nat -> nat, p: nat, k: nat)
    requires p < k && p + 3 <= LastLatch(bytes, p, k)
  {
    var last := LastLatch(bytes, p, k);
    if bytes(k) == LATCH then Value(Spelled(bytes, p, k)) > Value(Spelled(bytes, p, last))
    else (k - last) % WORD != 0
  }

  /** Neighbouring timestamps are in order exactly when the stream moves on between them. */
  lemma StreamStep(r: Regs, bytes: nat -> nat, p: nat, k: nat)
    requires Ranged(r) && bytes(p) == LATCH && p < k && p + 3 <= LastLatch(bytes, p, k)
    ensures Later(At(r, bytes, k + 1).stamp, At(r, bytes, k + 2).stamp) <==> Moves(bytes, p, k)
  {
    hide At, Next, Later, LastLatch, Reads, Moves, Advances;
    ReceiverReads(r, bytes, p, k);
    AtNext(r, bytes, k);
    AtNext(r, bytes, k + 1);
    StampStep(At(r, bytes, k), bytes(k), bytes(k + 1));
    MovesAdvances(At(r, bytes, k), bytes, p, k);
  }

  lemma MovesAdvances(s: Regs, bytes: nat -> nat, p: nat, k: nat)
    requires p < k && p + 3 <= LastLatch(bytes, p, k) && Reads(s, bytes, p, k)
    ensures Advances(s, bytes(k)) <==> Moves(bytes, p, k)
  {
    hide Value, Spelled, Place, LastLatch;
    ModSucc(k - LastLatch(bytes, p, k) - 1);
  }

  lemma AtNext(r: Regs, bytes: nat -> nat, n: nat)
    requires Ranged(r)
    ensures At(r, bytes, n + 1) == Next(At(r, bytes, n), false, bytes(n))
  {
    hide Next;
  }

  predicate LaterAt(r: Regs, bytes: nat -> nat, k: nat)
    requires Ranged(r)
  {
    Later(At(r, bytes, k).stamp, At(r, bytes, k + 1).stamp)
  }

  lemma {:induction false} LaterChain(r: Regs, bytes: nat -> nat, i: nat, j: nat)
    requires Ranged(r) && i < j
    requires forall k :: i <= k < j ==> LaterAt(r, bytes, k)
    ensures Later(At(r, bytes, i).stamp, At(r, bytes, j).stamp)
    decreases j
  {
    hide At;
    assert LaterAt(r, bytes, j - 1);
    if i < j - 1 {
      LaterChain(r, bytes, i, j - 1);
    }
  }

  /** Latch events come within 2^32 clocks of each other and their words grow. */
  predicate Onward(bytes: nat -> nat, p: nat, k: nat)
    requires p + 3 <= k
  {
    var last := LastLatch(bytes, p, k);
    if bytes(k) == LATCH then p + 3 <= last && Value(Spelled(bytes, p, k)) > Value(Spelled(bytes, p, last))
    else k - last < WORD
  }

  /** Timestamp monotonicity: on any stream with a latch event at p and a later one at q, if
      from then on each latch event carries a larger word than the one before it and comes no
      more than 2^32 clocks after it, the 64-bit timestamp strictly increases on every clock,
      whatever state the receiver started in. */
  lemma StampMonotone(r: Regs, bytes: nat -> nat, p: nat, q: nat, i: nat, j: nat)
    requires Ranged(r) && bytes(p) == LATCH && bytes(q) == LATCH && p + 3 <= q
    requires q + 2 <= i < j
    requires forall k :: q < k < j - 1 ==> Onward(bytes, p, k)
    ensures Later(At(r, bytes, i).stamp, At(r, bytes, j).stamp)
  {
    hide At, Later, Spelled, LastLatch;
    forall k | i <= k < j
      ensures LaterAt(r, bytes, k)
    {
      assert Onward(bytes, p, k - 1);
      LastLatchFrom(bytes, p, q, k - 1);
      StreamStep(r, bytes, p, k - 1);
    }
    LaterChain(r, bytes, i, j);
  }
}
