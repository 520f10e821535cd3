/** Sender and receiver joined by the link: what is sent is what is decoded. */
module TimeLink {
  import E = EventTime
  import G = TsGen

  /** The joint registers, and beside them: the word of the frame being sent, the word of the
      last frame that ended, and whether the receiver has seen a latch event. */
  datatype Joint = Joint(tx: G.Regs, link: nat, rx: E.Regs, frame: E.Bits, sent: E.Bits, synced: bool)

  datatype Env = Env(start: bool, din: E.Bits)

  predicate Ranged(j: Joint) {
    j.tx.idx < 32 && E.Ranged(j.rx)
  }

  function Next(j: Joint, e: Env): (k: Joint)
    requires Ranged(j)
    ensures Ranged(k)
  {
    Joint(
      G.Next(j.tx, false, e.start, e.din),
      G.NextLink(j.tx, false),
      E.Next(j.rx, false, j.link),
      if j.tx.st.Idle? then e.din else j.frame,
      if j.tx.st.Update? then j.frame else j.sent,
      j.synced || j.link == E.LATCH)
  }

  /** The word at the sender's input does not change while a frame is being sent. */
  predicate Stable(j: Joint, e: Env) {
    !j.tx.st.Idle? ==> e.din == j.frame
  }

  // ------------------------------------------------------------- the invariant

  predicate Quiet(b: nat) {
    b != E.LATCH && !E.IsBit(b)
  }

  /** What is on display at the sender and on the link, by sender state. */
  predicate TxInv(j: Joint)
    requires Ranged(j)
  {
    var s := j.tx;
    match s.st
    case Idle =>
      if s.val then s.dout == E.LATCH && Quiet(j.link) else j.link == E.LATCH || Quiet(j.link)
    case Send1Hz => !s.val && s.idx == 31 && s.dly == 0 && (j.link == E.LATCH || Quiet(j.link))
    case Prepause =>
      s.dly <= 10 && s.idx == 31 && Quiet(j.link) && s.val == (s.dly == 0) && (s.val ==> s.dout == G.TICK)
    case Active => !s.val && s.dly == 0 && Quiet(j.link)
    case Pause =>
      && s.dly <= 10 && s.val == (s.dly == 0)
      && (s.val ==> s.dout == G.Code(j.frame[s.idx]))
      && (if s.dly == 1 then j.link == G.Code(j.frame[s.idx]) else Quiet(j.link))
    case CheckIfLast => !s.val && s.dly == 0 && Quiet(j.link)
    case Update => !s.val && s.dly == 0 && s.idx == 0 && Quiet(j.link)
  }

  /** Bits lo and up have arrived. */
  predicate Arrived(j: Joint, lo: nat) {
    forall i :: lo <= i < 32 ==> j.rx.tmp[i] == j.frame[i]
  }

  predicate Settled(r: E.Regs) {
    !r.clear && !r.clearReg
  }

  /** Where the receiver stands once it has seen a latch event, by sender state. */
  predicate RxInv(j: Joint)
    requires Ranged(j)
  {
    var s, r := j.tx, j.rx;
    match s.st
    case Idle => r.pos == 31 && (s.val || j.link == E.LATCH ==> r.tmp == j.sent && Settled(r))
    case Send1Hz => r.pos == 31 && (j.link == E.LATCH ==> r.tmp == j.sent && Settled(r))
    case Prepause => r.pos == 31 && (s.dly >= 1 ==> !r.clear) && (s.dly >= 2 ==> !r.clearReg)
    case Active => Settled(r) && r.pos == s.idx && Arrived(j, s.idx + 1)
    case Pause =>
      && Settled(r)
      && (if s.dly <= 1 then r.pos == s.idx && Arrived(j, s.idx + 1)
          else r.pos == (s.idx - 1) % 32 && Arrived(j, s.idx))
    case CheckIfLast => Settled(r) && r.pos == (s.idx - 1) % 32 && Arrived(j, s.idx)
    case Update => Settled(r) && r.pos == 31 && Arrived(j, 0)
  }

  predicate Inv(j: Joint) {
    Ranged(j) && TxInv(j) && (j.synced ==> RxInv(j))
  }

  lemma TxNext(j: Joint, e: Env)
    requires Ranged(j) && TxInv(j) && Stable(j, e)
    ensures TxInv(Next(j, e))
  {}

  lemma RxNext(j: Joint, e: Env)
    requires Ranged(j) && TxInv(j) && RxInv(j) && Stable(j, e)
    ensures RxInv(Next(j, e))
  {
    var k := Next(j, e);
    if j.tx.st.Update? {
      assert k.rx.tmp == j.rx.tmp == j.frame;
    }
  }

  lemma SyncNext(j: Joint, e: Env)
    requires Ranged(j) && TxInv(j) && j.link == E.LATCH && Stable(j, e)
    ensures RxInv(Next(j, e))
  {}

  lemma InvNext(j: Joint, e: Env)
    requires Inv(j) && Stable(j, e)
    ensures Inv(Next(j, e))
  {
    TxNext(j, e);
    if j.synced {
      RxNext(j, e);
    } else if j.link == E.LATCH {
      SyncNext(j, e);
    }
  }

  // ------------------------------------------------------------- runs

  /** Where a run may begin: the sender anywhere, also in the middle of a frame, the receiver in any
      state whatsoever, not yet synchronised. */
  predicate Begin(s: Joint) {
    Ranged(s) && TxInv(s) && !s.synced
  }

  /** A sender out of reset. */
  function Reset(rx: E.Regs): (s: Joint)
    ensures E.Ranged(rx) ==> Begin(s)
  {
    Joint(G.Regs(G.Idle, 0, 0, 0, false), G.IDLE_BYTE, rx, E.Zeros(), E.Zeros(), false)
  }

  function At(s: Joint, es: nat -> Env, n: nat): (j: Joint)
    requires Ranged(s)
    ensures Ranged(j)
  {
    if n == 0 then s else Next(At(s, es, n - 1), es(n - 1))
  }

  predicate StableAt(s: Joint, es: nat -> Env, k: nat)
    requires Ranged(s)
  {
    Stable(At(s, es, k), es(k))
  }

  predicate StableRun(s: Joint, es: nat -> Env, n: nat)
    requires Ranged(s)
  {
    forall k :: 0 <= k < n ==> StableAt(s, es, k)
  }

  lemma {:induction false} InvAt(s: Joint, es: nat -> Env, n: nat)
    requires Begin(s) && StableRun(s, es, n)
    ensures Inv(At(s, es, n))
  {
    if n > 0 {
      assert StableAt(s, es, n - 1);
      InvAt(s, es, n - 1);
      hide Next, Inv, Stable;
      InvNext(At(s, es, n - 1), es(n - 1));
    }
  }

  /** A frame starts at clock n. */
  predicate Begins(s: Joint, es: nat -> Env, n: nat)
    requires Ranged(s)
  {
    At(s, es, n).tx.st.Idle? && es(n).start
  }

  // ------------------------------------------------------------- frame timing

  /** Where the sender is in its frame, and which word the frame carries. */
  datatype Phase = Phase(st: G.State, idx: nat, dly: nat, word: E.Bits)

  function PhaseAt(s: Joint, es: nat -> Env, n: nat): Phase
    requires Ranged(s)
  {
    var j := At(s, es, n);
    Phase(j.tx.st, j.tx.idx, j.tx.dly, j.frame)
  }

  /** Inside a frame the sender proceeds on its own. */
  function Proceed(p: Phase): Phase {
    match p.st
    case Idle => p
    case Send1Hz => p.(st := G.Prepause)
    case Prepause => if p.dly == 10 then p.(st := G.Active, dly := 0) else p.(dly := (p.dly + 1) % 256)
    case Active => p.(st := G.Pause)
    case Pause => if p.dly == 10 then p.(st := G.CheckIfLast, dly := 0) else p.(dly := (p.dly + 1) % 256)
    case CheckIfLast => if p.idx == 0 then p.(st := G.Update) else p.(st := G.Active, idx := p.idx - 1)
    case Update => p.(st := G.Idle)
  }

  lemma PhaseSteps(s: Joint, es: nat -> Env, n: nat)
    requires Ranged(s)
    ensures !At(s, es, n).tx.st.Idle? ==> PhaseAt(s, es, n + 1) == Proceed(PhaseAt(s, es, n))
    ensures Begins(s, es, n) ==>
              PhaseAt(s, es, n + 1) == Phase(G.Send1Hz, 31, 0, es(n).din)
  {}

  predicate Dwelling(p: Phase) {
    p.st.Prepause? || p.st.Pause?
  }

  /** The pauses count to ten. */
  lemma {:induction false} Dwells(s: Joint, es: nat -> Env, m: nat, d: nat)
    requires Ranged(s) && d <= 10
    requires Dwelling(PhaseAt(s, es, m)) && PhaseAt(s, es, m).dly == 0
    ensures PhaseAt(s, es, m + d) == PhaseAt(s, es, m).(dly := d)
  {
    hide At;
    if d > 0 {
      Dwells(s, es, m, d - 1);
      PhaseSteps(s, es, m + d - 1);
    }
  }

  /** From a start to the first bit. */
  lemma FrameOpens(s: Joint, es: nat -> Env, n: nat)
    requires Ranged(s) && Begins(s, es, n)
    ensures PhaseAt(s, es, n + 13) == Phase(G.Active, 31, 0, es(n).din)
  {
    hide At;
    PhaseSteps(s, es, n);
    PhaseSteps(s, es, n + 1);
    Dwells(s, es, n + 2, 10);
    PhaseSteps(s, es, n + 12);
  }

  /** From one bit to the next. */
  lemma BitTakes(s: Joint, es: nat -> Env, m: nat, idx: nat, word: E.Bits)
    requires Ranged(s) && PhaseAt(s, es, m) == Phase(G.Active, idx, 0, word)
    ensures PhaseAt(s, es, m + 13)
         == if idx == 0 then Phase(G.Update, 0, 0, word) else Phase(G.Active, idx - 1, 0, word)
  {
    hide At;
    PhaseSteps(s, es, m);
    Dwells(s, es, m + 1, 10);
    PhaseSteps(s, es, m + 11);
    PhaseSteps(s, es, m + 12);
  }

  lemma {:induction false} FrameBits(s: Joint, es: nat -> Env, n: nat, k: nat)
    requires Ranged(s) && Begins(s, es, n) && k < 32
    ensures PhaseAt(s, es, n + 13 + 13 * k) == Phase(G.Active, 31 - k, 0, es(n).din)
  {
    hide At, PhaseAt;
    if k == 0 {
      FrameOpens(s, es, n);
    } else {
      FrameBits(s, es, n, k - 1);
      BitTakes(s, es, n + 13 * k, 32 - k, es(n).din);
    }
  }

  /** Every started frame ends: its latch event is on the link 431 clocks after the start. */
  lemma FrameEnds(s: Joint, es: nat -> Env, n: nat)
    requires Ranged(s) && Begins(s, es, n)
    ensures At(s, es, n + 430).tx.st.Idle?
    ensures At(s, es, n + 431).link == E.LATCH && At(s, es, n + 431).sent == es(n).din
    ensures At(s, es, n + 432).synced
  {
    FrameBits(s, es, n, 31);
    BitTakes(s, es, n + 416, 0, es(n).din);
    Flushes(At(s, es, n + 429), es(n + 429), es(n + 430), es(n + 431));
  }

  /** What a frame puts on the link, by clocks since its start: a tick, the bits highest first 13
      clocks apart, the latch event, and idle bytes in between. */
  function FrameByte(word: E.Bits, j: nat): nat
    requires 2 <= j <= 431
  {
    if j == 3 then G.TICK
    else if 15 <= j <= 418 && (j - 15) % 13 == 0 then G.Code(word[31 - (j - 15) / 13])
    else if j == 431 then E.LATCH
    else G.IDLE_BYTE
  }

  /** The sender j clocks into a frame. */
  function PhaseIn(word: E.Bits, j: nat): Phase
    requires 1 <= j <= 429
  {
    if j == 1 then Phase(G.Send1Hz, 31, 0, word)
    else if j <= 12 then Phase(G.Prepause, 31, j - 2, word)
    else if j == 429 then Phase(G.Update, 0, 0, word)
    else
      var idx, o := 31 - (j - 13) / 13, (j - 13) % 13;
      Phase(if o == 0 then G.Active else if o == 12 then G.CheckIfLast else G.Pause,
            idx, if 1 <= o <= 11 then o - 1 else 0, word)
  }

  lemma PhaseInNext(word: E.Bits, j: nat)
    requires 1 <= j < 429
    ensures Proceed(PhaseIn(word, j)) == PhaseIn(word, j + 1)
  {
    if j >= 13 {
      var q, o := (j - 13) / 13, (j - 13) % 13;
      assert j - 13 == 13 * q + o;
      assert (j - 12) / 13 == (if o == 12 then q + 1 else q) && (j - 12) % 13 == if o == 12 then 0 else o + 1;
    }
  }

  lemma {:induction false} PhaseOfFrame(s: Joint, es: nat -> Env, n: nat, j: nat)
    requires Ranged(s) && Begins(s, es, n) && 1 <= j <= 429
    ensures PhaseAt(s, es, n + j) == PhaseIn(es(n).din, j)
  {
    hide At, Begins, Proceed;
    if j == 1 {
      PhaseSteps(s, es, n);
    } else {
      PhaseOfFrame(s, es, n, j - 1);
      PhaseSteps(s, es, n + j - 1);
      PhaseInNext(es(n).din, j - 1);
      InFrame(es(n).din, j - 1);
    }
  }

  lemma InFrame(word: E.Bits, j: nat)
    requires 1 <= j <= 429
    ensures !PhaseIn(word, j).st.Idle?
  {}

  /** The byte on the link behind a sender state. */
  lemma LinkOf(j: Joint, e: Env)
    requires Ranged(j) && TxInv(j) && !j.tx.st.Idle?
    ensures Next(j, e).link ==
            if j.tx.st.Prepause? && j.tx.dly == 0 then G.TICK
            else if j.tx.st.Pause? && j.tx.dly == 0 then G.Code(j.frame[j.tx.idx])
            else G.IDLE_BYTE
  {}

  lemma ByteOf(word: E.Bits, j: nat)
    requires 1 <= j <= 429
    ensures var p := PhaseIn(word, j);
      FrameByte(word, j + 1) == if p.st.Prepause? && p.dly == 0 then G.TICK
                                else if p.st.Pause? && p.dly == 0 then G.Code(p.word[p.idx])
                                else G.IDLE_BYTE
  {
    if 14 <= j < 429 {
      var q, o := (j - 13) / 13, (j - 13) % 13;
      assert j - 13 == 13 * q + o;
      if o == 1 {
        assert (j + 1 - 15) % 13 == 0 && (j + 1 - 15) / 13 == q;
      } else {
        assert (j + 1 - 15) % 13 != 0;
      }
    }
  }

  /** The frame format: every started frame sends exactly these bytes. */
  lemma FrameOnLink(s: Joint, es: nat -> Env, n: nat, j: nat)
    requires Begin(s) && StableRun(s, es, n + 430) && Begins(s, es, n) && 2 <= j <= 431
    ensures At(s, es, n + j).link == FrameByte(es(n).din, j)
  {
    hide At, Begins, Next, TxInv, FrameByte, PhaseIn, Stable;
    if j <= 430 {
      TxAt(s, es, n + j - 1);
      PhaseOfFrame(s, es, n, j - 1);
      InFrame(es(n).din, j - 1);
      AtNext(s, es, n + j - 1);
      LinkOf(At(s, es, n + j - 1), es(n + j - 1));
      ByteOf(es(n).din, j - 1);
    } else {
      FrameEnds(s, es, n);
      LastByte(es(n).din);
    }
  }

  lemma LastByte(word: E.Bits)
    ensures FrameByte(word, 431) == E.LATCH
  {}

  lemma Flushes(j: Joint, d: Env, e: Env, f: Env)
    requires Ranged(j) && j.tx.st.Update?
    ensures Next(j, d).tx.st.Idle?
    ensures var k := Next(Next(j, d), e); k.link == E.LATCH && k.sent == j.frame && Next(k, f).synced
  {}

  /** A latch event that reaches a synchronised receiver publishes the word of the frame
      that has just ended. */
  lemma LatchPublishes(j: Joint, e: Env)
    requires Inv(j) && j.synced && j.link == E.LATCH
    ensures j.rx.tmp == j.sent && Next(j, e).rx.sec == j.sent
  {}

  lemma {:induction false} StaysSynced(s: Joint, es: nat -> Env, n: nat, m: nat)
    requires Ranged(s) && n <= m && At(s, es, n).synced
    ensures At(s, es, m).synced
  {
    if n < m {
      StaysSynced(s, es, n, m - 1);
    }
  }

  /** A latch event is on the link at clock k. */
  predicate Latches(s: Joint, es: nat -> Env, k: nat)
    requires Ranged(s)
  {
    At(s, es, k).link == E.LATCH
  }

  /** One latch event synchronises any receiver: every frame whose own latch event comes later
      leaves its word in the seconds register. */
  lemma FrameDelivered(s: Joint, es: nat -> Env, k: nat, m: nat)
    requires Begin(s) && StableRun(s, es, m + 431)
    requires Latches(s, es, k) && k < m + 431 && Begins(s, es, m)
    ensures At(s, es, m + 431).rx.tmp == es(m).din == At(s, es, m + 432).rx.sec
    ensures At(s, es, m + 432).rx.off == 0
  {
    hide At, Stable, Inv, Begins;
    FrameEnds(s, es, m);
    Syncs(s, es, k);
    StaysSynced(s, es, k + 1, m + 431);
    InvAt(s, es, m + 431);
    LatchPublishes(At(s, es, m + 431), es(m + 431));
    AtNext(s, es, m + 431);
  }

  lemma Syncs(s: Joint, es: nat -> Env, k: nat)
    requires Ranged(s) && Latches(s, es, k)
    ensures At(s, es, k + 1).synced
  {}

  lemma AtNext(s: Joint, es: nat -> Env, n: nat)
    requires Ranged(s)
    ensures At(s, es, n + 1) == Next(At(s, es, n), es(n))
  {
    hide Next;
  }

  // ------------------------------------------------------------- frames and latch events

  /** Clocks since the start of the frame being sent. */
  function Age(p: Phase): int {
    match p.st
    case Idle => 0
    case Send1Hz => 1
    case Prepause => 2 + p.dly
    case Active => 13 + 13 * (31 - p.idx)
    case Pause => 14 + 13 * (31 - p.idx) + p.dly
    case CheckIfLast => 25 + 13 * (31 - p.idx)
    case Update => 429
  }

  lemma AgeStep(j: Joint)
    requires Ranged(j) && TxInv(j) && !j.tx.st.Idle?
    ensures var p := Phase(j.tx.st, j.tx.idx, j.tx.dly, j.frame);
      !Proceed(p).st.Idle? ==> Age(Proceed(p)) == Age(p) + 1
  {}

  /** A frame being sent was started, unless the run began inside it. */
  lemma {:induction false} Started(s: Joint, es: nat -> Env, n: nat)
    requires Begin(s) && StableRun(s, es, n)
    ensures var p := PhaseAt(s, es, n);
      p.st.Idle? || Age(p) > n || (Age(p) > 0 && Begins(s, es, n - Age(p)))
  {
    hide At, Begins;
    if n > 0 {
      Started(s, es, n - 1);
      PhaseSteps(s, es, n - 1);
      InvAt(s, es, n - 1);
      if !PhaseAt(s, es, n - 1).st.Idle? {
        AgeStep(At(s, es, n - 1));
      } else {
        IdleSteps(s, es, n - 1);
      }
    } else {
      AtStart(s, es);
    }
  }

  lemma AtStart(s: Joint, es: nat -> Env)
    requires Begin(s)
    ensures var p := PhaseAt(s, es, 0); !p.st.Idle? ==> Age(p) > 0
  {}

  lemma IdleSteps(s: Joint, es: nat -> Env, n: nat)
    requires Ranged(s) && At(s, es, n).tx.st.Idle?
    ensures At(s, es, n + 1).tx.st == if Begins(s, es, n) then G.Send1Hz else G.Idle
  {}

  /** Only a sender that has just ended its frame shows a latch event. */
  lemma LatchFrom(j: Joint, e: Env)
    requires Ranged(j) && TxInv(j) && Next(j, e).link == E.LATCH
    ensures j.tx.st.Idle? && j.tx.val
  {}

  lemma ValFrom(j: Joint, e: Env)
    requires Ranged(j) && Next(j, e).tx.st.Idle? && Next(j, e).tx.val
    ensures j.tx.st.Update?
  {}

  /** Latch events are on the link exactly 431 clocks after the frame starts. */
  lemma LatchIsFrame(s: Joint, es: nat -> Env, v: nat)
    requires Begin(s) && StableRun(s, es, v + 431)
    ensures At(s, es, v + 431).link == E.LATCH <==> Begins(s, es, v)
  {
    hide At, Begins, Next, TxInv, Stable;
    if Begins(s, es, v) {
      FrameEnds(s, es, v);
    }
    if At(s, es, v + 431).link == E.LATCH {
      TxAt(s, es, v + 430);
      AtNext(s, es, v + 430);
      LatchFrom(At(s, es, v + 430), es(v + 430));
      AtNext(s, es, v + 429);
      ValFrom(At(s, es, v + 429), es(v + 429));
      Started(s, es, v + 429);
    }
  }

  lemma TxAt(s: Joint, es: nat -> Env, n: nat)
    requires Begin(s) && StableRun(s, es, n)
    ensures TxInv(At(s, es, n))
  {
    InvAt(s, es, n);
  }

  // ------------------------------------------------------------- the far receiver

  /** The bytes on the link. */
  function Link(s: Joint, es: nat -> Env): nat -> nat
    requires Ranged(s)
  {
    (k: nat) => At(s, es, k).link
  }

  /** The same sender with another receiver. */
  function With(s: Joint, r: E.Regs): Joint {
    s.(rx := r, synced := false)
  }

  predicate SameSender(j: Joint, k: Joint) {
    j.tx == k.tx && j.link == k.link && j.frame == k.frame
  }

  lemma ApartNext(j: Joint, k: Joint, e: Env)
    requires Ranged(j) && Ranged(k) && SameSender(j, k)
    ensures SameSender(Next(j, e), Next(k, e)) && Next(k, e).rx == E.Next(k.rx, false, j.link)
  {
    hide G.Next, E.Next;
  }

  lemma LinkNext(s: Joint, es: nat -> Env, r: E.Regs, n: nat)
    requires Ranged(s) && E.Ranged(r)
    ensures E.At(r, Link(s, es), n + 1) == E.Next(E.At(r, Link(s, es), n), false, At(s, es, n).link)
  {
    hide At, E.Next;
  }

  lemma ApartStart(s: Joint, es: nat -> Env, r: E.Regs)
    requires Ranged(s) && E.Ranged(r)
    ensures SameSender(At(s, es, 0), At(With(s, r), es, 0))
    ensures At(With(s, r), es, 0).rx == E.At(r, Link(s, es), 0)
  {}

  /** The sender does not see the receiver, and the receiver sees nothing but the link. */
  lemma {:induction false} Apart(s: Joint, es: nat -> Env, r: E.Regs, n: nat)
    requires Ranged(s) && E.Ranged(r)
    ensures var j, k := At(s, es, n), At(With(s, r), es, n);
      SameSender(j, k) && k.rx == E.At(r, Link(s, es), n)
  {
    hide At, Next, E.At, E.Next, Link, SameSender;
    if n == 0 {
      ApartStart(s, es, r);
    } else {
      Apart(s, es, r, n - 1);
      LinkNext(s, es, r, n - 1);
      AtNext(s, es, n - 1);
      AtNext(With(s, r), es, n - 1);
      ApartNext(At(s, es, n - 1), At(With(s, r), es, n - 1), es(n - 1));
    }
  }

  lemma ApartRun(s: Joint, es: nat -> Env, r: E.Regs, n: nat)
    requires Begin(s) && E.Ranged(r) && StableRun(s, es, n)
    ensures Begin(With(s, r)) && StableRun(With(s, r), es, n)
  {
    hide At;
    forall k | 0 <= k < n
      ensures StableAt(With(s, r), es, k)
    {
      assert StableAt(s, es, k);
      Apart(s, es, r, k);
    }
  }

  lemma ApartEvents(s: Joint, es: nat -> Env, r: E.Regs, n: nat)
    requires Ranged(s) && E.Ranged(r)
    ensures Begins(s, es, n) <==> Begins(With(s, r), es, n)
    ensures Latches(s, es, n) <==> Latches(With(s, r), es, n)
  {
    Apart(s, es, r, n);
  }

  /** A receiver in state r behind a link of delay d, over which other bytes came before. */
  function Far(s: Joint, es: nat -> Env, r: E.Regs, before: nat -> nat, d: nat, n: nat): E.Regs
    requires Ranged(s) && E.Ranged(r)
  {
    E.At(r, E.Delayed(Link(s, es), before, d), n + d)
  }

  /** What the earlier bytes leave the far receiver in. */
  function Left(s: Joint, es: nat -> Env, r: E.Regs, before: nat -> nat, d: nat): (q: E.Regs)
    requires Ranged(s) && E.Ranged(r)
    ensures E.Ranged(q)
  {
    E.At(r, E.Delayed(Link(s, es), before, d), d)
  }

  lemma FarRuns(s: Joint, es: nat -> Env, r: E.Regs, before: nat -> nat, d: nat, n: nat)
    requires Ranged(s) && E.Ranged(r)
    ensures Far(s, es, r, before, d, n) == At(With(s, Left(s, es, r, before, d)), es, n).rx
    ensures Far(s, es, r, before, d, n) == E.At(Left(s, es, r, before, d), Link(s, es), n)
  {
    hide At, E.At, E.Delayed, Link;
    E.DelayShifts(r, Link(s, es), before, d, n);
    Apart(s, es, Left(s, es, r, before, d), n);
  }

  /** Time link round trip, self-synchronising: for a run that begins anywhere, also in the
      middle of a frame, any link delay, anything on the link before, and any state of the
      receiver, once one latch event has been sent, at clock k, every frame m arrives: its word
      is in the seconds register 432 clocks and the delay after its start. */
  lemma LinkRoundTrip(s: Joint, es: nat -> Env, r: E.Regs, before: nat -> nat, d: nat, k: nat, m: nat)
    requires Begin(s) && StableRun(s, es, m + 431) && E.Ranged(r)
    requires Latches(s, es, k) && k < m + 431 && Begins(s, es, m)
    ensures Far(s, es, r, before, d, m + 432).sec == es(m).din
  {
    hide At, Begins, Latches, StableRun, Far, Left;
    var q := Left(s, es, r, before, d);
    FarRuns(s, es, r, before, d, m + 432);
    ApartRun(s, es, q, m + 431);
    ApartEvents(s, es, q, k);
    ApartEvents(s, es, q, m);
    FrameDelivered(With(s, q), es, k, m);
  }

  /** So the first complete frame synchronises any receiver, and every later one is decoded. */
  lemma SecondFrameDecodes(s: Joint, es: nat -> Env, r: E.Regs, before: nat -> nat, d: nat, g: nat, m: nat)
    requires Begin(s) && StableRun(s, es, m + 431) && E.Ranged(r)
    requires Begins(s, es, g) && Begins(s, es, m) && g < m
    ensures Far(s, es, r, before, d, m + 432).sec == es(m).din
  {
    hide At, Begins, StableRun, Far;
    FrameEnds(s, es, g);
    LinkRoundTrip(s, es, r, before, d, g + 431, m);
  }

  // ------------------------------------------------------------- timestamps over the link

  /** The latest frame start before clock n, in a run with one at f. */
  function LastStart(s: Joint, es: nat -> Env, f: nat, n: nat): (m: nat)
    requires Ranged(s) && f < n
    ensures f <= m < n
  {
    if n == f + 1 || Begins(s, es, n - 1) then n - 1 else LastStart(s, es, f, n - 1)
  }

  /** Once synchronised, seconds and offset are told by the latest frame start. */
  predicate Shows(s: Joint, es: nat -> Env, f: nat, v: nat)
    requires Ranged(s) && f < v
  {
    var last, rx := LastStart(s, es, f, v), At(s, es, v + 431).rx;
    rx.sec == es(last).din && rx.off == (v - 1 - last) % E.WORD
  }

  lemma {:induction false} ShowsAt(s: Joint, es: nat -> Env, k: nat, f: nat, v: nat)
    requires Begin(s) && StableRun(s, es, v + 431)
    requires Latches(s, es, k) && k < f + 431 && Begins(s, es, f) && f < v
    ensures Shows(s, es, f, v)
  {
    hide At, Begins, Latches, Next, Stable;
    if Begins(s, es, v - 1) {
      FrameDelivered(s, es, k, v - 1);
    } else {
      ShowsAt(s, es, k, f, v - 1);
      LatchIsFrame(s, es, v - 1);
      AtNext(s, es, v + 430);
      Runs(At(s, es, v + 430), es(v + 430));
      E.ModSucc(v - 2 - LastStart(s, es, f, v - 1));
    }
  }

  lemma Runs(j: Joint, e: Env)
    requires Ranged(j) && j.link != E.LATCH
    ensures Next(j, e).rx.sec == j.rx.sec && Next(j, e).rx.off == (j.rx.off + 1) % E.WORD
  {}

  /** The value of the far timestamp, over a link of any delay: 432 clocks and the delay after any
      clock v from some frame f on, it is the word of the latest frame that started before v and
      the clocks since, modulo 2^32. So right after its latch event the word of a frame shows
      with offset 0. */
  lemma FarStamp(s: Joint, es: nat -> Env, r: E.Regs, before: nat -> nat, d: nat, l: nat, f: nat, v: nat)
    requires Begin(s) && StableRun(s, es, v + 431) && E.Ranged(r)
    requires Latches(s, es, l) && l < f + 431 && Begins(s, es, f) && f < v
    ensures var last := LastStart(s, es, f, v);
      Far(s, es, r, before, d, v + 432).stamp == E.Stamp(es(last).din, (v - 1 - last) % E.WORD)
  {
    hide At, Begins, Latches, StableRun, Far, Left, LastStart;
    var q := Left(s, es, r, before, d);
    FarRuns(s, es, r, before, d, v + 432);
    ApartRun(s, es, q, v + 431);
    ApartEvents(s, es, q, l);
    ApartEvents(s, es, q, f);
    ApartLast(s, es, q, f, v);
    ShowsAt(With(s, q), es, l, f, v);
    StampShows(With(s, q), es, v + 431);
  }

  lemma StampShows(s: Joint, es: nat -> Env, n: nat)
    requires Ranged(s)
    ensures var rx := At(s, es, n).rx; At(s, es, n + 1).rx.stamp == E.Stamp(rx.sec, rx.off)
  {}

  /** Whether the frames move the timestamp on at clock v of the sender: a frame that starts must
      carry a larger word than the last one; any other clock must not be 2^32 clocks behind it. */
  predicate Moves(s: Joint, es: nat -> Env, f: nat, v: nat)
    requires Ranged(s) && f < v
  {
    var last := LastStart(s, es, f, v);
    if Begins(s, es, v) then E.Value(es(v).din) > E.Value(es(last).din) else (v - last) % E.WORD != 0
  }

  /** Neighbouring timestamps are in order exactly when the frames move on, 431 clocks earlier. */
  lemma FrameStep(s: Joint, es: nat -> Env, k: nat, f: nat, v: nat)
    requires Begin(s) && StableRun(s, es, v + 431)
    requires Latches(s, es, k) && k < f + 431 && Begins(s, es, f) && f < v
    ensures E.Later(At(s, es, v + 432).rx.stamp, At(s, es, v + 433).rx.stamp) <==> Moves(s, es, f, v)
  {
    hide At, Begins, Latches, Next, Stable, E.Later, E.Value;
    ShowsAt(s, es, k, f, v);
    LatchIsFrame(s, es, v);
    if Begins(s, es, v) {
      FrameDelivered(s, es, k, v);
    }
    AtNext(s, es, v + 431);
    AtNext(s, es, v + 432);
    Steps(At(s, es, v + 431), es(v + 431), es(v + 432));
    E.ModSucc(v - 1 - LastStart(s, es, f, v));
  }

  lemma Steps(j: Joint, d: Env, e: Env)
    requires Ranged(j)
    ensures E.Later(Next(j, d).rx.stamp, Next(Next(j, d), e).rx.stamp) <==> E.Advances(j.rx, j.link)
  {
    hide E.Later, E.Advances, E.Next;
    E.StampStep(j.rx, j.link, Next(j, d).link);
  }

  /** Frames start within 2^32 clocks of each other and their words grow. */
  predicate Onward(s: Joint, es: nat -> Env, f: nat, v: nat)
    requires Ranged(s) && f < v
  {
    var last := LastStart(s, es, f, v);
    if Begins(s, es, v) then E.Value(es(v).din) > E.Value(es(last).din) else v - last < E.WORD
  }

  lemma FarStep(s: Joint, es: nat -> Env, q: E.Regs, k: nat, f: nat, v: nat)
    requires Begin(s) && StableRun(s, es, v + 431) && E.Ranged(q)
    requires Latches(s, es, k) && k < f + 431 && Begins(s, es, f) && f < v && Onward(s, es, f, v)
    ensures E.LaterAt(q, Link(s, es), v + 432)
  {
    hide At, Begins, Latches, StableRun, E.At, Link, E.Later, E.Value;
    var w := With(s, q);
    ApartRun(s, es, q, v + 431);
    ApartEvents(s, es, q, k);
    ApartEvents(s, es, q, f);
    ApartEvents(s, es, q, v);
    ApartLast(s, es, q, f, v);
    FrameStep(w, es, k, f, v);
    Apart(s, es, q, v + 432);
    Apart(s, es, q, v + 433);
  }

  lemma {:induction false} ApartLast(s: Joint, es: nat -> Env, q: E.Regs, f: nat, n: nat)
    requires Ranged(s) && E.Ranged(q) && f < n
    ensures LastStart(s, es, f, n) == LastStart(With(s, q), es, f, n)
  {
    hide Begins;
    ApartEvents(s, es, q, n - 1);
    if n > f + 1 {
      ApartLast(s, es, q, f, n - 1);
    }
  }

  /** Over the link, with any delay and any receiver: from any frame f on that ends after a first
      latch event, if every frame carries a larger word than the one before it and starts no more than 2^32 clocks
      after it, the 64-bit timestamp strictly increases on every clock. */
  lemma TimestampIncreases(s: Joint, es: nat -> Env, r: E.Regs, before: nat -> nat, d: nat,
                           l: nat, f: nat, i: nat, j: nat)
    requires Begin(s) && StableRun(s, es, j) && E.Ranged(r)
    requires Latches(s, es, l) && l < f + 431 && Begins(s, es, f)
    requires f + 433 <= i < j
    requires forall v :: f < v < j - 432 ==> Onward(s, es, f, v)
    ensures E.Later(Far(s, es, r, before, d, i).stamp, Far(s, es, r, before, d, j).stamp)
  {
    hide At, Begins, Latches, Stable, StableAt, Far, Left, E.LaterAt, E.Later, E.At, Link, Onward;
    var q := Left(s, es, r, before, d);
    forall k | i <= k < j
      ensures E.LaterAt(q, Link(s, es), k)
    {
      FarStep(s, es, q, l, f, k - 432);
    }
    E.LaterChain(q, Link(s, es), i, j);
    FarRuns(s, es, r, before, d, i);
    FarRuns(s, es, r, before, d, j);
  }
}
