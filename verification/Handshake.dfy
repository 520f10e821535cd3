/** The capture handshake of the whole system: trigger gate, three burst writers and the
    polling host loop, on one clock, under arbitrary inputs and host pacing. */
module Handshake {
  import T = TrigLogic
  import D = TurnWriters
  import A = AdcWriter
  import S = SyncCdc

  const WORD: int := 0x1_0000_0000

  datatype Mode = Polling | Processing | Acking

  /** The host task: the count it last saw, and where it is in its loop. */
  datatype Host = Host(mode: Mode, prev: nat)

  datatype Config = Config(trigsrc: bool, adcLen: nat, tbtLen: nat, faLen: nat)

  predicate ValidConfig(c: Config) {
    1 <= c.adcLen < WORD && 1 <= c.tbtLen < WORD && 1 <= c.faLen < WORD
  }

  /** What the surroundings do on one clock; go lets the host take its next step. */
  datatype Env = Env(evr: bool, soft: bool, stamp: nat, tbtTurn: bool, faTurn: bool, go: bool)

  /** What is reported of a capture: its number by the capture task, and the latched timestamp
      as the status task finds it in the registers. */
  datatype Report = Report(count: nat, stamp: nat)

  /** The registers, and beside them what has happened so far: the timestamps of the
      trigger pulses, the completed captures, the host's reports, and the clocks since the
      capture count last changed. */
  datatype Sys = Sys(trig: T.Regs, adc: A.Ctl, tbt: D.Ctl, fa: D.Ctl, host: Host,
                     stamps: seq<nat>, captures: nat, reports: seq<Report>, age: nat)

  function Active(s: Sys): bool {
    s.adc.wrlen != 0 || D.IsActive(s.tbt) || D.IsActive(s.fa)
  }

  function TxDone(h: Host): bool {
    h.mode == Acking
  }

  /** One step of the polling loop; a poll that sees a new count reports it. */
  function NextHost(h: Host, go: bool, cnt: nat): Host {
    if !go then h
    else match h.mode
      case Polling => if cnt != h.prev then Host(Processing, cnt) else h
      case Processing => Host(Acking, h.prev)
      case Acking => Host(Polling, h.prev)
  }

  predicate Reporting(h: Host, go: bool, cnt: nat) {
    go && h.mode == Polling && cnt != h.prev
  }

  function Next(c: Config, s: Sys, e: Env): Sys {
    var i := T.In(false, c.trigsrc, e.evr, e.soft, TxDone(s.host), Active(s), e.stamp);
    Sys(
      T.Next(s.trig, i),
      A.NextCtl(s.adc, s.trig.trig, c.adcLen),
      D.NextCtl(s.tbt, D.TBT_BEATS, s.trig.trig, e.tbtTurn, c.tbtLen),
      D.NextCtl(s.fa, D.FA_BEATS, s.trig.trig, e.faTurn, c.faLen),
      NextHost(s.host, e.go, s.trig.cnt),
      if s.trig.trig then s.stamps + [e.stamp] else s.stamps,
      if s.trig.done then s.captures + 1 else s.captures,
      if Reporting(s.host, e.go, s.trig.cnt) then s.reports + [Report(s.trig.cnt, s.trig.ts)] else s.reports,
      if s.trig.done then 0 else s.age + 1)
  }

  function Init(): Sys {
    Sys(T.Cleared(), A.Ctl(false, 0), D.Ctl(D.Idle, 0), D.Ctl(D.Idle, 0), Host(Polling, 0), [], 0, [], 8)
  }

  /** What the surroundings owe the hardware: the host acknowledges no earlier than four
      clocks after the count changed, and on the clock after a capture pulse, when the latch is
      set, the acknowledge register is low. LegalExact shows that this is just what is needed. */
  predicate Legal(c: Config, s: Sys, e: Env) {
    && Paced(s, e)
    && (s.trig.trig ==> !TxDone(Next(c, s, e).host))
  }

  predicate Paced(s: Sys, e: Env) {
    s.host.mode == Processing && e.go ==> s.age >= 4
  }

  /** The system n clocks after it was in state s. */
  function From(c: Config, s: Sys, es: nat -> Env, n: nat): Sys {
    if n == 0 then s else Next(c, From(c, s, es, n - 1), es(n - 1))
  }

  function At(c: Config, es: nat -> Env, n: nat): Sys {
    From(c, Init(), es, n)
  }

  predicate LegalAt(c: Config, es: nat -> Env, k: nat) {
    Legal(c, At(c, es, k), es(k))
  }

  predicate LegalRun(c: Config, es: nat -> Env, n: nat) {
    forall k :: 0 <= k < n ==> LegalAt(c, es, k)
  }

  // -------------------------------------------------------------- the invariant

  /** A writer that has handed over its last turn and is at least at beat j of it. */
  predicate Drains(w: D.Ctl, j: nat) {
    && w.wrlen == 0
    && (w.st.Idle? || (w.st.Write? && w.st.beat >= j))
  }

  predicate Resting(s: Sys, j: nat) {
    && s.adc == A.Ctl(false, 0)
    && Drains(s.tbt, j) && Drains(s.fa, j)
    && (s.tbt.st.Write? ==> s.tbt.st.beat < D.TBT_BEATS)
    && (s.fa.st.Write? ==> s.fa.st.beat < D.FA_BEATS)
  }

  predicate Bursting(w: D.Ctl, beats: nat) {
    && w.wrlen < WORD
    && (w.st.Idle? ==> w.wrlen == 0)
    && (w.st.Active? ==> w.wrlen >= 1)
    && (w.st.Write? ==> w.st.beat < beats)
  }

  /** What the host knows: all captures reported, or all but the last one. */
  predicate HostKnows(s: Sys, pending: bool) {
    && (s.host.mode != Polling ==> !pending)
    && s.captures == |s.reports| + (if pending then 1 else 0)
    && s.host.prev == |s.reports| % WORD
  }

  predicate Free(s: Sys) {
    && !s.trig.trig && !s.trig.lat && !s.trig.running && !s.trig.done
    && Resting(s, 2 + s.age) && s.age >= 5
    && s.host.mode != Processing && HostKnows(s, false)
    && |s.stamps| == s.captures
  }

  predicate Fired(c: Config, s: Sys) {
    && !T.Selected(s.trig, c.trigsrc)
    && s.trig.trig && !s.trig.lat && !s.trig.running && !s.trig.done
    && Resting(s, 2 + s.age) && s.age >= 6
    && s.host.mode != Processing && HostKnows(s, false)
    && |s.stamps| == s.captures
  }

  predicate Held(s: Sys) {
    && !s.trig.trig && s.trig.lat
    && |s.stamps| > 0 && s.trig.ts == s.stamps[|s.stamps| - 1]
  }

  predicate Capturing(s: Sys) {
    && Held(s) && !s.trig.done
    && (!s.trig.running ==> Active(s))
    && s.adc.wrlen < WORD && s.adc.active == (s.adc.wrlen != 0)
    && Bursting(s.tbt, D.TBT_BEATS) && Bursting(s.fa, D.FA_BEATS)
    && s.host.mode == Polling && HostKnows(s, false)
    && |s.stamps| == s.captures + 1
  }

  predicate Completing(s: Sys) {
    && Held(s) && !s.trig.running && s.trig.done
    && Resting(s, 1)
    && s.host.mode == Polling && HostKnows(s, false)
    && |s.stamps| == s.captures + 1
  }

  predicate Counted(s: Sys) {
    && Held(s) && !s.trig.running && !s.trig.done
    && Resting(s, 2 + s.age)
    && HostKnows(s, s.captures == |s.reports| + 1)
    && (s.host.mode == Polling ==> s.captures == |s.reports| + 1)
    && (s.host.mode == Acking ==> s.age >= 5)
    && |s.stamps| == s.captures
  }

  /** Every report carries the number of its capture and the timestamp of its trigger. */
  predicate Faithful(s: Sys) {
    && |s.reports| <= |s.stamps|
    && forall k :: 0 <= k < |s.reports| ==> s.reports[k] == Report((k + 1) % WORD, s.stamps[k])
  }

  predicate Inv(c: Config, s: Sys) {
    && s.trig.cnt == s.captures % WORD
    && Faithful(s)
    && (Free(s) || Fired(c, s) || Capturing(s) || Completing(s) || Counted(s))
  }

  lemma FreeNext(c: Config, s: Sys, e: Env)
    requires ValidConfig(c) && Free(s) && s.trig.cnt == s.captures % WORD && Legal(c, s, e)
    ensures var t := Next(c, s, e); Free(t) || Fired(c, t)
  {}

  lemma FiredNext(c: Config, s: Sys, e: Env)
    requires ValidConfig(c) && Fired(c, s) && s.trig.cnt == s.captures % WORD && Legal(c, s, e)
    ensures Capturing(Next(c, s, e))
  {}

  lemma CapturingNext(c: Config, s: Sys, e: Env)
    requires ValidConfig(c) && Capturing(s) && s.trig.cnt == s.captures % WORD && Legal(c, s, e)
    ensures var t := Next(c, s, e); Capturing(t) || Completing(t)
  {}

  lemma CompletingNext(c: Config, s: Sys, e: Env)
    requires ValidConfig(c) && Completing(s) && s.trig.cnt == s.captures % WORD && Legal(c, s, e)
    ensures Counted(Next(c, s, e))
  {}

  lemma CountedNext(c: Config, s: Sys, e: Env)
    requires ValidConfig(c) && Counted(s) && s.trig.cnt == s.captures % WORD && Legal(c, s, e)
    ensures var t := Next(c, s, e); Counted(t) || Free(t)
  {}

  lemma FaithfulNext(c: Config, s: Sys, e: Env)
    requires Inv(c, s)
    ensures Faithful(Next(c, s, e))
  {}

  lemma InvNext(c: Config, s: Sys, e: Env)
    requires ValidConfig(c) && Inv(c, s) && Legal(c, s, e)
    ensures Inv(c, Next(c, s, e))
  {
    FaithfulNext(c, s, e);
    if Free(s) {
      FreeNext(c, s, e);
    } else if Fired(c, s) {
      FiredNext(c, s, e);
    } else if Capturing(s) {
      CapturingNext(c, s, e);
    } else if Completing(s) {
      CompletingNext(c, s, e);
    } else {
      CountedNext(c, s, e);
    }
  }

  lemma InvStart(c: Config, es: nat -> Env)
    ensures Inv(c, At(c, es, 0))
  {}

  lemma {:induction false} InvAt(c: Config, es: nat -> Env, n: nat)
    requires ValidConfig(c) && LegalRun(c, es, n)
    ensures Inv(c, At(c, es, n))
  {
    hide At, Next, Inv, Legal;
    if n == 0 {
      InvStart(c, es);
    } else {
      assert LegalAt(c, es, n - 1);
      InvAt(c, es, n - 1);
      AtNext(c, es, n - 1);
      InvNext(c, At(c, es, n - 1), es(n - 1));
    }
  }

  // -------------------------------------------------------------- whole runs

  /** What holds between any two neighbouring clocks of a legal run. */
  predicate Safe(s: Sys, t: Sys) {
    // the capture pulse lasts one clock and is never raised while the latch is set
    && (t.trig.trig ==> !s.trig.trig && !s.trig.lat)
    // a pulse finds every writer idle and every earlier capture reported
    && (s.trig.trig ==>
          && s.adc == A.Ctl(false, 0) && s.tbt.st.Idle? && s.fa.st.Idle?
          && |s.reports| == s.captures == |s.stamps|)
    // at most one capture in flight, at most one unreported
    && s.captures <= |s.stamps| <= s.captures + 1
    && |s.reports| <= s.captures <= |s.reports| + 1
    && s.trig.cnt == s.captures % WORD && s.host.prev == |s.reports| % WORD
    // the k-th report is of the k-th trigger, with its timestamp
    && Faithful(s)
    // the timestamp stays while the latch does
    && (s.trig.lat && t.trig.lat ==> t.trig.ts == s.trig.ts)
  }

  lemma SafeStep(c: Config, s: Sys, e: Env)
    requires ValidConfig(c) && Inv(c, s) && Legal(c, s, e)
    ensures Safe(s, Next(c, s, e))
  {}

  lemma AtNext(c: Config, es: nat -> Env, n: nat)
    ensures At(c, es, n + 1) == Next(c, At(c, es, n), es(n))
  {
    hide Next;
  }

  /** Safety of the handshake over every legal run of every length. */
  lemma CaptureSafety(c: Config, es: nat -> Env, n: nat)
    requires ValidConfig(c) && LegalRun(c, es, n + 1)
    ensures Safe(At(c, es, n), At(c, es, n + 1))
  {
    hide At, Next, Inv, Safe, Legal;
    assert LegalAt(c, es, n);
    InvAt(c, es, n);
    AtNext(c, es, n);
    SafeStep(c, At(c, es, n), es(n));
  }

  /** Why no trigger may be accepted while the acknowledge is high: the latch survives its
      second clock exactly when the acknowledge level is low by then, although the writers
      are already running. LateAcknowledge is a run in which that breaks the safety. */
  lemma LatchSurvives(c: Config, s: Sys, e: Env, f: Env)
    requires s.trig.trig && !s.trig.lat && Resting(s, 8) && ValidConfig(c)
    ensures Active(Next(c, s, e))
    ensures Next(c, Next(c, s, e), f).trig.lat <==> !TxDone(Next(c, s, e).host)
  {}

  /** No capture is left unreported: when the host polls and a completed capture has not been
      reported, the poll reports it, and the host goes on to process and acknowledge it. */
  lemma PollReports(c: Config, es: nat -> Env, n: nat)
    requires ValidConfig(c) && LegalRun(c, es, n)
    requires At(c, es, n).host.mode == Polling && es(n).go
    ensures var s, t := At(c, es, n), At(c, es, n + 1);
      && |t.reports| == s.captures
      && (|s.reports| < s.captures ==> t.host.mode == Processing)
      && (|s.reports| == s.captures ==> t.host == s.host)
  {
    hide At, Next, Inv;
    InvAt(c, es, n);
    AtNext(c, es, n);
    PollStep(c, At(c, es, n), es(n));
  }

  lemma PollStep(c: Config, s: Sys, e: Env)
    requires Inv(c, s) && s.host.mode == Polling && e.go
    ensures var t := Next(c, s, e);
      && |t.reports| == s.captures
      && (|s.reports| < s.captures ==> t.host.mode == Processing)
      && (|s.reports| == s.captures ==> t.host == s.host)
  {
    OneMore(|s.reports|);
  }

  lemma OneMore(k: nat)
    ensures (k + 1) % WORD != k % WORD
  {}

  /** The host goes from a report to the acknowledge and back to polling, one step at a time. */
  lemma HostRounds(h: Host, cnt: nat, later: nat)
    requires h.mode == Processing
    ensures NextHost(h, true, cnt).mode == Acking
    ensures NextHost(NextHost(h, true, cnt), true, later) == Host(Polling, h.prev)
  {}

  // -------------------------------------------------------------- the writers of a run

  datatype Writer = Tbt | Fa

  function BeatsOf(w: Writer): nat {
    if w.Tbt? then D.TBT_BEATS else D.FA_BEATS
  }

  function WriterCtl(s: Sys, w: Writer): D.Ctl {
    if w.Tbt? then s.tbt else s.fa
  }

  /** The inputs of a turn writer on one clock: the capture pulse, its turn triggers, its length. */
  predicate FedAt(c: Config, s: Sys, e: Env, w: Writer, i: D.In) {
    && i.trig == s.trig.trig && i.len == (if w.Tbt? then c.tbtLen else c.faLen)
    && i.turn == if w.Tbt? then e.tbtTurn else e.faTurn
  }

  predicate Feeds(c: Config, es: nat -> Env, w: Writer, ins: nat -> D.In, n: nat) {
    forall k :: 0 <= k < n ==> FedAt(c, At(c, es, k), es(k), w, ins(k))
  }

  /** The turn writers of the handshake are the burst writers, each with its own length and its
      own triggers; so by their laws each accepted capture writes 8 tbtLen and 5 faLen beats. */
  lemma {:induction false} TurnWritersRun(c: Config, es: nat -> Env, w: Writer, ins: nat -> D.In, n: nat)
    requires Feeds(c, es, w, ins, n)
    ensures WriterCtl(At(c, es, n), w) == D.CtlFrom(D.Ctl(D.Idle, 0), BeatsOf(w), ins, n)
  {
    hide At, D.NextCtl;
    if n == 0 {
      WritersIdle(c, es);
    } else {
      TurnWritersRun(c, es, w, ins, n - 1);
      assert FedAt(c, At(c, es, n - 1), es(n - 1), w, ins(n - 1));
      WritersNext(c, es, n - 1);
    }
  }

  lemma WritersIdle(c: Config, es: nat -> Env)
    ensures var s := At(c, es, 0); s.tbt == s.fa == D.Ctl(D.Idle, 0) && s.adc == A.Ctl(false, 0)
  {}

  lemma WritersNext(c: Config, es: nat -> Env, n: nat)
    ensures var s, t := At(c, es, n), At(c, es, n + 1);
      && t.adc == A.NextCtl(s.adc, s.trig.trig, c.adcLen)
      && t.tbt == D.NextCtl(s.tbt, D.TBT_BEATS, s.trig.trig, es(n).tbtTurn, c.tbtLen)
      && t.fa == D.NextCtl(s.fa, D.FA_BEATS, s.trig.trig, es(n).faTurn, c.faLen)
  {
    hide T.Next, D.NextCtl, A.NextCtl;
  }

  /** Likewise the continuous writer: each accepted capture writes adcLen + 1 beats. */
  lemma {:induction false} AdcWriterRuns(c: Config, es: nat -> Env, ins: nat -> A.In, n: nat)
    requires forall k :: 0 <= k < n ==>
      !ins(k).reset && ins(k).trig == At(c, es, k).trig.trig && ins(k).len == c.adcLen
    ensures At(c, es, n).adc == A.At(A.Regs(A.Ctl(false, 0), false, false), ins, n).ctl
  {
    hide At, A.NextCtl;
    if n == 0 {
      WritersIdle(c, es);
    } else {
      AdcWriterRuns(c, es, ins, n - 1);
      WritersNext(c, es, n - 1);
    }
  }

  /** After the clock e the host and the turns stand still, and one more trigger edge arrives. */
  function Prod(c: Config, e: Env, k: nat): Env {
    if k == 0 then e else Env(k == 2 && !c.trigsrc, k == 2 && c.trigsrc, 0, false, false, false)
  }

  function Prodded(c: Config, e: Env): nat -> Env {
    (k: nat) => Prod(c, e, k)
  }

  predicate PulseOntoActive(s: Sys) {
    s.trig.trig && s.tbt.st.Active?
  }

  /** The state k clocks on, as far as no pulse has come yet. */
  predicate Unlatched(c: Config, s: Sys, k: nat) {
    && s.tbt.st.Active? && TxDone(s.host)
    && (k == 1 ==> s.trig.lat) && (k >= 2 ==> !s.trig.lat && !s.trig.trig)
    && var sync := if c.trigsrc then s.trig.soft else s.trig.evr;
      && (2 <= k <= 4 ==> sync.s0 == (k == 3))
      && (k == 3 ==> !sync.s1) && (k == 4 ==> sync.s1 && !sync.s2)
  }

  lemma ProdStart(c: Config, s: Sys, e: Env)
    requires ValidConfig(c) && s.trig.trig && !s.trig.lat && Resting(s, 8) && TxDone(Next(c, s, e).host)
    ensures Unlatched(c, Next(c, s, e), 1)
  {}

  lemma ProdNext(c: Config, s: Sys, e: Env, k: nat)
    requires Unlatched(c, s, k) && 1 <= k <= 4
    ensures var t := Next(c, s, Prod(c, e, k)); if k == 4 then PulseOntoActive(t)
      else Unlatched(c, t, k + 1) || PulseOntoActive(t)
  {}

  /** From any state with a fresh pulse onto idle writers and the acknowledge high on the next
      clock, some continuation in which the host does nothing raises a pulse onto an active
      turn writer within five clocks. */
  lemma AcknowledgeBreaks(c: Config, s: Sys, e: Env) returns (n: nat)
    requires ValidConfig(c) && s.trig.trig && !s.trig.lat && Resting(s, 8) && TxDone(Next(c, s, e).host)
    ensures 2 <= n <= 5 && PulseOntoActive(From(c, s, Prodded(c, e), n))
    ensures forall k :: 1 <= k <= n ==> TxDone(From(c, s, Prodded(c, e), k).host)
  {
    var es := Prodded(c, e);
    ProdStart(c, s, e);
    n := 1;
    while n < 5 && !(n >= 2 && PulseOntoActive(From(c, s, es, n)))
      invariant 1 <= n <= 5
      invariant Unlatched(c, From(c, s, es, n), n) || (n >= 2 && PulseOntoActive(From(c, s, es, n)))
      invariant n == 5 ==> PulseOntoActive(From(c, s, es, n))
      invariant forall k :: 1 <= k <= n ==> TxDone(From(c, s, es, k).host)
    {
      hide Next, Unlatched, PulseOntoActive, Prod;
      ProdNext(c, From(c, s, es, n), e, n);
      StandsStill(c, From(c, s, es, n), e, n);
      n := n + 1;
    }
  }

  lemma StandsStill(c: Config, s: Sys, e: Env, k: nat)
    requires k >= 1
    ensures Next(c, s, Prod(c, e, k)).host == s.host
  {}

  /** A run that goes another way from clock n on. */
  function Turned(es: nat -> Env, n: nat, more: nat -> Env): nat -> Env {
    (k: nat) => if k < n then es(k) else more(k - n)
  }

  lemma {:induction false} TurnedBefore(c: Config, es: nat -> Env, n: nat, more: nat -> Env, k: nat)
    requires k <= n
    ensures At(c, Turned(es, n, more), k) == At(c, es, k)
  {
    hide Next;
    if k > 0 {
      TurnedBefore(c, es, n, more, k - 1);
    }
  }

  lemma {:induction false} TurnedAfter(c: Config, es: nat -> Env, n: nat, more: nat -> Env, k: nat)
    ensures At(c, Turned(es, n, more), n + k) == From(c, At(c, es, n), more, k)
  {
    hide Next;
    if k == 0 {
      TurnedBefore(c, es, n, more, n);
    } else {
      TurnedAfter(c, es, n, more, k - 1);
    }
  }

  predicate PacedAt(c: Config, es: nat -> Env, k: nat) {
    Paced(At(c, es, k), es(k))
  }

  /** The condition is exact. CaptureSafety says that legal runs are safe; conversely, when a run
      that was legal so far breaks the condition on the acknowledge at clock n, the same run
      can go on, with the host keeping its pace, to an unsafe step within five clocks. */
  lemma LegalExact(c: Config, es: nat -> Env, n: nat) returns (other: nat -> Env, m: nat)
    requires ValidConfig(c) && LegalRun(c, es, n) && PacedAt(c, es, n) && !LegalAt(c, es, n)
    ensures forall k :: 0 <= k <= n ==> other(k) == es(k)
    ensures n + 2 <= m <= n + 5
    ensures forall k :: 0 <= k < m ==> PacedAt(c, other, k)
    ensures !Safe(At(c, other, m), At(c, other, m + 1))
  {
    hide At, Next, Inv, From, PulseOntoActive, Turned, Prod, Paced;
    InvAt(c, es, n);
    var s := At(c, es, n);
    FiredRests(c, s, es(n));
    var d := AcknowledgeBreaks(c, s, es(n));
    var more := Prodded(c, es(n));
    other, m := Turned(es, n, more), n + d;
    TurnedKeeps(c, es, n);
    forall k | 0 <= k < m
      ensures PacedAt(c, other, k)
    {
      if k <= n {
        TurnedBefore(c, es, n, more, k);
        assert k < n ==> LegalAt(c, es, k);
        LegalPaced(c, es, k);
      } else {
        TurnedAfter(c, es, n, more, k - n);
        AckingPaced(At(c, other, k), other(k));
      }
    }
    TurnedAfter(c, es, n, more, d);
    Unsafe(At(c, other, m), At(c, other, m + 1));
  }

  lemma FiredRests(c: Config, s: Sys, e: Env)
    requires Inv(c, s) && Paced(s, e) && !Legal(c, s, e)
    ensures s.trig.trig && !s.trig.lat && Resting(s, 8) && TxDone(Next(c, s, e).host)
  {}

  lemma TurnedKeeps(c: Config, es: nat -> Env, n: nat)
    ensures var other := Turned(es, n, Prodded(c, es(n))); forall k :: 0 <= k <= n ==> other(k) == es(k)
  {}

  lemma LegalPaced(c: Config, es: nat -> Env, k: nat)
    ensures LegalAt(c, es, k) ==> PacedAt(c, es, k)
  {}

  lemma AckingPaced(s: Sys, e: Env)
    requires TxDone(s.host)
    ensures Paced(s, e)
  {}

  lemma Unsafe(s: Sys, t: Sys)
    requires PulseOntoActive(s)
    ensures !Safe(s, t)
  {}

  /** Three samples per capture, one turn, one fast sample. */
  const BRIEF: Config := Config(false, 3, 1, 1)

  /** One capture, reported and acknowledged in time; but the acknowledge stays high while two
      more event triggers arrive, three clocks apart. */
  function Late(k: nat): Env {
    Env(k == 0 || k == 13 || k == 16, false, 0, true, true, k == 9 || k == 13)
  }

  function LateBurst(k: nat, beats: nat): D.Ctl {
    if k == 4 || k == 17 then D.Ctl(D.Active, 1)
    else if 5 <= k < 5 + beats then D.Ctl(D.Write(k - 5), 0)
    else if k >= 18 then D.Ctl(D.Write(k - 18), 0)
    else D.Ctl(D.Idle, 0)
  }

  /** The registers k clocks into that run. */
  predicate LateState(s: Sys, k: nat) {
    && s.trig.evr == S.Sync(k == 1 || k == 14 || k == 17, k == 2 || k == 15 || k == 18, k == 3 || k == 16 || k == 19)
    && s.trig.trig == (k == 3 || k == 16 || k == 19)
    && s.trig.lat == (4 <= k <= 14 || k == 17)
    && s.trig.running == (5 <= k <= 7 || k >= 18)
    && s.trig.done == (k == 8) && s.trig.cnt == (if k < 9 then 0 else 1)
    && s.adc == (if 4 <= k <= 6 then A.Ctl(true, 7 - k)
                 else if 17 <= k <= 19 then A.Ctl(true, 20 - k) else A.Ctl(false, 0))
    && s.tbt == LateBurst(k, D.TBT_BEATS) && s.fa == LateBurst(k, D.FA_BEATS)
    && s.host == (if k < 10 then Host(Polling, 0) else Host(if k < 14 then Processing else Acking, 1))
    && s.age == (if k < 9 then k + 8 else k - 9)
  }

  lemma LateNext(s: Sys, k: nat)
    requires k < 19 && LateState(s, k)
    ensures LateState(Next(BRIEF, s, Late(k)), k + 1)
  {}

  lemma {:induction false} LateAt(k: nat)
    requires k <= 19
    ensures LateState(At(BRIEF, Late, k), k)
  {
    if k > 0 {
      hide Next, LateState;
      LateAt(k - 1);
      LateNext(At(BRIEF, Late, k - 1), k - 1);
    }
  }

  /** The condition cannot be dropped: in this run from reset the host keeps its pace on every
      clock, only the acknowledge is high still on the clock after the second capture pulse, and
      the third one is raised onto a converter writer in the middle of its burst. */
  lemma LateAcknowledge()
    ensures forall k :: 0 <= k < 19 ==> Paced(At(BRIEF, Late, k), Late(k))
    ensures forall k :: 0 <= k < 19 ==> (LegalAt(BRIEF, Late, k) <==> k != 16)
    ensures At(BRIEF, Late, 19).trig.trig && At(BRIEF, Late, 19).adc.active
    ensures !Safe(At(BRIEF, Late, 19), At(BRIEF, Late, 20))
  {
    hide At, Next;
    forall k | 0 <= k < 19
      ensures Paced(At(BRIEF, Late, k), Late(k)) && (LegalAt(BRIEF, Late, k) <==> k != 16)
    {
      LateAt(k);
      LateAt(k + 1);
      AtNext(BRIEF, Late, k);
    }
    LateAt(19);
  }

  /** The polling task of dmadata_push: the count register is read, compared with the last
      one seen, and a new count is processed and acknowledged by a pulse. */
  class HostTask {
    var mode: Mode
    var prev: nat

    function View(): Host
      reads this
    {
      Host(mode, prev)
    }

    constructor ()
      ensures View() == Host(Polling, 0)
    {
      mode, prev := Polling, 0;
    }

    method Step(trignum: nat) returns (report: bool)
      modifies this
      ensures View() == NextHost(old(View()), true, trignum)
      ensures report == Reporting(old(View()), true, trignum)
    {
      report := false;
      match mode {
        case Polling =>
          if trignum != prev {
            prev := trignum;
            report := true;
            mode := Processing;
          }
        case Processing =>
          mode := Acking;
        case Acking =>
          mode := Polling;
      }
    }
  }
}
