/** The turn trigger generator and the block averagers together, on internal triggers: which
    block each publication shows. */
module Lockstep {
  import opened Bits
  import D = DspCntrl
  import B = BlockAverage

  /** Machine selection, gate delay and width, and whether the slow averager is looked at. */
  datatype Config = Config(booster: bool, gateDelay: nat, gateWidth: nat, slow: bool)

  /** Clocks per internal turn. */
  function Period(c: Config): nat {
    if c.booster then 62 else 310
  }

  /** The gate is over two clocks before the next turn. */
  predicate Valid(c: Config) {
    c.gateDelay + 2 <= Period(c)
  }

  function Generator(c: Config): D.Config {
    D.Config(c.booster, true, c.gateDelay, c.gateWidth)
  }

  function Averager(c: Config): B.Config {
    if c.slow then B.SLOW else B.FAST
  }

  /** Turns between publications, and turns per block. */
  function Every(c: Config): nat {
    if c.slow then 38001 else 38
  }

  function Len(c: Config): nat {
    if c.slow then 38000 else 38
  }

  function Divider(c: Config, s: D.Regs): D.Divider {
    if c.slow then s.slow else s.fast
  }

  datatype Env = Env(ext: bool, data: int)

  /** The registers, and beside them: turns counted by the divider, turns that reached the
      averager, the sums latched so far, and for each publication the number of blocks
      latched by then and the sum shown. */
  datatype Sys = Sys(gen: D.Regs, avg: B.Regs, counted: nat, arrived: nat,
                     latched: seq<int>, known: seq<nat>, shown: seq<int>)

  function AvgIn(c: Config, s: Sys, e: Env): B.In {
    B.In(false, s.gen.turnOut, Divider(c, s.gen).trig, e.data)
  }

  function Next(c: Config, s: Sys, e: Env): Sys {
    var i := AvgIn(c, s, e);
    Sys(
      D.Next(Generator(c), s.gen, e.ext, false),
      B.Next(Averager(c), s.avg, i),
      s.counted + (if s.gen.turn then 1 else 0),
      s.arrived + (if s.gen.turnOut then 1 else 0),
      s.latched + (if B.Latches(Averager(c), s.avg, i) then [s.avg.accum] else []),
      s.known + (if i.publish then [|s.latched|] else []),
      s.shown + (if i.publish then [s.avg.lat] else []))
  }

  function Init(lat: int): Sys {
    Sys(D.Reset(), B.Power(lat), 0, 0, [], [], [])
  }

  function At(c: Config, lat: int, es: nat -> Env, n: nat): Sys {
    if n == 0 then Init(lat) else Next(c, At(c, lat, es, n - 1), es(n - 1))
  }

  // ------------------------------------------------------------- the invariant

  function One(b: bool): nat {
    if b then 1 else 0
  }

  /** The turn counter so many clocks after a turn pulse, at most one period and two clocks. */
  function Later(c: Config, clocks: nat): nat {
    if 1 + clocks < Period(c) then 1 + clocks else if clocks + 1 < 2 * Period(c) then 1 + clocks - Period(c) else 0
  }

  /** The gate ends on the very clock of the next turn pulse. */
  predicate Tight(c: Config) {
    c.gateDelay + 2 == Period(c)
  }

  /** Turn pulses come one period apart, and the gate follows each at a fixed distance. */
  predicate Timed(c: Config, g: D.Regs) {
    && g.turnCnt < Period(c)
    && (g.turnInt ==> g.turnCnt == 0)
    && (g.turn ==> g.turnCnt == 1)
    && (g.gate.Delaying? ==>
          g.gate.left <= c.gateDelay && g.turnCnt == Later(c, c.gateDelay + 1 - g.gate.left) && !g.delayed)
    && (g.delayed ==> g.turnCnt == Later(c, c.gateDelay + 2))
    && (g.turnOut ==> g.turnCnt == Later(c, c.gateDelay + 3))
    && (Divider(c, g).trig ==> g.turnCnt == 2 && g.gate.Delaying? && Divider(c, g).cnt == 0)
  }

  /** From the first turn on no turn pulse is missing, and in the tight case the gate is busy
      but for one clock per turn. */
  predicate Steady(c: Config, g: D.Regs, counted: nat) {
    && (counted >= 1 ==> (g.turnCnt == 0 ==> g.turnInt) && (g.turnCnt == 1 ==> g.turn))
    && (counted >= 1 && Tight(c) ==> if g.turnCnt == 1 then g.delayed else g.gate.Delaying?)
    && (counted >= 2 && Tight(c) && g.turnCnt == 2 ==> g.turnOut)
  }

  /** No turn is lost on the way from the divider to the averager. */
  predicate Counts(c: Config, s: Sys) {
    && s.counted == s.arrived + One(s.gen.gate.Delaying?) + One(s.gen.delayed) + One(s.gen.turnOut)
    && Divider(c, s.gen).cnt < Every(c)
    && s.counted == Every(c) * (|s.known| + One(Divider(c, s.gen).trig)) + Divider(c, s.gen).cnt
    && s.avg.cnt < Len(c) && s.arrived == Len(c) * |s.latched| + s.avg.cnt
  }

  /** Turns under way to the averager when a publication is made. */
  function UnderWay(c: Config): nat {
    if Tight(c) then 2 else 1
  }

  /** The block publication k shows; -1 stands for the power-on latch. */
  function ShownBlock(c: Config, k: nat): int {
    (Every(c) * (k + 1) - UnderWay(c)) / Len(c) - 1
  }

  predicate Published(c: Config, s: Sys) {
    && |s.known| == |s.shown|
    && (forall k :: 0 <= k < |s.known| ==>
          && s.known[k] == ShownBlock(c, k) + 1 && s.known[k] <= |s.latched|
          && (s.known[k] > 0 ==> s.shown[k] == s.latched[s.known[k] - 1]))
    && (s.latched != [] ==> s.avg.lat == s.latched[|s.latched| - 1])
    && (s.shown != [] ==> s.avg.scaled == s.shown[|s.shown| - 1] * Averager(c).scale)
  }

  lemma TimedNext(c: Config, g: D.Regs, ext: bool)
    requires Valid(c) && Timed(c, g)
    requires Divider(c, g).cnt < Every(c)
    ensures Timed(c, D.Next(Generator(c), g, ext, false))
  {}

  lemma SteadyNext(c: Config, s: Sys, e: Env)
    requires Valid(c) && Timed(c, s.gen) && Steady(c, s.gen, s.counted)
    ensures var t := Next(c, s, e); Steady(c, t.gen, t.counted)
  {
    hide B.Next, D.NextDivider, D.NextBooster, D.NextSide;
  }

  lemma TurnsNext(c: Config, s: Sys, e: Env)
    requires Valid(c) && Timed(c, s.gen)
    requires s.counted == s.arrived + One(s.gen.gate.Delaying?) + One(s.gen.delayed) + One(s.gen.turnOut)
    ensures var t := Next(c, s, e);
      t.counted == t.arrived + One(t.gen.gate.Delaying?) + One(t.gen.delayed) + One(t.gen.turnOut)
  {
    hide B.Next, D.NextDivider, D.NextBooster, D.NextSide;
  }

  lemma DividerNext(c: Config, s: Sys, e: Env)
    requires Valid(c) && Timed(c, s.gen) && Divider(c, s.gen).cnt < Every(c)
    requires s.counted == Every(c) * (|s.known| + One(Divider(c, s.gen).trig)) + Divider(c, s.gen).cnt
    ensures var t := Next(c, s, e);
      && Divider(c, t.gen).cnt < Every(c)
      && t.counted == Every(c) * (|t.known| + One(Divider(c, t.gen).trig)) + Divider(c, t.gen).cnt
  {
    hide B.Next, D.NextGate, D.NextBooster, D.NextSide;
  }

  lemma BlocksNext(c: Config, s: Sys, e: Env)
    requires Counts(c, s)
    ensures var t := Next(c, s, e);
      t.avg.cnt < Len(c) && t.arrived == Len(c) * |t.latched| + t.avg.cnt
  {
    hide D.Next;
  }

  lemma CountsNext(c: Config, s: Sys, e: Env)
    requires Valid(c) && Timed(c, s.gen) && Counts(c, s)
    ensures Counts(c, Next(c, s, e))
  {
    TurnsNext(c, s, e);
    DividerNext(c, s, e);
    BlocksNext(c, s, e);
    hide Next;
  }

  /** The count of blocks known at a publication. */
  lemma KnownNow(c: Config, s: Sys)
    requires Valid(c) && Timed(c, s.gen) && Steady(c, s.gen, s.counted) && Counts(c, s) && Divider(c, s.gen).trig
    ensures |s.latched| == ShownBlock(c, |s.known|) + 1
  {
    assert s.counted == s.arrived + UnderWay(c);
  }

  lemma PublishedNext(c: Config, s: Sys, e: Env)
    requires Valid(c) && Timed(c, s.gen) && Steady(c, s.gen, s.counted) && Counts(c, s) && Published(c, s)
    ensures Published(c, Next(c, s, e))
  {
    hide D.Next, B.Next, B.Latches, Timed, Steady, Counts, ShownBlock, Divider, Averager;
    AveragerValid(c);
    if Divider(c, s.gen).trig {
      KnownNow(c, s);
    }
    AveragerNext(Averager(c), s.avg, AvgIn(c, s, e));
  }

  /** What one clock does to latch and scaled output. */
  lemma AveragerNext(a: B.Config, r: B.Regs, i: B.In)
    requires B.Valid(a) && !i.rst
    ensures B.Next(a, r, i).lat == if B.Latches(a, r, i) then r.accum else r.lat
    ensures B.Next(a, r, i).scaled == if i.publish then r.lat * a.scale else r.scaled
  {}

  predicate Inv(c: Config, s: Sys) {
    Timed(c, s.gen) && Steady(c, s.gen, s.counted) && Counts(c, s) && Published(c, s)
  }

  lemma InvNext(c: Config, s: Sys, e: Env)
    requires Valid(c) && Inv(c, s)
    ensures Inv(c, Next(c, s, e))
  {
    TimedNext(c, s.gen, e.ext);
    SteadyNext(c, s, e);
    CountsNext(c, s, e);
    PublishedNext(c, s, e);
    hide D.Next, B.Next, Timed, Steady, Counts, Published;
  }

  lemma {:induction false} InvAt(c: Config, lat: int, es: nat -> Env, n: nat)
    requires Valid(c)
    ensures Inv(c, At(c, lat, es, n))
  {
    hide Next, Inv;
    if n == 0 {
      InvInit(c, lat);
    } else {
      InvAt(c, lat, es, n - 1);
      InvNext(c, At(c, lat, es, n - 1), es(n - 1));
    }
  }

  lemma InvInit(c: Config, lat: int)
    requires Valid(c)
    ensures Inv(c, Init(lat))
  {}

  // ------------------------------------------------------------- whole runs

  /** Every internal turn passes the gate: what the divider has counted has arrived at the
      averager, except for at most two turns under way. */
  lemma NoTurnLost(c: Config, lat: int, es: nat -> Env, n: nat)
    requires Valid(c)
    ensures var s := At(c, lat, es, n); s.arrived <= s.counted <= s.arrived + 2
    ensures Passes(c, lat, es, n)
  {
    hide Next;
    InvAt(c, lat, es, n);
  }

  /** A turn pulse on this clock finds the gate idle. */
  predicate Passes(c: Config, lat: int, es: nat -> Env, n: nat) {
    At(c, lat, es, n).gen.turn ==> At(c, lat, es, n).gen.gate.Idle?
  }

  /** The generator from reset to the second turn when the gate outlasts the period. */
  predicate Opening(c: Config, g: D.Regs, n: nat)
    requires !Valid(c) && n <= 2 * Period(c) + 1
  {
    var p := Period(c);
    && g.turnCnt == (if n < p then n else if n < 2 * p then n - p else n - 2 * p)
    && g.turnInt == (n == p || n == 2 * p)
    && g.turn == (n == p + 1 || n == 2 * p + 1)
    && g.gate == if n < p + 2 then D.Idle else D.Delaying(c.gateDelay + p + 2 - n)
  }

  lemma OpeningNext(c: Config, g: D.Regs, n: nat, ext: bool)
    requires !Valid(c) && n <= 2 * Period(c) && Opening(c, g, n)
    ensures Opening(c, D.Next(Generator(c), g, ext, false), n + 1)
  {
    hide D.NextDivider, D.NextBooster, D.NextSide;
  }

  lemma {:induction false} OpeningAt(c: Config, lat: int, es: nat -> Env, n: nat)
    requires !Valid(c) && n <= 2 * Period(c) + 1
    ensures Opening(c, At(c, lat, es, n).gen, n)
  {
    if n > 0 {
      OpeningAt(c, lat, es, n - 1);
      hide B.Next, B.Latches, D.Next;
      OpeningNext(c, At(c, lat, es, n - 1).gen, n - 1, es(n - 1).ext);
    }
  }

  /** The condition on the gate delay is exact: every turn passes in every run if and only if
      the gate is over two clocks before the next turn; otherwise the second turn is lost. */
  lemma GateDelayExact(c: Config, lat: int, es: nat -> Env)
    ensures (forall n: nat :: Passes(c, lat, es, n)) <==> Valid(c)
  {
    hide At, Next;
    if Valid(c) {
      forall n: nat
        ensures Passes(c, lat, es, n)
      {
        NoTurnLost(c, lat, es, n);
      }
    } else {
      OpeningAt(c, lat, es, 2 * Period(c) + 1);
      assert !Passes(c, lat, es, 2 * Period(c) + 1);
    }
  }

  /** What every publication of a run shows: a latched sum, or the power-on latch. */
  lemma Shows(c: Config, lat: int, es: nat -> Env, n: nat, k: nat)
    requires Valid(c) && k < |At(c, lat, es, n).shown|
    ensures var s, b := At(c, lat, es, n), ShownBlock(c, k);
      && -1 <= b < |s.latched| && (b >= 0 ==> s.shown[k] == s.latched[b])
      && (k == |s.shown| - 1 ==> s.avg.scaled == s.shown[k] * Averager(c).scale)
  {
    hide Next, ShownBlock;
    InvAt(c, lat, es, n);
    var s := At(c, lat, es, n);
    assert s.known[k] == ShownBlock(c, k) + 1;
  }

  /** The k-th fast publication shows block k - 1, in its scaled form; the one before the first
      block is complete shows the power-on latch. So every block is published exactly
      once, in order, and before the next one is latched. */
  lemma FastLockstep(c: Config, lat: int, es: nat -> Env, n: nat)
    requires Valid(c) && !c.slow
    ensures var s := At(c, lat, es, n);
      && (forall k :: 0 <= k < |s.shown| ==> k <= |s.latched| && (k >= 1 ==> s.shown[k] == s.latched[k - 1]))
      && |s.latched| <= |s.shown| <= |s.latched| + 1
      && (s.shown != [] ==> s.avg.scaled == s.shown[|s.shown| - 1] * B.FAST.scale)
  {
    hide Next;
    InvAt(c, lat, es, n);
    var s := At(c, lat, es, n);
    forall k | 0 <= k < |s.known|
      ensures s.known[k] == k
    {
      assert s.known[k] == ShownBlock(c, k) + 1;
    }
  }

  /** The block of every 38001 that the slow data never shows. */
  function Skipped(c: Config): nat {
    if Tight(c) then 0 else 38000
  }

  /** The slow publications come every 38001 turns but the blocks hold 38000: the blocks shown
      are, once each and in order, exactly those other than one in 38001. */
  lemma SlowSkips(c: Config, b: nat)
    requires Valid(c) && c.slow
    ensures (exists k: nat :: ShownBlock(c, k) == b) <==> b % 38001 != Skipped(c)
    ensures forall k: nat, l: nat :: k < l ==> ShownBlock(c, k) < ShownBlock(c, l)
  {
    SlowBlocks(c);
    if b % 38001 != Skipped(c) {
      var k: nat := if Tight(c) then b - b / 38001 else b - (b + 1) / 38001;
      assert ShownBlock(c, k) == b;
    }
  }

  lemma SlowBlocks(c: Config)
    requires c.slow
    ensures forall k: nat :: ShownBlock(c, k) == k + (k + 1 - UnderWay(c)) / 38000
  {}

  /** The input stream the averager sees in a run. */
  function AvgIns(c: Config, lat: int, es: nat -> Env): nat -> B.In {
    (k: nat) => AvgIn(c, At(c, lat, es, k), es(k))
  }

  lemma AverageStep(c: Config, s: Sys, e: Env)
    ensures var i, t := AvgIn(c, s, e), Next(c, s, e);
      && t.avg == B.Next(Averager(c), s.avg, i)
      && t.latched == s.latched + (if B.Latches(Averager(c), s.avg, i) then [s.avg.accum] else [])
  {
    hide D.Next, B.Next;
  }

  predicate Feeds(c: Config, lat: int, es: nat -> Env, ins: nat -> B.In, n: nat) {
    forall k :: 0 <= k < n ==> ins(k) == AvgIn(c, At(c, lat, es, k), es(k))
  }

  lemma AverageAt(c: Config, lat: int, es: nat -> Env, n: nat)
    requires n >= 1
    ensures var s, t := At(c, lat, es, n - 1), At(c, lat, es, n);
      var i := AvgIn(c, s, es(n - 1));
      && t.avg == B.Next(Averager(c), s.avg, i)
      && t.latched == s.latched + (if B.Latches(Averager(c), s.avg, i) then [s.avg.accum] else [])
  {
    hide Next, B.Next, B.Latches, AvgIn, Averager;
    AverageStep(c, At(c, lat, es, n - 1), es(n - 1));
  }

  /** The averager's part of a joint state is what its own run has reached. */
  predicate Reached(a: B.Config, lat: int, ins: nat -> B.In, n: nat, avg: B.Regs, latched: seq<int>)
    requires B.Valid(a)
  {
    avg == B.At(a, B.Power(lat), ins, n) && latched == B.Latched(a, B.Power(lat), ins, n)
  }

  lemma ReachedNext(a: B.Config, lat: int, ins: nat -> B.In, n: nat, avg: B.Regs, latched: seq<int>)
    requires B.Valid(a) && Reached(a, lat, ins, n, avg, latched)
    ensures Reached(a, lat, ins, n + 1, B.Next(a, avg, ins(n)),
                    latched + (if B.Latches(a, avg, ins(n)) then [avg.accum] else []))
  {
    hide B.Next, B.Latches;
  }

  lemma {:induction false} AverageRuns(c: Config, lat: int, es: nat -> Env, ins: nat -> B.In, n: nat)
    requires Feeds(c, lat, es, ins, n)
    ensures Reached(Averager(c), lat, ins, n, At(c, lat, es, n).avg, At(c, lat, es, n).latched)
  {
    hide At, Next, B.Next, B.Latches, AvgIn, Averager, Reached;
    if n == 0 {
      AverageStart(c, lat, es, ins);
    } else {
      var s := At(c, lat, es, n - 1);
      AveragerValid(c);
      AverageRuns(c, lat, es, ins, n - 1);
      AverageAt(c, lat, es, n);
      ReachedNext(Averager(c), lat, ins, n - 1, s.avg, s.latched);
    }
  }

  lemma AveragerValid(c: Config)
    ensures B.Valid(Averager(c))
  {}

  lemma AverageStart(c: Config, lat: int, es: nat -> Env, ins: nat -> B.In)
    ensures B.Valid(Averager(c))
    ensures Reached(Averager(c), lat, ins, 0, At(c, lat, es, 0).avg, At(c, lat, es, 0).latched)
  {}

  /** The turns the averager has seen before edge n. */
  function Seen(c: Config, lat: int, es: nat -> Env, n: nat): seq<int> {
    B.Seen(AvgIns(c, lat, es), n)
  }

  predicate HasBlock(c: Config, seen: seq<int>, b: int) {
    b >= 0 && B.Start(Averager(c), b) <= B.Start(Averager(c), b + 1) <= |seen|
  }

  function BlockSum(c: Config, seen: seq<int>, b: int): int
    requires HasBlock(c, seen, b)
  {
    B.Sum(B.Block(Averager(c), seen, b))
  }

  /** The sum v is what the accumulator holds of the sum of block b. */
  predicate IsBlockSum(c: Config, v: int, seen: seq<int>, b: int) {
    HasBlock(c, seen, b) && v == Signed(BlockSum(c, seen, b), Averager(c).half)
  }

  /** The data path end to end, for both averagers and any 32-bit turn data: the sum shown by
      publication k is what the accumulator holds of the sum of its block of the turns the
      averager saw, so it is that sum exactly when it fits. */
  lemma ShowsBlock(c: Config, lat: int, es: nat -> Env, n: nat, k: nat)
    requires Valid(c) && k < |At(c, lat, es, n).shown| && ShownBlock(c, k) >= 0
    requires forall j :: 0 <= j < n ==> Fits(es(j).data, B.HALF32)
    ensures IsBlockSum(c, At(c, lat, es, n).shown[k], Seen(c, lat, es, n), ShownBlock(c, k))
    ensures var sum := BlockSum(c, Seen(c, lat, es, n), ShownBlock(c, k));
      At(c, lat, es, n).shown[k] == sum <==> Fits(sum, Averager(c).half)
  {
    hide At, B.At, B.Latched, B.Sum, B.Start, Divider, ShownBlock, Signed;
    var s, ins := At(c, lat, es, n), AvgIns(c, lat, es);
    Shows(c, lat, es, n, k);
    AverageRuns(c, lat, es, ins, n);
    assert B.DataRun(ins, n);
    B.BlockLaw(Averager(c), lat, ins, n);
    assert B.Told(Averager(c), B.Seen(ins, n), s.latched, ShownBlock(c, k));
  }

  /** The fast data: publication k, for every k >= 1, shows block k - 1. */
  lemma FastShowsBlocks(c: Config, lat: int, es: nat -> Env, n: nat, k: nat)
    requires Valid(c) && !c.slow && 1 <= k < |At(c, lat, es, n).shown|
    requires forall j :: 0 <= j < n ==> Fits(es(j).data, B.HALF32)
    ensures IsBlockSum(c, At(c, lat, es, n).shown[k], Seen(c, lat, es, n), k - 1)
  {
    hide At, IsBlockSum, BlockSum;
    assert ShownBlock(c, k) == k - 1;
    ShowsBlock(c, lat, es, n, k);
  }

  // ------------------------------------------------------------- the published words

  /** The published word is a fair average of the block: within the band of the data, never above
      the true average of a non-negative sum, and below it by less than one unit and a small
      fraction of it. */
  predicate FairAverage(c: Config, out: int, sum: int, lo: int, hi: int) {
    && lo <= out <= hi
    && (sum >= 0 ==>
          && Len(c) * out <= sum
          && if c.slow then (sum - 38000 * out) * 0x20_0000 < 27 * sum + 38000 * 0x20_0000
             else (sum - 38 * out) * 0x4_0000 < sum + 38 * 0x4_0000)
  }

  /** The 32-bit word on display after publication k, end to end from the turn data: with all
      data in a band around zero that cannot overflow a block, it is a fair average of the block
      that publication shows. The slow averager takes every band of 32-bit data. */
  lemma PublishedWord(c: Config, lat: int, es: nat -> Env, n: nat, k: nat, lo: int, hi: int)
    requires Valid(c) && |At(c, lat, es, n).shown| == k + 1 && ShownBlock(c, k) >= 0
    requires Fits(lo, B.HALF32) && Fits(hi, B.HALF32) && lo <= 0 <= hi
    requires c.slow || (-1808407282 <= lo && hi <= 1808407282)
    requires forall j :: 0 <= j < n ==> lo <= es(j).data <= hi
    ensures HasBlock(c, Seen(c, lat, es, n), ShownBlock(c, k))
    ensures FairAverage(c, B.Out(Averager(c), At(c, lat, es, n).avg),
                        BlockSum(c, Seen(c, lat, es, n), ShownBlock(c, k)), lo, hi)
  {
    hide At, B.Seen, B.Sum, B.Start, ShownBlock, Signed, B.Out;
    var ins := AvgIns(c, lat, es);
    Shows(c, lat, es, n, k);
    ShowsBlock(c, lat, es, n, k);
    assert B.BandRun(ins, n, lo, hi);
    B.SeenBand(ins, n, lo, hi);
    ScaledFairly(c, At(c, lat, es, n).avg, B.Seen(ins, n), ShownBlock(c, k), lo, hi);
  }

  lemma ScaledFairly(c: Config, s: B.Regs, seen: seq<int>, b: int, lo: int, hi: int)
    requires HasBlock(c, seen, b) && B.Band(seen, lo, hi)
    requires Fits(lo, B.HALF32) && Fits(hi, B.HALF32) && lo <= 0 <= hi
    requires c.slow || (-1808407282 <= lo && hi <= 1808407282)
    requires s.scaled == Signed(BlockSum(c, seen, b), Averager(c).half) * Averager(c).scale
    ensures FairAverage(c, B.Out(Averager(c), s), BlockSum(c, seen, b), lo, hi)
  {
    hide B.Sum, B.Start, B.Out;
    var sum := BlockSum(c, seen, b);
    B.BlockLength(Averager(c), seen, b);
    B.BlockSumWithin(Averager(c), seen, b, lo, hi);
    if c.slow {
      B.SlowScaling(s, sum);
      B.ScalingWithinSlow(s, B.Block(B.SLOW, seen, b), lo, hi);
    } else {
      B.FastScaling(s, sum);
      B.ScalingWithin(s, B.Block(B.FAST, seen, b), lo, hi);
    }
  }

  /** When the gate outlasts the period a turn is lost: a gate that has just been loaded is
      idle again exactly delay + 2 clocks after the turn that loaded it. */
  lemma {:induction false} GateBusy(delay: nat, turns: nat -> bool, k: nat)
    requires turns(0) && k >= 1 && forall j :: 0 < j < k ==> !turns(j)
    ensures GateAt(delay, turns, k).Idle? <==> k >= delay + 2
    ensures GateAt(delay, turns, k).Delaying? ==> GateAt(delay, turns, k).left == delay + 1 - k
  {
    if k > 1 {
      GateBusy(delay, turns, k - 1);
    }
  }

  function GateAt(delay: nat, turns: nat -> bool, k: nat): D.Gate {
    if k == 0 then D.Idle else D.NextGate(GateAt(delay, turns, k - 1), turns(k - 1), delay)
  }
}
