/** The block averagers of fa_dsp.vhd and sa_dsp.vhd. The seven quantities they average run
    through identical lanes; this is one lane with the shared counters. */
module BlockAverage {
  import opened Bits

  const WORD: int := 0x1_0000_0000
  const HALF32: int := 0x8000_0000

  /** Turns per block, scale factor, divisor of the scaled sum (a power of two), and half the
      range of the accumulator. */
  datatype Config = Config(len: nat, scale: int, divisor: int, half: int)

  const FAST: Config := Config(38, 110376, 0x40_0000, 0x10_0000_0000)
  const SLOW: Config := Config(38000, 0x06E6, 0x400_0000, 0x8000_0000_0000)

  predicate Valid(c: Config) {
    c.len >= 2 && c.divisor > 0 && c.half >= HALF32
  }

  /** The latch is the one register the source does not reset. */
  datatype Regs = Regs(accum: int, cnt: nat, lat: int, scaled: int, blocks: nat)

  datatype In = In(rst: bool, turn: bool, publish: bool, data: int)

  predicate Latches(c: Config, s: Regs, i: In) {
    !i.rst && i.turn && s.cnt == c.len - 1
  }

  function Next(c: Config, s: Regs, i: In): Regs
    requires Valid(c)
  {
    Regs(
      if i.rst then 0 else if !i.turn then s.accum
      else if Latches(c, s, i) then i.data else Signed(i.data + s.accum, c.half),
      if i.rst then 0 else if !i.turn then s.cnt else if Latches(c, s, i) then 0 else s.cnt + 1,
      if Latches(c, s, i) then s.accum else s.lat,
      if i.rst then 0 else if i.publish then s.lat * c.scale else s.scaled,
      if i.rst then 0 else if Latches(c, s, i) then (s.blocks + 1) % WORD else s.blocks)
  }

  /** The 32 output bits of the scaled sum. */
  function Out(c: Config, s: Regs): int
    requires Valid(c)
  {
    Signed(s.scaled / c.divisor, HALF32)
  }

  /** The averager object. */
  class Averager {
    const c: Config
    var accum: int
    var cnt: nat
    var lat: int
    var scaled: int
    var blocks: nat

    function View(): Regs
      reads this
    {
      Regs(accum, cnt, lat, scaled, blocks)
    }

    constructor (c: Config)
      ensures this.c == c && View() == Regs(0, 0, 0, 0, 0)
    {
      this.c := c;
      accum, cnt, lat, scaled, blocks := 0, 0, 0, 0, 0;
    }

    method Clock(i: In)
      requires Valid(c)
      modifies this
      ensures View() == Next(c, old(View()), i)
    {
      if i.rst {
        accum, cnt, scaled, blocks := 0, 0, 0, 0;
        return;
      }
      if i.publish {
        scaled := lat * c.scale;
      }
      if i.turn {
        if cnt == c.len - 1 {
          lat, accum, cnt := accum, i.data, 0;
          blocks := (blocks + 1) % WORD;
        } else {
          accum, cnt := Signed(i.data + accum, c.half), cnt + 1;
        }
      }
    }
  }

  // ------------------------------------------------------------- runs

  function At(c: Config, s: Regs, ins: nat -> In, n: nat): Regs
    requires Valid(c)
  {
    if n == 0 then s else Next(c, At(c, s, ins, n - 1), ins(n - 1))
  }

  /** The turn data taken before edge n. */
  function Seen(ins: nat -> In, n: nat): seq<int> {
    if n == 0 then [] else Seen(ins, n - 1) + (if ins(n - 1).turn then [ins(n - 1).data] else [])
  }

  /** The sums latched before edge n. */
  function Latched(c: Config, s: Regs, ins: nat -> In, n: nat): seq<int>
    requires Valid(c)
  {
    if n == 0 then []
    else Latched(c, s, ins, n - 1)
         + (var r := At(c, s, ins, n - 1); if Latches(c, r, ins(n - 1)) then [r.accum] else [])
  }

  function Sum(s: seq<int>): int {
    if s == [] then 0 else Sum(s[..|s| - 1]) + s[|s| - 1]
  }

  lemma {:induction false} SumConcat(a: seq<int>, b: seq<int>)
    ensures Sum(a + b) == Sum(a) + Sum(b)
  {
    if b == [] {
      assert a + b == a;
    } else {
      SumConcat(a, b[..|b| - 1]);
      assert (a + b)[..|a + b| - 1] == a + b[..|b| - 1];
    }
  }

  /** The data lies in the band from lo to hi. */
  predicate Band(s: seq<int>, lo: int, hi: int) {
    forall k :: 0 <= k < |s| ==> lo <= s[k] <= hi
  }

  lemma {:induction false} SumBand(s: seq<int>, lo: int, hi: int)
    requires Band(s, lo, hi)
    ensures |s| * lo <= Sum(s) <= |s| * hi
  {
    if s != [] {
      SumBand(s[..|s| - 1], lo, hi);
      assert |s| * lo == (|s| - 1) * lo + lo && |s| * hi == (|s| - 1) * hi + hi;
    }
  }

  /** A band around zero: so many values of it, or fewer, add up to no more than len of them. */
  lemma SumWithin(s: seq<int>, lo: int, hi: int, len: nat)
    requires Band(s, lo, hi) && lo <= 0 <= hi && |s| <= len
    ensures len * lo <= Sum(s) <= len * hi
  {
    SumBand(s, lo, hi);
    MulLe(hi, |s|, len);
    MulLe(-lo, |s|, len);
    assert len * lo == -(len * -lo) && |s| * lo == -(|s| * -lo);
  }

  /** Where block k of the data begins: the first block is one turn short. */
  function Start(c: Config, k: nat): (n: nat)
    requires Valid(c)
  {
    if k == 0 then 0 else if k == 1 then c.len - 1 else Start(c, k - 1) + c.len
  }

  lemma {:induction false} StartClosed(c: Config, k: nat)
    requires Valid(c) && k >= 1
    ensures Start(c, k) == k * c.len - 1
  {
    if k > 1 {
      StartClosed(c, k - 1);
      assert k * c.len == (k - 1) * c.len + c.len;
    }
  }

  /** Block k of the data. */
  function Block(c: Config, seen: seq<int>, k: nat): seq<int>
    requires Valid(c) && Start(c, k) <= Start(c, k + 1) <= |seen|
  {
    seen[Start(c, k)..Start(c, k + 1)]
  }

  /** The k-th latched sum is what the accumulator holds of the sum of block k. */
  predicate Told(c: Config, seen: seq<int>, latched: seq<int>, k: nat)
    requires Valid(c)
  {
    && k < |latched| && Start(c, k) <= Start(c, k + 1) <= |seen|
    && latched[k] == Signed(Sum(Block(c, seen, k)), c.half)
  }

  predicate BlocksTold(c: Config, seen: seq<int>, latched: seq<int>)
    requires Valid(c)
  {
    forall k: nat :: k < |latched| ==> Told(c, seen, latched, k)
  }

  /** The registers and the list of latched sums, told by the data seen. */
  predicate Tells(c: Config, s: Regs, seen: seq<int>, latched: seq<int>)
    requires Valid(c)
  {
    var k := |latched|;
    && s.cnt < c.len
    && |seen| == Start(c, k) + s.cnt + (if k == 0 then 0 else 1)
    && s.accum == Signed(Sum(seen[Start(c, k)..]), c.half)
    && BlocksTold(c, seen, latched)
    && (k > 0 ==> s.lat == latched[k - 1])
  }

  lemma BlocksStay(c: Config, seen: seq<int>, latched: seq<int>, data: int)
    requires Valid(c) && BlocksTold(c, seen, latched)
    ensures BlocksTold(c, seen + [data], latched)
  {
    forall k: nat | k < |latched|
      ensures Told(c, seen + [data], latched, k)
    {
      assert Told(c, seen, latched, k);
      assert Block(c, seen + [data], k) == Block(c, seen, k);
    }
  }

  lemma SumOne(d: int)
    ensures Sum([d]) == d
  {
    assert [d][..0] == [];
  }

  lemma AddNext(c: Config, s: Regs, seen: seq<int>, latched: seq<int>, i: In)
    requires Valid(c) && Tells(c, s, seen, latched) && !i.rst && i.turn && s.cnt != c.len - 1
    ensures Tells(c, Next(c, s, i), seen + [i.data], latched)
  {
    hide Sum, Block, Told, BlocksTold, Signed;
    var at := Start(c, |latched|);
    assert (seen + [i.data])[at..] == seen[at..] + [i.data];
    SumConcat(seen[at..], [i.data]);
    SumOne(i.data);
    SignedAdd(Sum(seen[at..]), i.data, c.half);
    BlocksStay(c, seen, latched, i.data);
  }

  lemma LatchNext(c: Config, s: Regs, seen: seq<int>, latched: seq<int>, i: In)
    requires Valid(c) && Tells(c, s, seen, latched) && Latches(c, s, i) && Fits(i.data, HALF32)
    ensures Tells(c, Next(c, s, i), seen + [i.data], latched + [s.accum])
  {
    hide Signed;
    var k, seen', latched' := |latched|, seen + [i.data], latched + [s.accum];
    assert Start(c, k + 1) == |seen|;
    assert seen'[Start(c, k + 1)..] == [i.data];
    SumOne(i.data);
    assert Block(c, seen', k) == seen[Start(c, k)..];
    BlocksStay(c, seen, latched, i.data);
    forall j: nat | j < |latched'|
      ensures Told(c, seen', latched', j)
    {
      assert j < k ==> Told(c, seen', latched, j);
    }
  }

  lemma TellsStep(c: Config, s: Regs, seen: seq<int>, latched: seq<int>, i: In)
    requires Valid(c) && Tells(c, s, seen, latched) && !i.rst && Fits(i.data, HALF32)
    ensures Tells(c, Next(c, s, i), seen + (if i.turn then [i.data] else []),
                  latched + (if Latches(c, s, i) then [s.accum] else []))
  {
    hide Sum, BlocksTold, Signed;
    assert seen + [] == seen && latched + [] == latched;
    if i.turn && s.cnt == c.len - 1 {
      LatchNext(c, s, seen, latched, i);
    } else if i.turn {
      AddNext(c, s, seen, latched, i);
    }
  }

  /** Turn data of 32 bits, out of reset. */
  predicate DataRun(ins: nat -> In, n: nat) {
    forall k :: 0 <= k < n ==> !ins(k).rst && Fits(ins(k).data, HALF32)
  }

  predicate BandRun(ins: nat -> In, n: nat, lo: int, hi: int) {
    forall k :: 0 <= k < n ==> lo <= ins(k).data <= hi
  }

  lemma {:induction false} SeenBand(ins: nat -> In, n: nat, lo: int, hi: int)
    requires BandRun(ins, n, lo, hi)
    ensures Band(Seen(ins, n), lo, hi)
  {
    if n > 0 {
      SeenBand(ins, n - 1, lo, hi);
    }
  }

  function Power(lat: int): Regs {
    Regs(0, 0, lat, 0, 0)
  }

  /** The block law, over every run of 32-bit data: the k-th latched sum is what the
      accumulator holds of the sum of block k of the turns seen, blocks being consecutive; the
      last latched sum is in the latch and the accumulator holds the sum of what came since. */
  lemma {:induction false} BlockLaw(c: Config, lat: int, ins: nat -> In, n: nat)
    requires Valid(c) && DataRun(ins, n)
    ensures Tells(c, At(c, Power(lat), ins, n), Seen(ins, n), Latched(c, Power(lat), ins, n))
  {
    var s := Power(lat);
    if n == 0 {
      assert Seen(ins, 0)[0..] == [];
    } else {
      BlockLaw(c, lat, ins, n - 1);
      var r, seen, latched := At(c, s, ins, n - 1), Seen(ins, n - 1), Latched(c, s, ins, n - 1);
      hide Next, Tells;
      TellsStep(c, r, seen, latched, ins(n - 1));
    }
  }

  /** The block count of the data header: the blocks latched since the start, modulo 2^32. */
  lemma {:induction false} BlocksCounted(c: Config, lat: int, ins: nat -> In, n: nat)
    requires Valid(c) && DataRun(ins, n)
    ensures At(c, Power(lat), ins, n).blocks == |Latched(c, Power(lat), ins, n)| % WORD
  {
    hide Signed;
    if n > 0 {
      BlocksCounted(c, lat, ins, n - 1);
    }
  }

  /** A reset leads from any state to the start of a run, with what the latch held. */
  lemma ResetStarts(c: Config, s: Regs, i: In)
    requires Valid(c) && i.rst
    ensures Next(c, s, i) == Power(s.lat)
  {}

  /** A latched sum is the true sum of its block exactly when that sum fits the accumulator. */
  lemma BlockExact(c: Config, lat: int, ins: nat -> In, n: nat, k: nat)
    requires Valid(c) && DataRun(ins, n) && k < |Latched(c, Power(lat), ins, n)|
    ensures Start(c, k) <= Start(c, k + 1) <= |Seen(ins, n)|
    ensures var sum := Sum(Block(c, Seen(ins, n), k));
      Latched(c, Power(lat), ins, n)[k] == sum <==> Fits(sum, c.half)
  {
    hide At, Seen, Latched, Start, Sum, Signed;
    BlockLaw(c, lat, ins, n);
    assert Told(c, Seen(ins, n), Latched(c, Power(lat), ins, n), k);
  }

  /** Every block after the first holds exactly len consecutive turns. */
  lemma BlockLength(c: Config, seen: seq<int>, k: nat)
    requires Valid(c) && Start(c, k + 1) <= |seen|
    ensures Start(c, k) <= Start(c, k + 1)
    ensures |Block(c, seen, k)| == if k == 0 then c.len - 1 else c.len
  {}

  lemma BlockSumWithin(c: Config, seen: seq<int>, k: nat, lo: int, hi: int)
    requires Valid(c) && Start(c, k + 1) <= |seen| && Band(seen, lo, hi) && lo <= 0 <= hi
    ensures Start(c, k) <= Start(c, k + 1)
    ensures c.len * lo <= Sum(Block(c, seen, k)) <= c.len * hi
  {
    BlockLength(c, seen, k);
    SumWithin(Block(c, seen, k), lo, hi, c.len);
  }

  /** No slow block of 32-bit data overflows the accumulator, and no fast block of data up to
      1808407282 in size. */
  lemma WidthsSuffice(c: Config, lat: int, ins: nat -> In, n: nat, k: nat)
    requires c == SLOW || (c == FAST && BandRun(ins, n, -1808407282, 1808407282))
    requires DataRun(ins, n) && k < |Latched(c, Power(lat), ins, n)|
    ensures Start(c, k) <= Start(c, k + 1) <= |Seen(ins, n)|
    ensures Latched(c, Power(lat), ins, n)[k] == Sum(Block(c, Seen(ins, n), k))
  {
    hide At, Seen, Latched, Start, Sum, Block;
    BlockExact(c, lat, ins, n, k);
    var m := if c == SLOW then HALF32 else 1808407282;
    SeenBand(ins, n, -m, m);
    BlockSumWithin(c, Seen(ins, n), k, -m, m);
  }

  // ------------------------------------------------------------- a run that overflows

  lemma {:induction false} SumConstant(s: seq<int>, v: int)
    requires Band(s, v, v)
    ensures Sum(s) == |s| * v
  {
    SumBand(s, v, v);
  }

  /** With constant turn data every full block latches what is left of len times the value. */
  lemma ConstantBlocks(c: Config, lat: int, ins: nat -> In, n: nat, k: nat, v: int)
    requires Valid(c) && DataRun(ins, n) && BandRun(ins, n, v, v)
    requires 1 <= k < |Latched(c, Power(lat), ins, n)|
    ensures Latched(c, Power(lat), ins, n)[k] == Signed(c.len * v, c.half)
  {
    hide At, Seen, Latched, Start, Sum, Signed;
    BlockLaw(c, lat, ins, n);
    assert Told(c, Seen(ins, n), Latched(c, Power(lat), ins, n), k);
    SeenBand(ins, n, v, v);
    BlockLength(c, Seen(ins, n), k);
    SumConstant(Block(c, Seen(ins, n), k), v);
  }

  /** A turn of 2000000000 on every clock, as the sum of four magnitudes of 500000000 gives. */
  function Loud(k: nat): In {
    In(false, true, false, 2000000000)
  }

  lemma {:induction false} LoudSeen(n: nat)
    ensures |Seen(Loud, n)| == n
  {
    if n > 0 {
      LoudSeen(n - 1);
    }
  }

  lemma BlocksOf76(lat: int, seen: seq<int>, latched: seq<int>, s: Regs)
    requires Tells(FAST, s, seen, latched) && |seen| == 76
    ensures |latched| == 2
  {
    hide Sum, BlocksTold, Signed;
    if |latched| >= 1 {
      StartClosed(FAST, |latched|);
    }
  }

  /** The fast accumulator does overflow on 32-bit data: 38 turns of 2000000000 make
      76000000000, of which the second latched sum holds a negative number. */
  lemma FastOverflows(lat: int)
    ensures |Latched(FAST, Power(lat), Loud, 76)| == 2
    ensures Latched(FAST, Power(lat), Loud, 76)[1] == -61438953472 != 38 * 2000000000
  {
    hide At, Seen, Latched, Tells, Signed;
    BlockLaw(FAST, lat, Loud, 76);
    LoudSeen(76);
    BlocksOf76(lat, Seen(Loud, 76), Latched(FAST, Power(lat), Loud, 76), At(FAST, Power(lat), Loud, 76));
    SignedPeriod(-61438953472, FAST.half, 1);
    ConstantBlocks(FAST, lat, Loud, 76, 1, 2000000000);
  }

  // ------------------------------------------------------------- conservation

  lemma FrontGrows(c: Config, seen: seq<int>, k: nat)
    requires Valid(c) && Start(c, k) <= Start(c, k + 1) <= |seen|
    ensures Sum(seen[..Start(c, k + 1)]) == Sum(seen[..Start(c, k)]) + Sum(Block(c, seen, k))
  {
    SumConcat(seen[..Start(c, k)], Block(c, seen, k));
    assert seen[..Start(c, k)] + Block(c, seen, k) == seen[..Start(c, k + 1)];
  }

  lemma SumTake(s: seq<int>, k: nat)
    requires k < |s|
    ensures Sum(s[..k + 1]) == Sum(s[..k]) + s[k]
  {
    assert s[..k + 1][..k] == s[..k];
  }

  lemma SumNone(c: Config, s: seq<int>, seen: seq<int>)
    requires Valid(c)
    ensures Start(c, 0) == 0 && Sum(s[..0]) == 0 == Sum(seen[..0])
  {}

  /** Block j does not overflow. */
  predicate BlockFits(c: Config, seen: seq<int>, j: nat)
    requires Valid(c)
  {
    Start(c, j) <= Start(c, j + 1) <= |seen| ==> Fits(Sum(Block(c, seen, j)), c.half)
  }

  predicate BlocksFit(c: Config, seen: seq<int>, k: nat)
    requires Valid(c)
  {
    forall j :: 0 <= j < k ==> BlockFits(c, seen, j)
  }

  /** The latched blocks make up the turns before the running block, up to what overflows. */
  lemma {:induction false} BlocksSum(c: Config, seen: seq<int>, latched: seq<int>, k: nat)
    requires Valid(c) && BlocksTold(c, seen, latched) && k <= |latched|
    ensures Start(c, k) <= |seen|
    ensures Signed(Sum(latched[..k]), c.half) == Signed(Sum(seen[..Start(c, k)]), c.half)
    ensures BlocksFit(c, seen, k) ==> Sum(latched[..k]) == Sum(seen[..Start(c, k)])
  {
    hide Signed, Block, Sum, Start;
    if k == 0 {
      SumNone(c, latched, seen);
    } else {
      BlocksSum(c, seen, latched, k - 1);
      assert Told(c, seen, latched, k - 1);
      FrontGrows(c, seen, k - 1);
      SumTake(latched, k - 1);
      SignedSums(Sum(latched[..k - 1]), Sum(seen[..Start(c, k - 1)]), Sum(Block(c, seen, k - 1)), c.half);
      assert BlocksFit(c, seen, k) ==> BlockFits(c, seen, k - 1);
    }
  }

  lemma SignedSums(a: int, b: int, v: int, half: int)
    requires half > 0 && Signed(a, half) == Signed(b, half)
    ensures Signed(a + Signed(v, half), half) == Signed(b + v, half)
  {
    SignedAdd(v, a, half);
    SignedAdd(a, v, half);
    SignedAdd(b, v, half);
  }

  /** Conservation: the latched sums and the running sum make up all turns seen, up to
      multiples of the accumulator's range, and exactly when no block overflows. */
  lemma Conservation(c: Config, s: Regs, seen: seq<int>, latched: seq<int>)
    requires Valid(c) && Tells(c, s, seen, latched)
    ensures Signed(Sum(latched) + s.accum, c.half) == Signed(Sum(seen), c.half)
    ensures BlocksFit(c, seen, |latched|) && Fits(Sum(seen[Start(c, |latched|)..]), c.half) ==>
              Sum(latched) + s.accum == Sum(seen)
  {
    hide Sum, Told, Signed, BlocksFit;
    var k := |latched|;
    BlocksSum(c, seen, latched, k);
    var front, rest := seen[..Start(c, k)], seen[Start(c, k)..];
    assert latched[..k] == latched && front + rest == seen;
    SumConcat(front, rest);
    SignedSums(Sum(latched), Sum(front), Sum(rest), c.half);
  }

  // ------------------------------------------------------------- scaling

  /** The published fast average, for every block sum that fits: never above the true average of a
      non-negative block, and below it by less than one unit and the 2^18th part of it. The
      multiplied-out form avoids fractions: sum / 38 is the average. */
  lemma FastScaling(s: Regs, sum: int)
    requires Fits(sum, FAST.half) && s.scaled == sum * FAST.scale
    ensures Fits(s.scaled, 0x40_0000_0000_0000)
    ensures var out := Out(FAST, s);
      sum >= 0 ==> 38 * out <= sum && (sum - 38 * out) * 0x4_0000 < sum + 38 * 0x4_0000
  {}

  lemma SlowScaling(s: Regs, sum: int)
    requires -(38000 * HALF32) <= sum <= 38000 * (HALF32 - 1) && s.scaled == sum * SLOW.scale
    ensures Fits(s.scaled, 0x8000_0000_0000_0000)
    ensures var out := Out(SLOW, s);
      sum >= 0 ==> 38000 * out <= sum && (sum - 38000 * out) * 0x20_0000 < 27 * sum + 38000 * 0x20_0000
  {}

  /** The published average of a block stays within any band around zero that holds its data. */
  lemma ScalingWithin(s: Regs, data: seq<int>, lo: int, hi: int)
    requires Band(data, lo, hi) && |data| <= 38 && Fits(lo, HALF32) && Fits(hi, HALF32) && lo <= 0 <= hi
    requires s.scaled == Sum(data) * FAST.scale
    ensures lo <= Out(FAST, s) <= hi
  {
    SumWithin(data, lo, hi, 38);
  }

  lemma ScalingWithinSlow(s: Regs, data: seq<int>, lo: int, hi: int)
    requires Band(data, lo, hi) && |data| <= 38000 && Fits(lo, HALF32) && Fits(hi, HALF32) && lo <= 0 <= hi
    requires s.scaled == Sum(data) * SLOW.scale
    ensures lo <= Out(SLOW, s) <= hi
  {
    SumWithin(data, lo, hi, 38000);
  }
}
