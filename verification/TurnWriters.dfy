/** The burst writers of tbt2dma.vhd and fa2dma.vhd: a fixed number of 64-bit beats per
    turn or sample, into a sink that is always ready. */
module TurnWriters {

  const WORD: int := 0x1_0000_0000
  const HEADER: nat := 0x8000_0000
  const TBT_BEATS: nat := 8
  const FA_BEATS: nat := 5

  datatype Beat = Beat(tdata: nat, last: bool)

  /** The longword flip on the way to the sink: the high word is stored first. */
  function Pack(hi: nat, lo: nat): nat {
    lo * WORD + hi
  }

  // ------------------------------------------------ turn-by-turn and fast writers

  datatype State = Idle | Active | Write(beat: nat)

  datatype Ctl = Ctl(st: State, wrlen: nat)

  /** The control part of a writer of the given number of beats per turn. */
  function NextCtl(c: Ctl, beats: nat, trig: bool, turn: bool, len: nat): Ctl {
    match c.st
    case Idle => if trig then Ctl(Active, len) else c
    case Active => if turn then Ctl(Write(0), (c.wrlen - 1) % WORD) else c
    case Write(j) =>
      if j + 1 < beats then Ctl(Write(j + 1), c.wrlen)
      else if c.wrlen == 0 then Ctl(Idle, c.wrlen) else Ctl(Active, c.wrlen)
  }

  predicate IsActive(c: Ctl) {
    c.wrlen != 0
  }

  /** One clock of inputs; words holds the data words of beats 1, 2, ... in order. */
  datatype In = In(reset: bool, trig: bool, turn: bool, len: nat, words: seq<nat>)

  datatype Regs = Regs(ctl: Ctl, cnt: nat, tvalid: bool, tlast: bool, hi: nat, lo: nat)

  predicate Sized(i: In, beats: nat) {
    |i.words| == 2 * (beats - 1)
  }

  function Next(s: Regs, beats: nat, i: In): Regs
    requires beats >= 2 && Sized(i, beats)
  {
    if i.reset then Regs(Ctl(Idle, 0), 0, false, false, 0, 0)
    else
      var c := NextCtl(s.ctl, beats, i.trig, i.turn, i.len);
      match s.ctl.st
      case Idle => Regs(c, 0, false, false, s.hi, s.lo)
      case Active => Regs(c, s.cnt, false, false, s.hi, s.lo)
      case Write(j) =>
        if j == 0 then Regs(c, s.cnt, true, s.tlast, HEADER, s.cnt % WORD)
        else if j >= beats then s.(ctl := c)
        else if j < beats - 1 then Regs(c, s.cnt, s.tvalid, s.tlast, i.words[2 * j - 2], i.words[2 * j - 1])
        else Regs(c, s.cnt + 1, s.tvalid, s.tlast || s.ctl.wrlen == 0, i.words[2 * j - 2], i.words[2 * j - 1])
  }

  /** The writer object: 8 beats per turn in tbt2dma.vhd, 5 per sample in fa2dma.vhd. */
  class TurnWriter {
    const beats: nat
    var state: State
    var wrlen: nat
    var cnt: nat
    var tvalid: bool
    var tlast: bool
    var hi: nat
    var lo: nat

    function View(): Regs
      reads this
    {
      Regs(Ctl(state, wrlen), cnt, tvalid, tlast, hi, lo)
    }

    constructor (beats: nat)
      ensures this.beats == beats
      ensures View() == Regs(Ctl(Idle, 0), 0, false, false, 0, 0)
    {
      this.beats := beats;
      state, wrlen, cnt := Idle, 0, 0;
      tvalid, tlast, hi, lo := false, false, 0, 0;
    }

    method Clock(i: In)
      requires beats >= 2 && Sized(i, beats)
      modifies this
      ensures View() == Next(old(View()), beats, i)
    {
      if i.reset {
        state, wrlen, cnt := Idle, 0, 0;
        tvalid, tlast, hi, lo := false, false, 0, 0;
        return;
      }
      match state {
        case Idle =>
          tlast, tvalid, cnt := false, false, 0;
          if i.trig {
            state, wrlen := Active, i.len;
          }
        case Active =>
          tlast, tvalid := false, false;
          if i.turn {
            state, wrlen := Write(0), (wrlen - 1) % WORD;
          }
        case Write(j) =>
          WriteBeat(j, i);
      }
    }

    method WriteBeat(j: nat, i: In)
      requires beats >= 2 && Sized(i, beats) && !i.reset && state == Write(j)
      modifies this
      ensures View() == Next(old(View()), beats, i)
    {
      if j == 0 {
        tvalid := true;
        hi, lo := HEADER, cnt % WORD;
      } else if j < beats {
        hi, lo := i.words[2 * j - 2], i.words[2 * j - 1];
      }
      if j + 1 < beats {
        state := Write(j + 1);
      } else {
        if j + 1 == beats {
          cnt := cnt + 1;
          tlast := tlast || wrlen == 0;
        }
        state := if wrlen == 0 then Idle else Active;
      }
    }
  }

  predicate Running(ins: nat -> In, beats: nat, n: nat) {
    beats >= 2 && forall k :: 0 <= k < n ==> Sized(ins(k), beats) && !ins(k).reset
  }

  function At(s: Regs, beats: nat, ins: nat -> In, n: nat): Regs
    requires Running(ins, beats, n)
  {
    if n == 0 then s else Next(At(s, beats, ins, n - 1), beats, ins(n - 1))
  }

  /** The beats handed over before edge n, and the one on display at it. */
  function Sent(s: Regs, beats: nat, ins: nat -> In, n: nat): seq<Beat>
    requires Running(ins, beats, n)
  {
    (if n == 0 then [] else Sent(s, beats, ins, n - 1)) + Shown(At(s, beats, ins, n))
  }

  function Shown(s: Regs): seq<Beat> {
    if s.tvalid then [Beat(Pack(s.hi, s.lo), s.tlast)] else []
  }

  /** What one clock adds to the data words taken so far, turn by turn: a header opens a turn, and
      each further beat takes the two words then at its place. */
  function TakeWords(turns: seq<seq<nat>>, st: State, beats: nat, words: seq<nat>): seq<seq<nat>>
    requires beats >= 2 && |words| == 2 * (beats - 1)
  {
    if st == Write(0) then turns + [[]]
    else if st.Write? && st.beat < beats && turns != [] then
      turns[..|turns| - 1] + [turns[|turns| - 1] + words[2 * st.beat - 2..2 * st.beat]]
    else turns
  }

  /** The turns taken before edge n, each as the data words present while it was written. */
  function Turns(s: Regs, beats: nat, ins: nat -> In, n: nat): seq<seq<nat>>
    requires Running(ins, beats, n)
  {
    if n == 0 then []
    else TakeWords(Turns(s, beats, ins, n - 1), At(s, beats, ins, n - 1).ctl.st, beats, ins(n - 1).words)
  }

  // ------------------------------------------------ the expected stream of a burst

  function TurnBeat(beats: nat, len: nat, i: nat, words: seq<nat>, j: nat): Beat
    requires j == 0 || 2 * j <= |words|
  {
    Beat(if j == 0 then Pack(HEADER, i % WORD) else Pack(words[2 * j - 2], words[2 * j - 1]),
         j == beats - 1 && i == len - 1)
  }

  /** The first beats of a turn, of which at least the data words they carry are known. */
  function TurnBeats(beats: nat, len: nat, i: nat, words: seq<nat>, upto: nat): (b: seq<Beat>)
    requires upto <= 1 || 2 * (upto - 1) <= |words|
    ensures |b| == upto
  {
    if upto == 0 then []
    else TurnBeats(beats, len, i, words, upto - 1) + [TurnBeat(beats, len, i, words, upto - 1)]
  }

  lemma {:induction false} TurnBeatsGrow(beats: nat, len: nat, i: nat, words: seq<nat>, more: seq<nat>, upto: nat)
    requires upto <= 1 || 2 * (upto - 1) <= |words|
    ensures TurnBeats(beats, len, i, words + more, upto) == TurnBeats(beats, len, i, words, upto)
  {
    if upto > 0 {
      TurnBeatsGrow(beats, len, i, words, more, upto - 1);
    }
  }

  predicate Shaped(beats: nat, turns: seq<seq<nat>>) {
    beats >= 2 && forall k :: 0 <= k < |turns| ==> |turns[k]| == 2 * (beats - 1)
  }

  function Image(beats: nat, len: nat, turns: seq<seq<nat>>): (b: seq<Beat>)
    requires Shaped(beats, turns)
    ensures |b| == beats * |turns|
  {
    if turns == [] then []
    else
      var k := |turns| - 1;
      Image(beats, len, turns[..k]) + TurnBeats(beats, len, k, turns[k], beats)
  }

  // ------------------------------------------------ the burst invariant

  predicate Inv(s: Regs, beats: nat, len: nat, sent: seq<Beat>, turns: seq<seq<nat>>) {
    beats >= 2
    && match s.ctl.st
       case Active =>
         Shaped(beats, turns) && 1 <= s.ctl.wrlen == len - |turns| && s.cnt == |turns|
         && sent == Image(beats, len, turns) && (s.tlast ==> |turns| == len)
       case Write(j) =>
         if j == 0 then
           Shaped(beats, turns) && s.ctl.wrlen == len - |turns| - 1 && s.cnt == |turns|
           && sent == Image(beats, len, turns) && !s.tlast
         else
           && j < beats && |turns| > 0 && s.tvalid && !s.tlast
           && s.ctl.wrlen == len - |turns| && s.cnt == |turns| - 1
           && Partial(beats, len, sent, turns[..|turns| - 1], turns[|turns| - 1], j)
       case Idle => Shaped(beats, turns) && |turns| == len && sent == Image(beats, len, turns)
  }

  /** Whole turns and the first j beats of one more have been sent. */
  predicate Partial(beats: nat, len: nat, sent: seq<Beat>, front: seq<seq<nat>>, last: seq<nat>, j: nat) {
    && j >= 1 && Shaped(beats, front) && |last| == 2 * (j - 1)
    && sent == Image(beats, len, front) + TurnBeats(beats, len, |front|, last, j)
  }

  lemma ActiveNext(s: Regs, beats: nat, len: nat, sent: seq<Beat>, turns: seq<seq<nat>>, i: In)
    requires beats >= 2 && Sized(i, beats) && !i.reset && len < WORD
    requires Inv(s, beats, len, sent, turns) && s.ctl.st.Active?
    ensures Shown(Next(s, beats, i)) == []
    ensures Inv(Next(s, beats, i), beats, len, sent, turns)
  {}

  lemma HeaderNext(s: Regs, beats: nat, len: nat, sent: seq<Beat>, turns: seq<seq<nat>>, i: In)
    requires beats >= 2 && Sized(i, beats) && !i.reset && len < WORD
    requires Inv(s, beats, len, sent, turns) && s.ctl.st == Write(0)
    ensures var t := Next(s, beats, i);
      Inv(t, beats, len, sent + Shown(t), turns + [[]])
  {
    var t, turns' := Next(s, beats, i), turns + [[]];
    assert turns'[..|turns'| - 1] == turns && turns'[|turns'| - 1] == [];
    assert TurnBeats(beats, len, |turns|, [], 1) == Shown(t) by {
      assert TurnBeats(beats, len, |turns|, [], 0) == [];
    }
  }

  /** One more beat of a turn with its two data words. */
  lemma PartialMore(beats: nat, len: nat, sent: seq<Beat>, front: seq<seq<nat>>, last: seq<nat>, j: nat, pair: seq<nat>)
    requires Partial(beats, len, sent, front, last, j) && |pair| == 2
    ensures var words := last + pair;
      Partial(beats, len, sent + [TurnBeat(beats, len, |front|, words, j)], front, words, j + 1)
  {
    TurnBeatsGrow(beats, len, |front|, last, pair, j);
    var words, head := last + pair, Image(beats, len, front);
    assert (head + TurnBeats(beats, len, |front|, words, j)) + [TurnBeat(beats, len, |front|, words, j)]
        == head + TurnBeats(beats, len, |front|, words, j + 1);
  }

  /** A turn all of whose beats are sent is one more whole turn. */
  lemma PartialWhole(beats: nat, len: nat, sent: seq<Beat>, front: seq<seq<nat>>, last: seq<nat>)
    requires beats >= 2 && Partial(beats, len, sent, front, last, beats)
    ensures Shaped(beats, front + [last]) && sent == Image(beats, len, front + [last])
  {
    assert (front + [last])[..|front|] == front;
  }

  lemma BeatNext(s: Regs, beats: nat, len: nat, sent: seq<Beat>, turns: seq<seq<nat>>, i: In)
    requires beats >= 2 && Sized(i, beats) && !i.reset && len < WORD
    requires Inv(s, beats, len, sent, turns) && s.ctl.st.Write? && s.ctl.st.beat > 0
    ensures var t := Next(s, beats, i);
      Inv(t, beats, len, sent + Shown(t), TakeWords(turns, s.ctl.st, beats, i.words))
  {
    hide Image, TurnBeats, Shaped, Partial;
    var t, k, j := Next(s, beats, i), |turns| - 1, s.ctl.st.beat;
    var pair := i.words[2 * j - 2..2 * j];
    var front, last := turns[..k], turns[k];
    var words, turns' := last + pair, front + [last + pair];
    PartialLength(beats, len, sent, front, last, j);
    PartialMore(beats, len, sent, front, last, j, pair);
    assert words[2 * j - 2] == pair[0] && words[2 * j - 1] == pair[1];
    assert Shown(t) == [TurnBeat(beats, len, k, words, j)];
    assert turns'[..k] == front && turns'[k] == words;
    if j == beats - 1 {
      PartialWhole(beats, len, sent + Shown(t), front, words);
    }
  }

  lemma PartialLength(beats: nat, len: nat, sent: seq<Beat>, front: seq<seq<nat>>, last: seq<nat>, j: nat)
    requires Partial(beats, len, sent, front, last, j)
    ensures j >= 1 && |last| == 2 * (j - 1)
  {}

  predicate Started(s: Regs, len: nat) {
    s.ctl == Ctl(Active, len) && s.cnt == 0 && !s.tvalid && !s.tlast
  }

  /** A trigger that finds the writer idle, with the burst length it loads. */
  predicate Triggers(idle: Regs, beats: nat, first: In) {
    && idle.ctl.st.Idle? && first.trig && !first.reset && 1 <= first.len < WORD
    && beats >= 2 && Sized(first, beats)
  }

  lemma TriggerStarts(idle: Regs, beats: nat, first: In)
    requires Triggers(idle, beats, first)
    ensures Started(Next(idle, beats, first), first.len)
  {}

  /** A reset leads from any state to the idle one with all registers clear. */
  lemma ResetClears(s: Regs, beats: nat, i: In)
    requires beats >= 2 && Sized(i, beats) && i.reset
    ensures Next(s, beats, i) == Regs(Ctl(Idle, 0), 0, false, false, 0, 0)
  {}

  /** Without a trigger an idle writer sends nothing. */
  lemma StaysIdle(idle: Regs, beats: nat, i: In)
    requires idle.ctl.st.Idle? && !i.trig && beats >= 2 && Sized(i, beats)
    ensures Next(idle, beats, i).ctl.st.Idle? && Shown(Next(idle, beats, i)) == []
  {}

  predicate Unfinished(s: Regs, beats: nat, ins: nat -> In, n: nat)
    requires Running(ins, beats, n)
  {
    forall k :: 0 <= k < n ==> !At(s, beats, ins, k).ctl.st.Idle?
  }

  lemma {:induction false} BurstAt(s: Regs, beats: nat, len: nat, ins: nat -> In, n: nat)
    requires 1 <= len < WORD && Started(s, len)
    requires Running(ins, beats, n) && Unfinished(s, beats, ins, n)
    ensures Inv(At(s, beats, ins, n), beats, len, Sent(s, beats, ins, n), Turns(s, beats, ins, n))
  {
    if n == 0 {
      assert Shown(s) == [];
      assert Sent(s, beats, ins, 0) == [];
    } else {
      BurstAt(s, beats, len, ins, n - 1);
      hide Next, Inv, Sized, TakeWords;
      StepAt(At(s, beats, ins, n - 1), beats, len, Sent(s, beats, ins, n - 1), Turns(s, beats, ins, n - 1), ins(n - 1));
    }
  }

  lemma StepAt(r: Regs, beats: nat, len: nat, sent: seq<Beat>, turns: seq<seq<nat>>, i: In)
    requires beats >= 2 && Sized(i, beats) && !i.reset && len < WORD
    requires Inv(r, beats, len, sent, turns) && !r.ctl.st.Idle?
    ensures var t := Next(r, beats, i);
      Inv(t, beats, len, sent + Shown(t), TakeWords(turns, r.ctl.st, beats, i.words))
  {
    hide Next, Inv;
    match r.ctl.st {
      case Active =>
        ActiveNext(r, beats, len, sent, turns, i);
        assert sent + [] == sent;
      case Write(j) =>
        if j == 0 {
          HeaderNext(r, beats, len, sent, turns, i);
        } else {
          BeatNext(r, beats, len, sent, turns, i);
        }
    }
  }

  /** A burst, from the trigger that finds the writer idle, for every data stream, under any timing
      of the turn triggers and any further capture triggers: when the writer first returns to
      idle it has written exactly the image of as many turns as the trigger's burst length,
      in the order they were taken. */
  lemma Burst(idle: Regs, beats: nat, first: In, ins: nat -> In, n: nat)
    requires Triggers(idle, beats, first)
    requires Running(ins, beats, n) && Unfinished(Next(idle, beats, first), beats, ins, n)
    requires At(Next(idle, beats, first), beats, ins, n).ctl.st.Idle?
    ensures var s := Next(idle, beats, first);
      var turns := Turns(s, beats, ins, n);
      && |turns| == first.len && Shaped(beats, turns)
      && Sent(s, beats, ins, n) == Image(beats, first.len, turns)
      && |Sent(s, beats, ins, n)| == beats * first.len
  {
    hide Next, Sent, Turns;
    TriggerStarts(idle, beats, first);
    BurstAt(Next(idle, beats, first), beats, first.len, ins, n);
  }

  lemma OpensTurn(turns: seq<seq<nat>>, words: seq<nat>, beats: nat, i: In, r: Regs)
    requires beats >= 2 && |words| == 2 * (beats - 1) && Sized(i, beats) && !i.reset && r.ctl.st == Write(0)
    ensures TakeWords(turns, Write(0), beats, i.words) == turns + [words[..0]]
    ensures Next(r, beats, i).ctl.st == Write(1)
  {}

  lemma GrowsTurn(turns: seq<seq<nat>>, words: seq<nat>, beats: nat, j: nat, i: In, r: Regs)
    requires 1 <= j < beats && |words| == 2 * (beats - 1) && !i.reset && r.ctl.st == Write(j) && i.words == words
    ensures TakeWords(turns + [words[..2 * (j - 1)]], Write(j), beats, words) == turns + [words[..2 * j]]
    ensures j + 1 < beats ==> Next(r, beats, i).ctl.st == Write(j + 1)
  {
    var all := turns + [words[..2 * (j - 1)]];
    assert all[..|all| - 1] == turns;
    assert words[..2 * (j - 1)] + words[2 * j - 2..2 * j] == words[..2 * j];
  }

  /** A turn whose data words do not change while it is written is taken as it stands. */
  lemma {:induction false} SteadyTurn(s: Regs, beats: nat, ins: nat -> In, n: nat, words: seq<nat>, j: nat)
    requires 1 <= j <= beats && Running(ins, beats, n + j) && At(s, beats, ins, n).ctl.st == Write(0)
    requires forall k :: n < k < n + j ==> ins(k).words == words
    requires |words| == 2 * (beats - 1)
    ensures j < beats ==> At(s, beats, ins, n + j).ctl.st == Write(j)
    ensures Turns(s, beats, ins, n + j) == Turns(s, beats, ins, n) + [words[..2 * (j - 1)]]
  {
    hide Next, TakeWords;
    if j == 1 {
      OpensTurn(Turns(s, beats, ins, n), words, beats, ins(n), At(s, beats, ins, n));
    } else {
      SteadyTurn(s, beats, ins, n, words, j - 1);
      var m := n + j - 1;
      GrowsTurn(Turns(s, beats, ins, n), words, beats, j - 1, ins(m), At(s, beats, ins, m));
    }
  }

  // ------------------------------------------------ beat count and last flag, for any data

  predicate NoneLast(sent: seq<Beat>) {
    forall k :: 0 <= k < |sent| ==> !sent[k].last
  }

  predicate EndsLast(sent: seq<Beat>) {
    forall k :: 0 <= k < |sent| ==> (sent[k].last <==> k == |sent| - 1)
  }

  /** How many beats a burst has sent at any point of it, and that none of them was the last. */
  predicate Tally(s: Regs, beats: nat, len: nat, sent: seq<Beat>) {
    match s.ctl.st
    case Active => 1 <= s.ctl.wrlen == len - s.cnt && |sent| == beats * s.cnt && NoneLast(sent) && !s.tlast
    case Write(j) =>
      && s.ctl.wrlen == len - s.cnt - 1 && |sent| == beats * s.cnt + j && NoneLast(sent) && !s.tlast
      && j < beats && (j > 0 ==> s.tvalid)
    case Idle => |sent| == beats * len && EndsLast(sent)
  }

  /** What one clock of a running burst does to the control part, the count and the beats. */
  lemma BeatShown(s: Regs, beats: nat, i: In)
    requires beats >= 2 && Sized(i, beats) && !i.reset && !s.ctl.st.Idle?
    requires s.ctl.st.Write? ==> s.ctl.st.beat < beats && (s.ctl.st.beat > 0 ==> s.tvalid)
    ensures var t := Next(s, beats, i); match s.ctl.st
      case Active => Shown(t) == [] && !t.tlast && t.cnt == s.cnt
      case Write(j) =>
        && |Shown(t)| == 1 && Shown(t)[0].last == t.tlast && t.tvalid
        && t.tlast == (s.tlast || (j == beats - 1 && s.ctl.wrlen == 0))
        && t.cnt == s.cnt + (if j == beats - 1 then 1 else 0)
  {}

  lemma TallyNext(s: Regs, beats: nat, len: nat, sent: seq<Beat>, i: In)
    requires beats >= 2 && Sized(i, beats) && !i.reset && len < WORD
    requires Tally(s, beats, len, sent) && !s.ctl.st.Idle?
    ensures var t := Next(s, beats, i); Tally(t, beats, len, sent + Shown(t))
  {
    hide Shown, Sized;
    BeatShown(s, beats, i);
    assert Next(s, beats, i).ctl == NextCtl(s.ctl, beats, i.trig, i.turn, i.len);
    hide Next;
    if s.ctl.st == Write(beats - 1) {
      OneMore(beats, s.cnt);
    }
  }

  lemma OneMore(beats: nat, k: nat)
    ensures beats * (k + 1) == beats * k + beats
  {}

  lemma {:induction false} TallyAt(s: Regs, beats: nat, len: nat, ins: nat -> In, n: nat)
    requires 1 <= len < WORD && Started(s, len)
    requires Running(ins, beats, n) && Unfinished(s, beats, ins, n)
    ensures Tally(At(s, beats, ins, n), beats, len, Sent(s, beats, ins, n))
  {
    if n > 0 {
      TallyAt(s, beats, len, ins, n - 1);
      hide Next, Tally, Sized;
      TallyNext(At(s, beats, ins, n - 1), beats, len, Sent(s, beats, ins, n - 1), ins(n - 1));
    }
  }

  /** The length of a burst, from the trigger that finds the writer idle, for every data stream and
      any trigger timing: when the writer first returns to idle it has written exactly as
      many turns as the trigger's burst length, tlast on the final beat and on no other. */
  lemma BurstLength(idle: Regs, beats: nat, first: In, ins: nat -> In, n: nat)
    requires Triggers(idle, beats, first)
    requires Running(ins, beats, n) && Unfinished(Next(idle, beats, first), beats, ins, n)
    requires At(Next(idle, beats, first), beats, ins, n).ctl.st.Idle?
    ensures var sent := Sent(Next(idle, beats, first), beats, ins, n);
      |sent| == beats * first.len && EndsLast(sent)
  {
    hide Next, Sent;
    TriggerStarts(idle, beats, first);
    TallyAt(Next(idle, beats, first), beats, first.len, ins, n);
  }

  lemma {:induction false} BeatIndex(beats: nat, i: nat, j: nat, k: nat)
    requires j < beats && i < k
    ensures 0 <= beats * i + j < beats * k
    ensures i < k - 1 ==> beats * i + j < beats * (k - 1)
  {
    if k > i + 1 {
      BeatIndex(beats, i, j, k - 1);
      assert beats * k == beats * (k - 1) + beats;
    } else {
      assert beats * k == beats * i + beats;
    }
  }

  /** Beat j of turn i stands at place beats * i + j of the image. */
  lemma {:induction false} ImageAt(beats: nat, len: nat, turns: seq<seq<nat>>, i: nat, j: nat)
    requires Shaped(beats, turns) && i < |turns| && j < beats
    ensures 0 <= beats * i + j < |Image(beats, len, turns)|
    ensures Image(beats, len, turns)[beats * i + j] == TurnBeat(beats, len, i, turns[i], j)
  {
    var k := |turns| - 1;
    BeatIndex(beats, i, j, k + 1);
    if i < k {
      ImageAt(beats, len, turns[..k], i, j);
    } else {
      TurnBeatsAt(beats, len, k, turns[k], beats, j);
    }
  }

  lemma {:induction false} TurnBeatsAt(beats: nat, len: nat, i: nat, words: seq<nat>, upto: nat, j: nat)
    requires beats >= 2 && |words| == 2 * (beats - 1) && j < upto <= beats
    ensures TurnBeats(beats, len, i, words, upto)[j] == TurnBeat(beats, len, i, words, j)
  {
    if j < upto - 1 {
      TurnBeatsAt(beats, len, i, words, upto - 1, j);
    }
  }

  /** tlast stands on the final beat of the burst and on no other. */
  lemma LastOnlyAtEnd(beats: nat, len: nat, turns: seq<seq<nat>>, i: nat, j: nat)
    requires Shaped(beats, turns) && |turns| == len && i < len && j < beats
    ensures 0 <= beats * i + j < |Image(beats, len, turns)|
    ensures Image(beats, len, turns)[beats * i + j].last <==> beats * i + j == beats * len - 1
  {
    ImageAt(beats, len, turns, i, j);
    BeatIndex(beats, i, j, len);
    assert beats * len == beats * (len - 1) + beats;
  }

  lemma WriteStep(r: Regs, beats: nat, i: In, j: nat)
    requires j < beats && beats >= 2 && Sized(i, beats) && !i.reset && r.ctl == Ctl(Write(j), 0)
    ensures Next(r, beats, i).ctl == if j + 1 < beats then Ctl(Write(j + 1), 0) else Ctl(Idle, 0)
  {}

  /** Once the last turn is taken the writer is idle after the remaining beats. */
  lemma {:induction false} Finishes(s: Regs, beats: nat, ins: nat -> In, n: nat, j: nat)
    requires j < beats
    requires Running(ins, beats, n + (beats - j))
    requires At(s, beats, ins, n).ctl == Ctl(Write(j), 0)
    ensures At(s, beats, ins, n + (beats - j)).ctl == Ctl(Idle, 0)
    decreases beats - j
  {
    WriteStep(At(s, beats, ins, n), beats, ins(n), j);
    hide Next;
    if j + 1 < beats {
      Finishes(s, beats, ins, n + 1, j + 1);
    }
  }

  // ------------------------------------------------ when a burst ends

  /** The control part alone, n clocks on. */
  function CtlFrom(c: Ctl, beats: nat, ins: nat -> In, n: nat): Ctl {
    if n == 0 then c
    else var i := ins(n - 1); NextCtl(CtlFrom(c, beats, ins, n - 1), beats, i.trig, i.turn, i.len)
  }

  lemma {:induction false} CtlRuns(s: Regs, beats: nat, ins: nat -> In, n: nat)
    requires Running(ins, beats, n)
    ensures At(s, beats, ins, n).ctl == CtlFrom(s.ctl, beats, ins, n)
  {
    if n > 0 {
      CtlRuns(s, beats, ins, n - 1);
    }
  }

  lemma {:induction false} Waits(c: Ctl, beats: nat, ins: nat -> In, n: nat, m: nat)
    requires n <= m && CtlFrom(c, beats, ins, n).st.Active?
    requires forall k :: n <= k < m ==> !ins(k).turn
    ensures CtlFrom(c, beats, ins, m) == CtlFrom(c, beats, ins, n)
  {
    if n < m {
      Waits(c, beats, ins, n, m - 1);
    }
  }

  predicate TakesTurn(c: Ctl, beats: nat, ins: nat -> In, n: nat, left: nat) {
    CtlFrom(c, beats, ins, n) == Ctl(Active, left + 1) && left + 1 < WORD && ins(n).turn
  }

  lemma {:induction false} WritesOn(c: Ctl, beats: nat, ins: nat -> In, n: nat, left: nat, j: nat)
    requires TakesTurn(c, beats, ins, n, left) && j < beats
    ensures CtlFrom(c, beats, ins, n + 1 + j) == Ctl(Write(j), left)
  {
    if j > 0 {
      WritesOn(c, beats, ins, n, left, j - 1);
    }
  }

  /** A turn trigger that finds the writer active is taken: its beats follow, and then the
      writer is active for the remaining turns, or idle after the last. */
  lemma TurnTaken(c: Ctl, beats: nat, ins: nat -> In, n: nat, left: nat)
    requires TakesTurn(c, beats, ins, n, left) && beats >= 1
    ensures forall j :: 0 <= j < beats ==> CtlFrom(c, beats, ins, n + 1 + j) == Ctl(Write(j), left)
    ensures CtlFrom(c, beats, ins, n + 1 + beats) == Ctl(if left == 0 then Idle else Active, left)
  {
    hide CtlFrom;
    forall j | 0 <= j < beats
      ensures CtlFrom(c, beats, ins, n + 1 + j) == Ctl(Write(j), left)
    {
      WritesOn(c, beats, ins, n, left, j);
    }
    WritesOn(c, beats, ins, n, left, beats - 1);
    CtlNext(c, beats, ins, n + beats);
  }

  lemma CtlNext(c: Ctl, beats: nat, ins: nat -> In, n: nat)
    ensures var i := ins(n);
      CtlFrom(c, beats, ins, n + 1) == NextCtl(CtlFrom(c, beats, ins, n), beats, i.trig, i.turn, i.len)
  {}

  /** The turn triggers of a burst: each comes when the turn before it has been written, and there
      is none in between. */
  predicate Paced(ins: nat -> In, beats: nat, from: nat, turns: seq<nat>)
    decreases |turns|
  {
    turns == []
    || (from <= turns[0] && ins(turns[0]).turn && (forall k :: from <= k < turns[0] ==> !ins(k).turn)
        && Paced(ins, beats, turns[0] + 1 + beats, turns[1..]))
  }

  lemma {:induction false} EndsFrom(c: Ctl, beats: nat, ins: nat -> In, n: nat, turns: seq<nat>)
    requires turns != [] && |turns| < WORD && beats >= 1
    requires CtlFrom(c, beats, ins, n) == Ctl(Active, |turns|) && Paced(ins, beats, n, turns)
    ensures var last := turns[|turns| - 1];
      && n <= last && CtlFrom(c, beats, ins, last + 1 + beats) == Ctl(Idle, 0)
      && forall k :: n <= k < last + 1 + beats ==> !CtlFrom(c, beats, ins, k).st.Idle?
    decreases |turns|
  {
    hide CtlFrom;
    var t, last := turns[0], turns[|turns| - 1];
    Waits(c, beats, ins, n, t);
    TurnTaken(c, beats, ins, t, |turns| - 1);
    if |turns| > 1 {
      assert turns[1..][|turns[1..]| - 1] == last;
      EndsFrom(c, beats, ins, t + 1 + beats, turns[1..]);
    }
    forall k | n <= k < last + 1 + beats
      ensures !CtlFrom(c, beats, ins, k).st.Idle?
    {
      if k <= t {
        Waits(c, beats, ins, n, k);
      } else if k <= t + beats {
        assert CtlFrom(c, beats, ins, t + 1 + (k - t - 1)) == Ctl(Write(k - t - 1), |turns| - 1);
      }
    }
  }

  /** A burst ends: the writer is idle when the beats of the last of as many turns as the burst
      length have been written, and not before. */
  lemma BurstEnds(idle: Regs, beats: nat, first: In, ins: nat -> In, turns: seq<nat>)
    requires Triggers(idle, beats, first) && |turns| == first.len && Paced(ins, beats, 0, turns)
    requires Running(ins, beats, turns[|turns| - 1] + 1 + beats)
    ensures var s, n := Next(idle, beats, first), turns[|turns| - 1] + 1 + beats;
      Unfinished(s, beats, ins, n) && At(s, beats, ins, n).ctl == Ctl(Idle, 0)
  {
    hide At, Next, CtlFrom;
    TriggerStarts(idle, beats, first);
    var s, n := Next(idle, beats, first), turns[|turns| - 1] + 1 + beats;
    CtlStart(s.ctl, beats, ins);
    EndsFrom(s.ctl, beats, ins, 0, turns);
    forall k | 0 <= k <= n
      ensures At(s, beats, ins, k).ctl == CtlFrom(s.ctl, beats, ins, k)
    {
      CtlRuns(s, beats, ins, k);
    }
  }

  lemma CtlStart(c: Ctl, beats: nat, ins: nat -> In)
    ensures CtlFrom(c, beats, ins, 0) == c
  {}
}
