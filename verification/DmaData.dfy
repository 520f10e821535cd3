/** The host side of the captures: burst lengths (control.c), arming the DMA cores and
    turning the captured memory into messages in network order (dmadata.c). */
module DmaData {
  import T = TurnWriters
  import A = AdcWriter

  const WORD: int := 0x1_0000_0000
  const HALFWORD: int := 0x1_0000

  // ---------------------------------------------------------------- lengths

  const ADC: nat := 0
  const TBT: nat := 1
  const FA: nat := 2

  /** The signed reading of a 32-bit word, as the call of clamp converts it. */
  function AsInt(w: nat): int
    requires w < WORD
  {
    if w < 0x8000_0000 then w else w - WORD
  }

  function Clamp(val: int, min: int, max: int): int {
    if val < min then min else if val > max then max else val
  }

  /** The request as set_dmalen reads it: the 32-bit word in two's complement, limited to the
      range. So a word within the range is taken as it is, one above it but not negative gives
      the greatest length, a smaller or negative one the least. */
  lemma ClampedRequest(w: nat, min: nat, max: nat)
    requires w < WORD && min <= max < 0x8000_0000
    ensures min <= w <= max ==> Clamp(AsInt(w), min, max) == w
    ensures max < w < 0x8000_0000 ==> Clamp(AsInt(w), min, max) == max
    ensures w < min || w >= 0x8000_0000 ==> Clamp(AsInt(w), min, max) == min
  {}

  /** The burst length registers and the armed transfer lengths in bytes. */
  class LengthRegs {
    var adcLen: nat
    var tbtLen: nat
    var faLen: nat
    var adcBytes: nat
    var tbtBytes: nat
    var faBytes: nat

    predicate Valid()
      reads this
    {
      adcLen <= 1000000 && tbtLen <= 1000000 && faLen <= 100000
    }

    /** Every armed transfer has room for what its writer sends: len + 1 beats of 8 bytes, and
        120 bytes to spare, for the converter samples, exactly 8 len beats for turns, 5 len for fast samples. */
    predicate Fits()
      reads this
    {
      && adcBytes == (adcLen + 1) * 8 + 120
      && (T.TBT_BEATS * tbtLen) * 8 == tbtBytes
      && (T.FA_BEATS * faLen) * 8 == faBytes
    }

    constructor (adcLen: nat, tbtLen: nat, faLen: nat)
      requires adcLen <= 1000000 && tbtLen <= 1000000 && faLen <= 100000
      ensures Valid() && Fits()
    {
      this.adcLen, this.tbtLen, this.faLen := adcLen, tbtLen, faLen;
      adcBytes, tbtBytes, faBytes := 0, 0, 0;
      new;
      Arm();
    }

    /** The length part of dma_arm, in 32-bit arithmetic. */
    method Arm()
      requires Valid()
      modifies this
      ensures Valid() && Fits()
      ensures adcLen == old(adcLen) && tbtLen == old(tbtLen) && faLen == old(faLen)
    {
      adcBytes := ((adcLen + 16) * 4 * 2) % WORD;
      tbtBytes := (tbtLen * 16 * 4) % WORD;
      faBytes := (faLen * 10 * 4) % WORD;
    }

    method SetDmaLen(channel: nat, msgVal: nat)
      requires Valid() && msgVal < WORD
      modifies this
      ensures Valid() && Fits()
      ensures channel == ADC && 1000 <= msgVal <= 1000000 ==> adcLen == msgVal
      ensures channel == TBT && 1000 <= msgVal <= 1000000 ==> tbtLen == msgVal
      ensures channel == FA && 1000 <= msgVal <= 100000 ==> faLen == msgVal
      ensures adcLen == if channel == ADC then Clamp(AsInt(msgVal), 1000, 1000000) else old(adcLen)
      ensures tbtLen == if channel == TBT then Clamp(AsInt(msgVal), 1000, 1000000) else old(tbtLen)
      ensures faLen == if channel == FA then Clamp(AsInt(msgVal), 1000, 100000) else old(faLen)
    {
      if channel == ADC {
        adcLen := Clamp(AsInt(msgVal), 1000, 1000000);
      } else if channel == TBT {
        tbtLen := Clamp(AsInt(msgVal), 1000, 1000000);
      } else if channel == FA {
        faLen := Clamp(AsInt(msgVal), 1000, 100000);
      }
      Arm();
    }
  }

  // ---------------------------------------------------------- byte order

  function Byte(v: nat, k: nat): nat
    requires k < 4
  {
    if k == 0 then v % 256
    else if k == 1 then v / 0x100 % 256
    else if k == 2 then v / 0x1_0000 % 256
    else v / 0x100_0000 % 256
  }

  /** The bytes of a 32-bit word in memory, lowest first. */
  function Stored(v: nat): (b: seq<nat>)
    ensures |b| == 4
  {
    [Byte(v, 0), Byte(v, 1), Byte(v, 2), Byte(v, 3)]
  }

  /** The bytes of a 32-bit word in network order. */
  function Network(v: nat): (b: seq<nat>)
    ensures |b| == 4
  {
    [Byte(v, 3), Byte(v, 2), Byte(v, 1), Byte(v, 0)]
  }

  function Htonl(v: nat): nat {
    Byte(v, 0) * 0x100_0000 + Byte(v, 1) * 0x1_0000 + Byte(v, 2) * 0x100 + Byte(v, 3)
  }

  function Htons(v: nat): nat {
    v % 256 * 256 + v / 256 % 256
  }

  lemma BytesOf(v: nat, b0: nat, b1: nat, b2: nat, b3: nat)
    requires b0 < 256 && b1 < 256 && b2 < 256 && b3 < 256
    requires v == b0 * 0x100_0000 + b1 * 0x1_0000 + b2 * 0x100 + b3
    ensures Byte(v, 0) == b3 && Byte(v, 1) == b2 && Byte(v, 2) == b1 && Byte(v, 3) == b0
  {
    assert v / 0x100 == b0 * 0x1_0000 + b1 * 0x100 + b2;
    assert v / 0x1_0000 == b0 * 0x100 + b1;
    assert v / 0x100_0000 == b0;
  }

  /** A word stored after htonl lies in memory in network order. */
  lemma HtonlStores(v: nat)
    ensures Stored(Htonl(v)) == Network(v)
  {
    BytesOf(Htonl(v), Byte(v, 0), Byte(v, 1), Byte(v, 2), Byte(v, 3));
  }

  /** The bytes of a 16-bit word in memory, and in network order. */
  function StoredHalf(v: nat): seq<nat> {
    [v % 256, v / 256 % 256]
  }

  function NetworkHalf(v: nat): seq<nat> {
    [v / 256 % 256, v % 256]
  }

  lemma HtonsStores(v: nat)
    ensures StoredHalf(Htons(v)) == NetworkHalf(v)
  {
    var lo, hi := v % 256, v / 256 % 256;
    assert (lo * 256 + hi) % 256 == hi && (lo * 256 + hi) / 256 == lo;
  }

  // ---------------------------------------------------------- turn records

  /** One turn of processed data, as 32-bit words. */
  datatype Turn = Turn(aMag: nat, aPhs: nat, bMag: nat, bPhs: nat, cMag: nat, cPhs: nat, dMag: nat, dPhs: nat,
                       xpos: nat, ypos: nat, sum: nat, xposNm: nat, yposNm: nat)

  /** The data words tbt2dma.vhd puts on beats 1 to 7. */
  function TurnWords(t: Turn): (w: seq<nat>)
    ensures |w| == 14
  {
    [t.aMag, t.aPhs, t.bMag, t.bPhs, t.cMag, t.cPhs, t.dMag, t.dPhs, t.xpos, t.ypos, 0, t.sum, t.xposNm, t.yposNm]
  }

  predicate IsWord(w: nat) {
    w < WORD
  }

  predicate AllWords(w: seq<nat>) {
    forall k :: 0 <= k < |w| ==> IsWord(w[k])
  }

  /** Word k of the memory the beats were stored to: two words per beat, low word first. */
  function MemWord(tdata: nat, odd: bool): nat {
    if odd then tdata / WORD else tdata % WORD
  }

  function TurnMemory(beats: seq<T.Beat>): (m: seq<nat>)
    ensures |m| == 2 * |beats|
  {
    seq(2 * |beats|, (k: nat) requires k < 2 * |beats| => MemWord(beats[k / 2].tdata, k % 2 == 1))
  }

  datatype TbtMsg = TbtMsg(hdr: nat, cnt: nat, aMag: nat, aPhs: nat, bMag: nat, bPhs: nat, cMag: nat, cPhs: nat,
                           dMag: nat, dPhs: nat, xposRaw: nat, yposRaw: nat, rsvd: nat, sum: nat,
                           xposNm: nat, yposNm: nat)

  /** The struct as it lies in memory, in two halves. */
  function Members(m: TbtMsg): (w: seq<nat>)
    ensures |w| == 16
  {
    FirstMembers(m) + LastMembers(m)
  }

  function FirstMembers(m: TbtMsg): (w: seq<nat>)
    ensures |w| == 8
  {
    [m.hdr, m.cnt, m.aMag, m.aPhs, m.bMag, m.bPhs, m.cMag, m.cPhs]
  }

  function LastMembers(m: TbtMsg): (w: seq<nat>)
    ensures |w| == 8
  {
    [m.dMag, m.dPhs, m.xposRaw, m.yposRaw, m.rsvd, m.sum, m.xposNm, m.yposNm]
  }

  /** The message made of the sixteen words from place p on. */
  function TbtMsgAt(mem: seq<nat>, p: nat): TbtMsg
    requires p + 16 <= |mem|
  {
    TbtMsg(Htonl(mem[p]), Htonl(mem[p + 1]), Htonl(mem[p + 2]), Htonl(mem[p + 3]), Htonl(mem[p + 4]), Htonl(mem[p + 5]),
           Htonl(mem[p + 6]), Htonl(mem[p + 7]), Htonl(mem[p + 8]), Htonl(mem[p + 9]), Htonl(mem[p + 10]),
           Htonl(mem[p + 11]), Htonl(mem[p + 12]), Htonl(mem[p + 13]), Htonl(mem[p + 14]), Htonl(mem[p + 15]))
  }

  /** The conversion loop of process_TbT_dma, the word pointer advancing through the capture. */
  method ProcessTbt(mem: seq<nat>, msg: array<TbtMsg>, nsamples: nat)
    requires 16 * nsamples <= |mem| && nsamples <= msg.Length
    modifies msg
    ensures forall i :: 0 <= i < nsamples ==> msg[i] == TbtMsgAt(mem, 16 * i)
    ensures forall i :: nsamples <= i < msg.Length ==> msg[i] == old(msg[i])
  {
    hide TbtMsgAt;
    var i, p := 0, 0;
    while i < nsamples
      invariant 0 <= i <= nsamples && p == 16 * i
      invariant forall k :: 0 <= k < i ==> msg[k] == TbtMsgAt(mem, 16 * k)
      invariant forall k :: i <= k < msg.Length ==> msg[k] == old(msg[k])
    {
      msg[i] := TbtMsgAt(mem, p);
      i, p := i + 1, p + 16;
    }
  }

  /** The record a writer sends for turn i: header, count, data words. */
  function Record(i: nat, words: seq<nat>): (w: seq<nat>)
    ensures |w| == 2 + |words|
  {
    [0x8000_0000, i % WORD] + words
  }

  /** Places 2 j and 2 j + 1 of record i lie where beat j of turn i was stored. */
  lemma RecordInMemory(beats: nat, len: nat, turns: seq<seq<nat>>, i: nat, j: nat)
    requires T.Shaped(beats, turns) && i < |turns| && j < beats && AllWords(turns[i])
    ensures 0 <= beats * i + j < |T.Image(beats, len, turns)|
    ensures var m, p, r := TurnMemory(T.Image(beats, len, turns)), beats * i + j, Record(i, turns[i]);
      m[2 * p] == r[2 * j] && m[2 * p + 1] == r[2 * j + 1]
  {
    T.ImageAt(beats, len, turns, i, j);
    var r := Record(i, turns[i]);
    assert IsWord(r[2 * j]) && IsWord(r[2 * j + 1]);
    Unpack(r[2 * j], r[2 * j + 1]);
    var m, p := TurnMemory(T.Image(beats, len, turns)), beats * i + j;
    assert (2 * p) / 2 == p && (2 * p) % 2 == 0;
    assert (2 * p + 1) / 2 == p && (2 * p + 1) % 2 == 1;
  }

  /** The capture memory after a burst over the given turns. */
  function Capture(len: nat, turns: seq<seq<nat>>): (m: seq<nat>)
    requires T.Shaped(T.TBT_BEATS, turns)
    ensures |m| == 16 * |turns|
  {
    TurnMemory(T.Image(T.TBT_BEATS, len, turns))
  }

  lemma Unpack(hi: nat, lo: nat)
    requires IsWord(hi) && IsWord(lo)
    ensures MemWord(T.Pack(hi, lo), false) == hi && MemWord(T.Pack(hi, lo), true) == lo
  {}

  lemma CaptureWord(len: nat, turns: seq<seq<nat>>, i: nat, q: nat)
    requires T.Shaped(T.TBT_BEATS, turns) && i < |turns| && q < 16 && AllWords(turns[i])
    ensures Capture(len, turns)[16 * i + q] == Record(i, turns[i])[q]
  {
    RecordInMemory(T.TBT_BEATS, len, turns, i, q / 2);
    assert q == 2 * (q / 2) || q == 2 * (q / 2) + 1;
  }

  lemma FirstMemberAt(mem: seq<nat>, p: nat, q: nat)
    requires p + 16 <= |mem| && q < 8
    ensures FirstMembers(TbtMsgAt(mem, p))[q] == Htonl(mem[p + q])
  {
    assert q == 0 || q == 1 || q == 2 || q == 3 || q == 4 || q == 5 || q == 6 || q == 7;
  }

  lemma LastMemberAt(mem: seq<nat>, p: nat, q: nat)
    requires p + 16 <= |mem| && q < 8
    ensures LastMembers(TbtMsgAt(mem, p))[q] == Htonl(mem[p + 8 + q])
  {
    assert q == 0 || q == 1 || q == 2 || q == 3 || q == 4 || q == 5 || q == 6 || q == 7;
  }

  lemma MemberAt(mem: seq<nat>, p: nat, q: nat)
    requires p + 16 <= |mem| && q < 16
    ensures Members(TbtMsgAt(mem, p))[q] == Htonl(mem[p + q])
  {
    hide TbtMsgAt, Htonl, FirstMembers, LastMembers;
    if q < 8 {
      FirstMemberAt(mem, p, q);
    } else {
      LastMemberAt(mem, p, q - 8);
    }
  }

  /** Message i, as its bytes lie in the message body, is the record of the given data words
      in network order. */
  predicate Delivered(mem: seq<nat>, i: nat, words: seq<nat>) {
    && |words| == 14 && 16 * i + 16 <= |mem|
    && forall q :: 0 <= q < 16 ==> WordDelivered(mem, i, words, q)
  }

  predicate WordDelivered(mem: seq<nat>, i: nat, words: seq<nat>, q: nat)
    requires |words| == 14 && 16 * i + 16 <= |mem| && q < 16
  {
    Stored(Members(TbtMsgAt(mem, 16 * i))[q]) == Network(Record(i, words)[q])
  }

  lemma WordRoundTrip(len: nat, turns: seq<seq<nat>>, i: nat, q: nat)
    requires T.Shaped(T.TBT_BEATS, turns) && i < |turns| && AllWords(turns[i]) && q < 16
    ensures WordDelivered(Capture(len, turns), i, turns[i], q)
  {
    hide TbtMsgAt, Htonl, Capture, Members, Record, Network, Stored;
    MemberAt(Capture(len, turns), 16 * i, q);
    CaptureWord(len, turns, i, q);
    HtonlStores(Record(i, turns[i])[q]);
  }

  lemma RecordRoundTrip(len: nat, turns: seq<seq<nat>>, i: nat)
    requires T.Shaped(T.TBT_BEATS, turns) && i < |turns| && AllWords(turns[i])
    ensures Delivered(Capture(len, turns), i, turns[i])
  {
    hide Capture, WordDelivered;
    forall q | 0 <= q < 16
      ensures WordDelivered(Capture(len, turns), i, turns[i], q)
    {
      WordRoundTrip(len, turns, i, q);
    }
  }

  /** Layout round trip for turns, over a whole capture: after a burst of length len under any
      trigger timing, every one of the len messages is the record of the turn taken i-th. */
  lemma TbtRoundTrip(idle: T.Regs, first: T.In, ins: nat -> T.In, n: nat, i: nat)
    requires T.Triggers(idle, T.TBT_BEATS, first) && i < first.len
    requires T.Running(ins, T.TBT_BEATS, n) && T.Unfinished(T.Next(idle, T.TBT_BEATS, first), T.TBT_BEATS, ins, n)
    requires T.At(T.Next(idle, T.TBT_BEATS, first), T.TBT_BEATS, ins, n).ctl.st.Idle?
    ensures var s := T.Next(idle, T.TBT_BEATS, first);
      var turns := T.Turns(s, T.TBT_BEATS, ins, n);
      && |turns| == first.len
      && (AllWords(turns[i]) ==> Delivered(TurnMemory(T.Sent(s, T.TBT_BEATS, ins, n)), i, turns[i]))
  {
    hide Delivered, T.Inv, T.Next;
    T.Burst(idle, T.TBT_BEATS, first, ins, n);
    var turns := T.Turns(T.Next(idle, T.TBT_BEATS, first), T.TBT_BEATS, ins, n);
    if AllWords(turns[i]) {
      RecordRoundTrip(first.len, turns, i);
    }
  }

  /** The members of a message carry the quantities they are named after. */
  lemma TbtNames(mem: seq<nat>, p: nat, i: nat, t: Turn)
    requires p + 16 <= |mem| && mem[p..p + 16] == Record(i, TurnWords(t))
    ensures var m := TbtMsgAt(mem, p);
      && m.hdr == Htonl(0x8000_0000) && m.cnt == Htonl(i % WORD)
      && m.aMag == Htonl(t.aMag) && m.aPhs == Htonl(t.aPhs) && m.bMag == Htonl(t.bMag) && m.bPhs == Htonl(t.bPhs)
      && m.cMag == Htonl(t.cMag) && m.cPhs == Htonl(t.cPhs) && m.dMag == Htonl(t.dMag) && m.dPhs == Htonl(t.dPhs)
      && m.xposRaw == Htonl(t.xpos) && m.yposRaw == Htonl(t.ypos) && m.rsvd == Htonl(0) && m.sum == Htonl(t.sum)
      && m.xposNm == Htonl(t.xposNm) && m.yposNm == Htonl(t.yposNm)
  {
    hide Htonl;
    var w := mem[p..p + 16];
    assert mem[p] == w[0] && mem[p + 1] == w[1] && mem[p + 2] == w[2] && mem[p + 3] == w[3];
    assert mem[p + 4] == w[4] && mem[p + 5] == w[5] && mem[p + 6] == w[6] && mem[p + 7] == w[7];
    assert mem[p + 8] == w[8] && mem[p + 9] == w[9] && mem[p + 10] == w[10] && mem[p + 11] == w[11];
    assert mem[p + 12] == w[12] && mem[p + 13] == w[13] && mem[p + 14] == w[14] && mem[p + 15] == w[15];
  }

  // ------------------------------------------------------------ fast samples

  /** One fast sample, as 32-bit words. */
  datatype Fast = Fast(aMag: nat, bMag: nat, cMag: nat, dMag: nat, sum: nat, xpos: nat, ypos: nat)

  /** The data words fa2dma.vhd puts on beats 1 to 4: the sum in front of an empty word. */
  function FastWords(f: Fast): (w: seq<nat>)
    ensures |w| == 8
  {
    [f.aMag, f.bMag, f.cMag, f.dMag, f.sum, 0, f.xpos, f.ypos]
  }

  datatype FaMsg = FaMsg(hdr: nat, cnt: nat, aMag: nat, bMag: nat, cMag: nat, dMag: nat,
                         sum: nat, rsvd: nat, xposNm: nat, yposNm: nat)

  /** The struct as it lies in memory. */
  function FaMembers(m: FaMsg): (w: seq<nat>)
    ensures |w| == 10
  {
    [m.hdr, m.cnt, m.aMag, m.bMag, m.cMag, m.dMag, m.sum, m.rsvd, m.xposNm, m.yposNm]
  }

  /** The message made of the ten words from place p on: the seventh word goes to rsvd and the
      eighth to sum, the other way round than these members lie in the struct. */
  function FaMsgAt(mem: seq<nat>, p: nat): FaMsg
    requires p + 10 <= |mem|
  {
    FaMsg(Htonl(mem[p]), Htonl(mem[p + 1]), Htonl(mem[p + 2]), Htonl(mem[p + 3]), Htonl(mem[p + 4]),
          Htonl(mem[p + 5]), Htonl(mem[p + 7]), Htonl(mem[p + 6]), Htonl(mem[p + 8]), Htonl(mem[p + 9]))
  }

  /** The conversion loop of process_FA_dma. */
  method ProcessFa(mem: seq<nat>, msg: array<FaMsg>, nsamples: nat)
    requires 10 * nsamples <= |mem| && nsamples <= msg.Length
    modifies msg
    ensures forall i :: 0 <= i < nsamples ==> msg[i] == FaMsgAt(mem, 10 * i)
    ensures forall i :: nsamples <= i < msg.Length ==> msg[i] == old(msg[i])
  {
    hide FaMsgAt;
    var i, p := 0, 0;
    while i < nsamples
      invariant 0 <= i <= nsamples && p == 10 * i
      invariant forall k :: 0 <= k < i ==> msg[k] == FaMsgAt(mem, 10 * k)
      invariant forall k :: i <= k < msg.Length ==> msg[k] == old(msg[k])
    {
      msg[i] := FaMsgAt(mem, p);
      i, p := i + 1, p + 10;
    }
  }

  /** Which word of the record lies at place q of the message. */
  function FaPlace(q: nat): nat {
    if q == 6 then 7 else if q == 7 then 6 else q
  }

  lemma FaMemberAt(mem: seq<nat>, p: nat, q: nat)
    requires p + 10 <= |mem| && q < 10
    ensures FaMembers(FaMsgAt(mem, p))[q] == Htonl(mem[p + FaPlace(q)])
  {
    hide Htonl;
    assert q == 0 || q == 1 || q == 2 || q == 3 || q == 4 || q == 5 || q == 6 || q == 7 || q == 8 || q == 9;
  }

  /** The capture memory after a burst over the given samples. */
  function FaCapture(len: nat, turns: seq<seq<nat>>): (m: seq<nat>)
    requires T.Shaped(T.FA_BEATS, turns)
    ensures |m| == 10 * |turns|
  {
    TurnMemory(T.Image(T.FA_BEATS, len, turns))
  }

  lemma FaCaptureWord(len: nat, turns: seq<seq<nat>>, i: nat, q: nat)
    requires T.Shaped(T.FA_BEATS, turns) && i < |turns| && q < 10 && AllWords(turns[i])
    ensures FaCapture(len, turns)[10 * i + q] == Record(i, turns[i])[q]
  {
    RecordInMemory(T.FA_BEATS, len, turns, i, q / 2);
    assert q == 2 * (q / 2) || q == 2 * (q / 2) + 1;
  }

  /** Message i, as its bytes lie in the message body, is the record of the given data words in
      network order, but for two words that have changed places. */
  predicate FaDelivered(mem: seq<nat>, i: nat, words: seq<nat>) {
    && |words| == 8 && 10 * i + 10 <= |mem|
    && forall q :: 0 <= q < 10 ==> FaWordDelivered(mem, i, words, q)
  }

  predicate FaWordDelivered(mem: seq<nat>, i: nat, words: seq<nat>, q: nat)
    requires |words| == 8 && 10 * i + 10 <= |mem| && q < 10
  {
    Stored(FaMembers(FaMsgAt(mem, 10 * i))[q]) == Network(Record(i, words)[FaPlace(q)])
  }

  lemma FaWordRoundTrip(len: nat, turns: seq<seq<nat>>, i: nat, q: nat)
    requires T.Shaped(T.FA_BEATS, turns) && i < |turns| && AllWords(turns[i]) && q < 10
    ensures FaWordDelivered(FaCapture(len, turns), i, turns[i], q)
  {
    hide FaMsgAt, Htonl, FaCapture, FaMembers, Record, Network, Stored;
    FaMemberAt(FaCapture(len, turns), 10 * i, q);
    FaCaptureWord(len, turns, i, FaPlace(q));
    HtonlStores(Record(i, turns[i])[FaPlace(q)]);
  }

  lemma FaRecordRoundTrip(len: nat, turns: seq<seq<nat>>, i: nat)
    requires T.Shaped(T.FA_BEATS, turns) && i < |turns| && AllWords(turns[i])
    ensures FaDelivered(FaCapture(len, turns), i, turns[i])
  {
    hide FaCapture, FaWordDelivered;
    forall q | 0 <= q < 10
      ensures FaWordDelivered(FaCapture(len, turns), i, turns[i], q)
    {
      FaWordRoundTrip(len, turns, i, q);
    }
  }

  /** Layout round trip for fast samples, over a whole capture: every one of the len messages is,
      byte by byte, the record of the sample taken i-th with its words 6 and 7 exchanged. */
  lemma FaRoundTrip(idle: T.Regs, first: T.In, ins: nat -> T.In, n: nat, i: nat)
    requires T.Triggers(idle, T.FA_BEATS, first) && i < first.len
    requires T.Running(ins, T.FA_BEATS, n) && T.Unfinished(T.Next(idle, T.FA_BEATS, first), T.FA_BEATS, ins, n)
    requires T.At(T.Next(idle, T.FA_BEATS, first), T.FA_BEATS, ins, n).ctl.st.Idle?
    ensures var s := T.Next(idle, T.FA_BEATS, first);
      var turns := T.Turns(s, T.FA_BEATS, ins, n);
      && |turns| == first.len
      && (AllWords(turns[i]) ==> FaDelivered(TurnMemory(T.Sent(s, T.FA_BEATS, ins, n)), i, turns[i]))
  {
    hide FaDelivered, T.Inv, T.Next;
    T.Burst(idle, T.FA_BEATS, first, ins, n);
    var turns := T.Turns(T.Next(idle, T.FA_BEATS, first), T.FA_BEATS, ins, n);
    if AllWords(turns[i]) {
      FaRecordRoundTrip(first.len, turns, i);
    }
  }

  lemma HtonlZero(v: nat)
    requires IsWord(v)
    ensures Htonl(v) == Htonl(0) <==> v == 0
  {
    HtonlStores(v);
    HtonlStores(0);
    assert Network(v)[0] == Byte(v, 3) && Network(v)[1] == Byte(v, 2);
    assert Network(v)[2] == Byte(v, 1) && Network(v)[3] == Byte(v, 0);
  }

  /** All members of a fast message carry what they are named after but two: the sum lies in
      rsvd, and sum is always zero. So the published sum is right exactly when it is 0. */
  lemma FaNames(mem: seq<nat>, p: nat, i: nat, f: Fast)
    requires p + 10 <= |mem| && mem[p..p + 10] == Record(i, FastWords(f)) && IsWord(f.sum)
    ensures var m := FaMsgAt(mem, p);
      && m.hdr == Htonl(0x8000_0000) && m.cnt == Htonl(i % WORD)
      && m.aMag == Htonl(f.aMag) && m.bMag == Htonl(f.bMag) && m.cMag == Htonl(f.cMag) && m.dMag == Htonl(f.dMag)
      && m.xposNm == Htonl(f.xpos) && m.yposNm == Htonl(f.ypos)
      && m.rsvd == Htonl(f.sum) && m.sum == Htonl(0)
      && (m.sum == Htonl(f.sum) <==> f.sum == 0)
  {
    hide Htonl;
    var w := mem[p..p + 10];
    assert mem[p] == w[0] && mem[p + 1] == w[1] && mem[p + 2] == w[2] && mem[p + 3] == w[3] && mem[p + 4] == w[4];
    assert mem[p + 5] == w[5] && mem[p + 6] == w[6] && mem[p + 7] == w[7] && mem[p + 8] == w[8] && mem[p + 9] == w[9];
    HtonlZero(f.sum);
  }

  // ------------------------------------------------------- converter samples

  datatype AdcMsg = AdcMsg(a: nat, b: nat, c: nat, d: nat)

  function AdcMemory(beats: seq<A.Beat>): (m: seq<nat>)
    ensures |m| == 2 * |beats|
  {
    seq(2 * |beats|, (k: nat) requires k < 2 * |beats| => MemWord(beats[k / 2].tdata, k % 2 == 1))
  }

  function AdcMsgAt(mem: seq<nat>, p: nat): AdcMsg
    requires p + 2 <= |mem|
  {
    AdcMsg(Htons(mem[p] / HALFWORD % HALFWORD), Htons(mem[p] % HALFWORD),
           Htons(mem[p + 1] / HALFWORD % HALFWORD), Htons(mem[p + 1] % HALFWORD))
  }

  /** The conversion loop of process_ADC_dma. */
  method ProcessAdc(mem: seq<nat>, msg: array<AdcMsg>, nsamples: nat)
    requires 2 * nsamples <= |mem| && nsamples <= msg.Length
    modifies msg
    ensures forall i :: 0 <= i < nsamples ==> msg[i] == AdcMsgAt(mem, 2 * i)
    ensures forall i :: nsamples <= i < msg.Length ==> msg[i] == old(msg[i])
  {
    var i, p := 0, 0;
    while i < nsamples
      invariant 0 <= i <= nsamples && p == 2 * i
      invariant forall k :: 0 <= k < i ==> msg[k] == AdcMsgAt(mem, 2 * k)
      invariant forall k :: i <= k < msg.Length ==> msg[k] == old(msg[k])
    {
      var regval := mem[p];
      var cha, chb := regval / HALFWORD % HALFWORD, regval % HALFWORD;
      regval := mem[p + 1];
      var chc, chd := regval / HALFWORD % HALFWORD, regval % HALFWORD;
      msg[i] := AdcMsg(Htons(cha), Htons(chb), Htons(chc), Htons(chd));
      i, p := i + 1, p + 2;
    }
  }

  lemma UnpackSample(s: A.Sample)
    requires A.Words16(s)
    ensures MemWord(A.Pack(s), false) == s.a * HALFWORD + s.b && MemWord(A.Pack(s), true) == s.c * HALFWORD + s.d
  {}

  /** Message i, as its bytes lie in the message body, is the sample in network order. */
  predicate AdcDelivered(mem: seq<nat>, i: nat, s: A.Sample) {
    && 2 * i + 2 <= |mem|
    && var m := AdcMsgAt(mem, 2 * i);
      && StoredHalf(m.a) == NetworkHalf(s.a) && StoredHalf(m.b) == NetworkHalf(s.b)
      && StoredHalf(m.c) == NetworkHalf(s.c) && StoredHalf(m.d) == NetworkHalf(s.d)
  }

  lemma SampleDelivered(beats: seq<A.Beat>, i: nat, s: A.Sample)
    requires i < |beats| && beats[i].tdata == A.Pack(s) && A.Words16(s)
    ensures AdcDelivered(AdcMemory(beats), i, s)
  {
    hide Htons, A.Pack, StoredHalf, NetworkHalf;
    UnpackSample(s);
    assert (2 * i) / 2 == i && (2 * i + 1) / 2 == i && (2 * i) % 2 == 0 && (2 * i + 1) % 2 == 1;
    Halves(s.a, s.b);
    Halves(s.c, s.d);
    HtonsStores(s.a);
    HtonsStores(s.b);
    HtonsStores(s.c);
    HtonsStores(s.d);
  }

  /** Layout round trip for converter samples, over a whole capture: after a burst of the ADC
      writer message i is, byte by byte, the four channels sampled i clocks into it. */
  lemma AdcRoundTrip(idle: A.Regs, trig: A.In, ins: nat -> A.In, i: nat)
    requires !idle.ctl.active && trig.trig && !trig.reset && 1 <= trig.len < WORD
    requires forall k :: 0 <= k <= trig.len ==> !ins(k).reset
    requires i <= trig.len && A.Words16(ins(i).adc)
    ensures var beats := A.Sent(A.Next(idle, trig), ins, trig.len + 1);
      |beats| == trig.len + 1 && AdcDelivered(AdcMemory(beats), i, ins(i).adc)
  {
    hide AdcDelivered, A.Sent, A.At, A.Next;
    A.Burst(idle, trig, ins);
    SampleDelivered(A.Sent(A.Next(idle, trig), ins, trig.len + 1), i, ins(i).adc);
  }

  lemma Halves(hi: nat, lo: nat)
    requires hi < HALFWORD && lo < HALFWORD
    ensures (hi * HALFWORD + lo) / HALFWORD % HALFWORD == hi && (hi * HALFWORD + lo) % HALFWORD == lo
  {}
}
