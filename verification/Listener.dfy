/** The client table and the broadcasts of listener.c. Each operation runs under the one
    mutex, so a run is a sequence of operations. */
module Listener {
  import opened P = PscMsg

  const MAX_CLIENTS: nat := 4

  // ------------------------------------------------------------ abstract runs

  /** A table slot: free, or held by a connection; up turns false when a send has failed. */
  datatype Slot = Free | Live(fd: int, up: bool)

  /** A frame written to a connection: the n-th broadcast, or one meant for it alone. */
  datatype Entry = Cast(n: nat, msg: Msg) | Single(msg: Msg)

  /** What has been written to a connection: whole frames, then possibly the beginning of one
      whose sending failed. since is the number of broadcasts before it connected. */
  datatype Wire = Wire(bytes: seq<Byte>, log: seq<Entry>, torn: bool, since: nat)

  datatype State = State(slots: seq<Slot>, wires: map<int, Wire>, casts: seq<Msg>)

  /** An operation, with the number of frame bytes each client's socket accepted. */
  datatype Op =
    | Accept(fd: int)
    | Leave(idx: nat)
    | Broadcast(msg: Msg, outcome: seq<nat>)
    | SendOne(idx: nat, msg: Msg, sent: nat)

  predicate Shaped(s: State) {
    && |s.slots| == MAX_CLIENTS
    && (forall i :: 0 <= i < MAX_CLIENTS && s.slots[i].Live? ==> s.slots[i].fd in s.wires)
    && (forall i, j :: 0 <= i < j < MAX_CLIENTS && s.slots[i].Live? && s.slots[j].Live? ==>
          s.slots[i].fd != s.slots[j].fd)
  }

  predicate Legal(s: State, op: Op) {
    match op
    case Accept(fd) => fd !in s.wires
    case Leave(idx) => idx < MAX_CLIENTS && |s.slots| == MAX_CLIENTS && s.slots[idx].Live?
    case Broadcast(msg, outcome) =>
      Sendable(msg) && |outcome| == MAX_CLIENTS && forall i :: 0 <= i < MAX_CLIENTS ==> outcome[i] <= |Frame(msg)|
    case SendOne(idx, msg, sent) =>
      idx < MAX_CLIENTS && |s.slots| == MAX_CLIENTS && s.slots[idx].Live? && Sendable(msg) && sent <= |Frame(msg)|
  }

  /** The lowest free slot, MAX_CLIENTS when there is none. */
  function FirstFree(slots: seq<Slot>, from: nat): (i: nat)
    requires from <= |slots|
    ensures from <= i <= |slots|
    ensures i < |slots| ==> slots[i].Free?
    ensures forall k :: from <= k < i ==> slots[k].Live?
    decreases |slots| - from
  {
    if from == |slots| || slots[from].Free? then from else FirstFree(slots, from + 1)
  }

  function Written(w: Wire, e: Entry, sent: nat): Wire
    requires Sendable(e.msg) && sent <= |Frame(e.msg)|
  {
    var whole := sent == |Frame(e.msg)|;
    Wire(w.bytes + Frame(e.msg)[..sent], if whole then w.log + [e] else w.log, !whole, w.since)
  }

  /** A frame is written to the client in slot i, if its socket is still up. */
  function WriteTo(s: State, i: nat, e: Entry, sent: nat): (t: State)
    requires Shaped(s) && i < MAX_CLIENTS && Sendable(e.msg) && sent <= |Frame(e.msg)|
    ensures Shaped(t) && t.casts == s.casts
  {
    if s.slots[i].Live? && s.slots[i].up then
      var fd := s.slots[i].fd;
      State(s.slots[i := Live(fd, sent == |Frame(e.msg)|)], s.wires[fd := Written(s.wires[fd], e, sent)], s.casts)
    else s
  }

  /** A broadcast writes to the slots in order. */
  function WriteAll(s: State, upto: nat, e: Entry, outcome: seq<nat>): (t: State)
    requires Shaped(s) && upto <= MAX_CLIENTS == |outcome| && Sendable(e.msg)
    requires forall i :: 0 <= i < MAX_CLIENTS ==> outcome[i] <= |Frame(e.msg)|
    ensures Shaped(t) && t.casts == s.casts
  {
    if upto == 0 then s else WriteTo(WriteAll(s, upto - 1, e, outcome), upto - 1, e, outcome[upto - 1])
  }

  function Apply(s: State, op: Op): (t: State)
    requires Shaped(s) && Legal(s, op)
    ensures Shaped(t)
  {
    match op
    case Accept(fd) =>
      var i := FirstFree(s.slots, 0);
      if i == MAX_CLIENTS then s
      else State(s.slots[i := Live(fd, true)], s.wires[fd := Wire([], [], false, |s.casts|)], s.casts)
    case Leave(idx) => s.(slots := s.slots[idx := Free])
    case Broadcast(msg, outcome) =>
      WriteAll(s.(casts := s.casts + [msg]), MAX_CLIENTS, Cast(|s.casts|, msg), outcome)
    case SendOne(idx, msg, sent) => WriteTo(s, idx, Single(msg), sent)
  }

  // ------------------------------------------------------------ the invariant

  function Messages(log: seq<Entry>): (ms: seq<Msg>)
    ensures |ms| == |log|
  {
    seq(|log|, k requires 0 <= k < |log| => log[k].msg)
  }

  function Stream(log: seq<Entry>): seq<Byte>
    requires forall k :: 0 <= k < |log| ==> Sendable(log[k].msg)
  {
    if log == [] then [] else Stream(log[..|log| - 1]) + Frame(log[|log| - 1].msg)
  }

  /** The broadcasts among the frames, in order. */
  function Casts(log: seq<Entry>): seq<nat> {
    if log == [] then []
    else Casts(log[..|log| - 1]) + (if log[|log| - 1].Cast? then [log[|log| - 1].n] else [])
  }

  /** s is from, from + 1, ... */
  predicate Consecutive(s: seq<nat>, from: nat) {
    forall k :: 0 <= k < |s| ==> s[k] == from + k
  }

  /** A proper beginning of some frame. */
  ghost predicate Partial(b: seq<Byte>) {
    exists m :: Sendable(m) && |b| < |Frame(m)| && b == Frame(m)[..|b|]
  }

  /** Whole frames, and after a failure at most one proper beginning of a frame. */
  ghost predicate WholeFrames(w: Wire) {
    && (forall k :: 0 <= k < |w.log| ==> Sendable(w.log[k].msg))
    && |Stream(w.log)| <= |w.bytes| && w.bytes[..|Stream(w.log)|] == Stream(w.log)
    && (if w.torn then Partial(w.bytes[|Stream(w.log)|..]) else w.bytes == Stream(w.log))
  }

  /** Every broadcast entry is the broadcast of that number, and no broadcast since the
      connection is missing between them. */
  predicate InOrder(w: Wire, casts: seq<Msg>) {
    && w.since + |Casts(w.log)| <= |casts|
    && Consecutive(Casts(w.log), w.since)
    && forall k :: 0 <= k < |w.log| && w.log[k].Cast? ==> w.log[k].n < |casts| && w.log[k].msg == casts[w.log[k].n]
  }

  ghost predicate WireInv(w: Wire, casts: seq<Msg>) {
    WholeFrames(w) && InOrder(w, casts)
  }

  /** A client that is up has missed none of the first n broadcasts since it connected. */
  predicate UpToDate(w: Wire, n: nat) {
    !w.torn && w.since + |Casts(w.log)| == n
  }

  /** The table while a broadcast is under way: the slots below upto have it already. */
  ghost predicate MidInv(s: State, upto: nat) {
    && Shaped(s) && upto <= MAX_CLIENTS
    && (upto < MAX_CLIENTS ==> |s.casts| > 0)
    && (forall fd :: fd in s.wires ==> WireInv(s.wires[fd], s.casts))
    && (forall i :: 0 <= i < MAX_CLIENTS && s.slots[i].Live? && s.slots[i].up ==>
          UpToDate(s.wires[s.slots[i].fd], if i < upto then |s.casts| else |s.casts| - 1))
    && (forall i :: 0 <= i < MAX_CLIENTS && s.slots[i].Live? ==> (s.slots[i].up <==> !s.wires[s.slots[i].fd].torn))
  }

  ghost predicate Inv(s: State) {
    MidInv(s, MAX_CLIENTS)
  }

  lemma WrittenWhole(w: Wire, e: Entry, sent: nat)
    requires WholeFrames(w) && !w.torn && Sendable(e.msg) && sent <= |Frame(e.msg)|
    ensures WholeFrames(Written(w, e, sent))
  {
    var t, f := Written(w, e, sent), Frame(e.msg);
    if sent == |f| {
      assert t.log[..|t.log| - 1] == w.log;
      assert f[..sent] == f;
    } else {
      assert t.bytes[|Stream(w.log)|..] == f[..sent];
      assert Partial(f[..sent]) by {
        assert |f[..sent]| < |f| && f[..sent] == f[..|f[..sent]|];
      }
    }
  }

  lemma WrittenInOrder(w: Wire, e: Entry, sent: nat, casts: seq<Msg>)
    requires InOrder(w, casts) && Sendable(e.msg) && sent <= |Frame(e.msg)|
    requires e.Cast? ==> e.n == w.since + |Casts(w.log)| < |casts| && e.msg == casts[e.n]
    ensures InOrder(Written(w, e, sent), casts)
    ensures sent == |Frame(e.msg)| ==>
      |Casts(Written(w, e, sent).log)| == |Casts(w.log)| + (if e.Cast? then 1 else 0)
  {
    var t := Written(w, e, sent);
    if sent == |Frame(e.msg)| {
      assert t.log[..|t.log| - 1] == w.log;
    }
  }

  /** More broadcasts do not disturb what is in order already. */
  lemma MoreCasts(w: Wire, casts: seq<Msg>, m: Msg)
    requires WireInv(w, casts)
    ensures WireInv(w, casts + [m])
  {}

  /** What one write does to the wire it goes to. */
  lemma WrittenKeeps(w: Wire, e: Entry, sent: nat, casts: seq<Msg>)
    requires WireInv(w, casts) && !w.torn && Sendable(e.msg) && sent <= |Frame(e.msg)|
    requires e.Cast? ==> e.n == w.since + |Casts(w.log)| < |casts| && e.msg == casts[e.n]
    ensures WireInv(Written(w, e, sent), casts) && (Written(w, e, sent).torn <==> sent != |Frame(e.msg)|)
    ensures sent == |Frame(e.msg)| ==>
      UpToDate(Written(w, e, sent), w.since + |Casts(w.log)| + (if e.Cast? then 1 else 0))
  {
    hide WholeFrames, InOrder, Casts, Frame;
    WrittenWhole(w, e, sent);
    WrittenInOrder(w, e, sent, casts);
  }

  lemma WriteToKeeps(s: State, i: nat, e: Entry, sent: nat, upto: nat)
    requires MidInv(s, upto) && i < MAX_CLIENTS && Sendable(e.msg) && sent <= |Frame(e.msg)|
    requires match e
             case Cast(n, msg) => i == upto && n == |s.casts| - 1 && msg == s.casts[n]
             case Single(msg) => upto == MAX_CLIENTS
    ensures MidInv(WriteTo(s, i, e, sent), if e.Cast? then upto + 1 else upto)
  {
    hide WireInv, Written, Frame, Casts;
    if s.slots[i].Live? && s.slots[i].up {
      WrittenKeeps(s.wires[s.slots[i].fd], e, sent, s.casts);
    }
  }

  lemma {:induction false} WriteAllKeeps(s: State, upto: nat, msg: Msg, outcome: seq<nat>)
    requires MidInv(s, 0) && upto <= MAX_CLIENTS == |outcome| && Sendable(msg)
    requires forall i :: 0 <= i < MAX_CLIENTS ==> outcome[i] <= |Frame(msg)|
    requires msg == s.casts[|s.casts| - 1]
    ensures MidInv(WriteAll(s, upto, Cast(|s.casts| - 1, msg), outcome), upto)
  {
    if upto > 0 {
      WriteAllKeeps(s, upto - 1, msg, outcome);
      var e := Cast(|s.casts| - 1, msg);
      WriteToKeeps(WriteAll(s, upto - 1, e, outcome), upto - 1, e, outcome[upto - 1], upto - 1);
    }
  }

  lemma ApplyKeeps(s: State, op: Op)
    requires Inv(s) && Legal(s, op)
    ensures Inv(Apply(s, op))
  {
    match op {
      case Accept(fd) =>
        assert Stream([]) == [] && Casts([]) == [];
        assert WireInv(Wire([], [], false, |s.casts|), s.casts);
      case Leave(idx) =>
      case Broadcast(msg, outcome) =>
        var m := s.(casts := s.casts + [msg]);
        forall fd | fd in s.wires
          ensures WireInv(s.wires[fd], m.casts)
        {
          MoreCasts(s.wires[fd], s.casts, msg);
        }
        WriteAllKeeps(m, MAX_CLIENTS, msg, outcome);
      case SendOne(idx, msg, sent) =>
        WriteToKeeps(s, idx, Single(msg), sent, MAX_CLIENTS);
    }
  }

  // ------------------------------------------------------------ whole runs

  function Init(): State {
    State(seq(MAX_CLIENTS, _ => Free), map[], [])
  }

  predicate LegalRun(s: State, ops: seq<Op>)
    requires Shaped(s)
    decreases |ops|
  {
    ops == [] || (Legal(s, ops[0]) && LegalRun(Apply(s, ops[0]), ops[1..]))
  }

  function Run(s: State, ops: seq<Op>): (t: State)
    requires Shaped(s) && LegalRun(s, ops)
    ensures Shaped(t)
    decreases |ops|
  {
    if ops == [] then s else Run(Apply(s, ops[0]), ops[1..])
  }

  lemma {:induction false} RunKeeps(s: State, ops: seq<Op>)
    requires Inv(s) && LegalRun(s, ops)
    ensures Inv(Run(s, ops))
    decreases |ops|
  {
    if ops != [] {
      ApplyKeeps(s, ops[0]);
      RunKeeps(Apply(s, ops[0]), ops[1..]);
    }
  }

  /** Broadcast safety, over every run from an empty table: each connection has received whole
      frames, then at most one proper beginning of a frame after a failure. Its broadcast
      frames are consecutive from the first one after it connected. A connection in the table is
      down if and only if it is torn, that is, if a send to it has failed; otherwise its
      broadcasts reach up to the latest one. So clients without errors over the same time got
      the same broadcasts in the same order. */
  lemma BroadcastSafety(ops: seq<Op>, fd: int)
    requires LegalRun(Init(), ops) && fd in Run(Init(), ops).wires
    ensures var s := Run(Init(), ops);
      && WholeFrames(s.wires[fd]) && InOrder(s.wires[fd], s.casts)
      && (forall i :: 0 <= i < MAX_CLIENTS && s.slots[i].Live? && s.slots[i].fd == fd ==>
            && (s.slots[i].up <==> !s.wires[fd].torn)
            && (!s.wires[fd].torn ==> s.wires[fd].since + |Casts(s.wires[fd].log)| == |s.casts|))
      && (s.wires[fd].torn ==> forall i :: 0 <= i < MAX_CLIENTS ==> s.slots[i] != Live(fd, true))
  {
    RunKeeps(Init(), ops);
  }

  /** A write whose bytes are all accepted adds the whole frame and leaves the client up. */
  lemma WholeWriteKeepsUp(s: State, i: nat, e: Entry)
    requires Shaped(s) && i < MAX_CLIENTS && Sendable(e.msg) && s.slots[i].Live? && s.slots[i].up
    ensures var t, fd := WriteTo(s, i, e, |Frame(e.msg)|), s.slots[i].fd;
      && t.slots == s.slots && t.wires[fd].log == s.wires[fd].log + [e] && !t.wires[fd].torn
      && t.wires[fd].bytes == s.wires[fd].bytes + Frame(e.msg)
  {
    assert s.slots[i := s.slots[i]] == s.slots;
    assert Frame(e.msg)[..|Frame(e.msg)|] == Frame(e.msg);
  }

  /** The slot an operation is about; a broadcast is about all. */
  predicate About(s: State, op: Op, i: nat)
    requires Shaped(s) && Legal(s, op)
  {
    match op
    case Accept(fd) => i == FirstFree(s.slots, 0)
    case Leave(idx) => i == idx
    case Broadcast(msg, outcome) => true
    case SendOne(idx, msg, sent) => i == idx
  }

  /** What an operation leaves alone: the slots it is not about, the wires of connections that
      are in no such slot, and in a broadcast everything but the wires of clients that are up;
      no operation takes a byte back, moves a client, or puts one back up. */
  lemma OthersKept(s: State, op: Op, i: nat, fd: int)
    requires Inv(s) && Legal(s, op) && i < MAX_CLIENTS
    ensures var t := Apply(s, op);
      && (!About(s, op, i) ==> t.slots[i] == s.slots[i])
      && (op.Broadcast? || op.SendOne? ==> SameClient(s.slots[i], t.slots[i]))
      && (fd in s.wires ==> fd in t.wires && s.wires[fd].bytes <= t.wires[fd].bytes)
      && (fd in s.wires && !Reaches(s, op, fd) ==> t.wires[fd] == s.wires[fd])
      && t.casts == s.casts + (if op.Broadcast? then [op.msg] else [])
  {
    match op {
      case Broadcast(msg, outcome) =>
        var m := s.(casts := s.casts + [msg]);
        AllOthers(m, MAX_CLIENTS, Cast(|s.casts|, msg), outcome, i, fd);
      case _ =>
    }
  }

  predicate SameClient(a: Slot, b: Slot) {
    if a.Free? then b.Free? else b.Live? && b.fd == a.fd && (b.up ==> a.up)
  }

  /** The operation may write to the connection. */
  predicate Reaches(s: State, op: Op, fd: int)
    requires Shaped(s) && Legal(s, op)
  {
    match op
    case Accept(f) => false
    case Leave(idx) => false
    case Broadcast(msg, outcome) => exists i :: 0 <= i < MAX_CLIENTS && s.slots[i] == Live(fd, true)
    case SendOne(idx, msg, sent) => s.slots[idx] == Live(fd, true)
  }

  lemma {:induction false} AllOthers(s: State, upto: nat, e: Entry, outcome: seq<nat>, i: nat, fd: int)
    requires Shaped(s) && upto <= MAX_CLIENTS == |outcome| && Sendable(e.msg) && i < MAX_CLIENTS
    requires forall i :: 0 <= i < MAX_CLIENTS ==> outcome[i] <= |Frame(e.msg)|
    ensures var t := WriteAll(s, upto, e, outcome);
      && SameClient(s.slots[i], t.slots[i])
      && (fd in s.wires ==> fd in t.wires && s.wires[fd].bytes <= t.wires[fd].bytes)
      && (fd in s.wires && (forall j :: 0 <= j < MAX_CLIENTS ==> s.slots[j] != Live(fd, true)) ==>
            t.wires[fd] == s.wires[fd] && forall j :: 0 <= j < MAX_CLIENTS ==> t.slots[j] != Live(fd, true))
  {
    if upto > 0 {
      AllOthers(s, upto - 1, e, outcome, i, fd);
    }
  }

  /** Once a connection is torn nothing is ever written to it again. */
  lemma TornStays(s: State, op: Op, fd: int)
    requires Inv(s) && Legal(s, op) && fd in s.wires && s.wires[fd].torn
    ensures fd in Apply(s, op).wires && Apply(s, op).wires[fd] == s.wires[fd]
  {
    match op {
      case Broadcast(msg, outcome) =>
        UntouchedByAll(s.(casts := s.casts + [msg]), MAX_CLIENTS, Cast(|s.casts|, msg), outcome, fd);
      case _ =>
    }
  }

  lemma {:induction false} UntouchedByAll(s: State, upto: nat, e: Entry, outcome: seq<nat>, fd: int)
    requires Shaped(s) && upto <= MAX_CLIENTS == |outcome| && Sendable(e.msg)
    requires forall i :: 0 <= i < MAX_CLIENTS ==> outcome[i] <= |Frame(e.msg)|
    requires fd in s.wires && forall i :: 0 <= i < MAX_CLIENTS ==> s.slots[i] != Live(fd, true)
    ensures var t := WriteAll(s, upto, e, outcome);
      && fd in t.wires && t.wires[fd] == s.wires[fd]
      && forall i :: 0 <= i < MAX_CLIENTS ==> t.slots[i] != Live(fd, true)
  {
    if upto > 0 {
      UntouchedByAll(s, upto - 1, e, outcome, fd);
    }
  }

  // ------------------------------------------------------------ what the client reads

  lemma {:induction false} EncodeSnoc(ms: seq<Msg>, m: Msg)
    requires Sendable(m) && forall k :: 0 <= k < |ms| ==> Sendable(ms[k])
    ensures EncodeAll(ms + [m]) == EncodeAll(ms) + Frame(m)
  {
    if ms == [] {
      assert EncodeAll([m]) == Frame(m) + EncodeAll([m][1..]);
    } else {
      EncodeSnoc(ms[1..], m);
      assert (ms + [m])[1..] == ms[1..] + [m];
      assert EncodeAll(ms + [m]) == Frame(ms[0]) + (EncodeAll(ms[1..]) + Frame(m));
    }
  }

  lemma {:induction false} StreamIsEncoding(log: seq<Entry>)
    requires forall k :: 0 <= k < |log| ==> Sendable(log[k].msg)
    ensures Stream(log) == EncodeAll(Messages(log))
  {
    if log != [] {
      var front, last := log[..|log| - 1], log[|log| - 1].msg;
      StreamIsEncoding(front);
      EncodeSnoc(Messages(front), last);
      assert Messages(log) == Messages(front) + [last];
    }
  }

  /** The far end decodes exactly the frames that went out whole, in order, each cut to its
      buffer, torn connection or not. */
  lemma ClientReads(w: Wire, cap: nat)
    requires WholeFrames(w)
    ensures ParseAll(w.bytes, cap) == CutAll(Messages(w.log), cap)
  {
    StreamIsEncoding(w.log);
    var ms, tail := Messages(w.log), w.bytes[|Stream(w.log)|..];
    assert w.bytes == EncodeAll(ms) + tail;
    if w.torn {
      var m :| Sendable(m) && |tail| < |Frame(m)| && tail == Frame(m)[..|tail|];
      TornStreamReads(ms, m, |tail|, cap);
    } else {
      StreamReads(ms, [], cap);
    }
  }

  // ------------------------------------------------------------ the server object

  /** 1 shifted left by the slot number. */
  function Mask(i: nat): bv32 {
    if i == 0 then 1 else if i == 1 then 2 else if i == 2 then 4 else 8
  }

  /** The masks are the powers of two the source shifts out. */
  lemma MaskShifts(i: nat)
    requires i < MAX_CLIENTS
    ensures Mask(i) == (1 as bv32) << i
  {}

  predicate Has(m: bv32, b: bv32) {
    m & b != 0
  }

  function With(m: bv32, b: bv32): bv32 {
    m | b
  }

  function Without(m: bv32, b: bv32): bv32 {
    m & !b
  }

  predicate OneBit(b: bv32) {
    b == 1 || b == 2 || b == 4 || b == 8
  }

  lemma HasBit(m: bv32, a: bv32, b: bv32)
    requires OneBit(a) && OneBit(b)
    ensures Has(With(m, a), b) <==> a == b || Has(m, b)
    ensures Has(Without(m, a), b) <==> a != b && Has(m, b)
  {}

  predicate Bit(m: bv32, i: nat) {
    Has(m, Mask(i))
  }

  lemma Masks(i: nat, j: nat)
    requires i < MAX_CLIENTS && j < MAX_CLIENTS
    ensures OneBit(Mask(i)) && OneBit(Mask(j))
    ensures Mask(i) == Mask(j) <==> i == j
  {}

  lemma MaskBits(m: bv32, i: nat, j: nat)
    requires i < MAX_CLIENTS && j < MAX_CLIENTS
    ensures Bit(With(m, Mask(i)), j) <==> i == j || Bit(m, j)
    ensures Bit(Without(m, Mask(i)), j) <==> i != j && Bit(m, j)
  {
    hide Mask, OneBit, Has, With, Without;
    Masks(i, j);
    HasBit(m, Mask(i), Mask(j));
  }

  lemma {:induction false} OutcomesAgree(s: State, upto: nat, e: Entry, a: seq<nat>, b: seq<nat>)
    requires Shaped(s) && upto <= MAX_CLIENTS == |a| == |b| && Sendable(e.msg) && a[..upto] == b[..upto]
    requires forall i :: 0 <= i < MAX_CLIENTS ==> a[i] <= |Frame(e.msg)| && b[i] <= |Frame(e.msg)|
    ensures WriteAll(s, upto, e, a) == WriteAll(s, upto, e, b)
  {
    if upto > 0 {
      assert a[upto - 1] == a[..upto][upto - 1] == b[..upto][upto - 1] == b[upto - 1];
      assert a[..upto - 1] == a[..upto][..upto - 1] == b[..upto][..upto - 1] == b[..upto - 1];
      OutcomesAgree(s, upto - 1, e, a, b);
    }
  }

  /** The server: the bit mask of used slots, the socket of each slot (-1 after a send error)
      and the network. hist is the abstract run so far. */
  class Server {
    const net: Net
    var used: bv32
    var socks: seq<int>
    ghost var hist: State

    /** The bit mask is exactly the set of live slots, and the sockets have accepted exactly
        the bytes of the abstract wires. */
    ghost predicate Represents(s: State)
      reads this, net
    {
      && Shaped(s) && |socks| == MAX_CLIENTS
      && (forall i :: 0 <= i < MAX_CLIENTS ==> (Bit(used, i) <==> s.slots[i].Live?))
      && (forall i :: 0 <= i < MAX_CLIENTS && s.slots[i].Live? ==>
            s.slots[i].fd >= 0 && socks[i] == if s.slots[i].up then s.slots[i].fd else -1)
      && (forall fd :: fd in s.wires ==> net.Open(fd) && net.outbox[fd] == s.wires[fd].bytes)
    }

    ghost predicate Valid()
      reads this, net
    {
      Represents(hist) && Inv(hist)
    }

    constructor (net: Net)
      ensures Valid() && this.net == net && hist == Init()
    {
      this.net := net;
      used := 0;
      socks := [-1, -1, -1, -1];
      hist := Init();
    }

    /** The abstract run takes the step the fields have taken. */
    ghost method Record(op: Op)
      requires Inv(hist) && Legal(hist, op) && Represents(Apply(hist, op))
      modifies this`hist
      ensures Valid() && hist == Apply(old(hist), op)
    {
      hide Apply;
      ApplyKeeps(hist, op);
      hist := Apply(hist, op);
    }

    /** A new connection takes the lowest free slot, if there is one. */
    method Accept(fd: int) returns (idx: int)
      requires Valid() && fd >= 0 && fd !in hist.wires && net.Open(fd) && net.outbox[fd] == []
      modifies this
      ensures Valid() && hist == Apply(old(hist), Op.Accept(fd))
      ensures idx == -1 <==> forall i :: 0 <= i < MAX_CLIENTS ==> old(hist).slots[i].Live?
      ensures idx != -1 ==> 0 <= idx < MAX_CLIENTS && hist.slots[idx] == Live(fd, true)
    {
      hide Bit, With, Mask, WireInv, UpToDate;
      ghost var op := Op.Accept(fd);
      ApplyKeeps(hist, op);
      var i := 0;
      while i < MAX_CLIENTS
        invariant i <= MAX_CLIENTS && FirstFree(hist.slots, 0) == FirstFree(hist.slots, i)
        invariant forall k :: 0 <= k < i ==> hist.slots[k].Live?
      {
        if !Bit(used, i) {
          forall j | 0 <= j < MAX_CLIENTS
            ensures Bit(With(used, Mask(i)), j) <==> i == j || Bit(used, j)
          {
            MaskBits(used, i, j);
          }
          used := With(used, Mask(i));
          socks := socks[i := fd];
          hist := Apply(hist, op);
          return i;
        }
        i := i + 1;
      }
      hist := Apply(hist, op);
      return -1;
    }

    /** A client thread ends: its slot is freed. */
    method Leave(idx: nat)
      requires Valid() && idx < MAX_CLIENTS && hist.slots[idx].Live?
      modifies this
      ensures Valid() && hist == Apply(old(hist), Op.Leave(idx))
    {
      hide Bit, Without, Mask, Inv;
      ApplyKeeps(hist, Op.Leave(idx));
      forall j | 0 <= j < MAX_CLIENTS
        ensures Bit(Without(used, Mask(idx)), j) <==> idx != j && Bit(used, j)
      {
        MaskBits(used, idx, j);
      }
      used := Without(used, Mask(idx));
      hist := Apply(hist, Op.Leave(idx));
    }

    /** The frame goes to the client in slot idx unless that has failed before; a failed send
        marks the slot. */
    method WriteSlot(idx: nat, id: nat, buf: array<Byte>, len: nat, ghost s: State, ghost e: Entry)
      returns (ghost sent: nat)
      requires idx < MAX_CLIENTS && Represents(s) && s.slots[idx].Live?
      requires id < HALFWORD && len < WORD && len <= buf.Length && e.msg == Msg(id, buf[..len])
      modifies this`socks, net
      ensures sent <= |Frame(e.msg)| && Represents(WriteTo(s, idx, e, sent))
    {
      hide Bit, Frame;
      sent := 0;
      if socks[idx] != -1 {
        var st;
        st, sent := SendMsg(net, socks[idx], id, buf, len);
        if !st.Ok? {
          socks := socks[idx := -1];
        }
      }
    }

    /** The body of the broadcast loop: free slots are passed over. */
    method CastSlot(idx: nat, id: nat, buf: array<Byte>, len: nat, ghost s: State, ghost e: Entry)
      returns (ghost sent: nat)
      requires idx < MAX_CLIENTS && Represents(s)
      requires id < HALFWORD && len < WORD && len <= buf.Length && e.msg == Msg(id, buf[..len])
      modifies this`socks, net
      ensures sent <= |Frame(e.msg)| && Represents(WriteTo(s, idx, e, sent))
    {
      sent := 0;
      if Bit(used, idx) {
        sent := WriteSlot(idx, id, buf, len, s, e);
      }
    }

    /** Before the first slot nothing has been written. */
    lemma Starts(mid: State, e: Entry, outcome: seq<nat>)
      requires Valid() && mid.slots == hist.slots && mid.wires == hist.wires
      requires |outcome| == MAX_CLIENTS && Sendable(e.msg)
      requires forall i :: 0 <= i < MAX_CLIENTS ==> outcome[i] <= |Frame(e.msg)|
      ensures Represents(WriteAll(mid, 0, e, outcome))
    {}

    /** psc_send: the message goes to every client whose socket is up. */
    method Broadcast(id: nat, buf: array<Byte>, len: nat) returns (ghost outcome: seq<nat>)
      requires Valid() && id < HALFWORD && len < WORD && len <= buf.Length
      modifies this, net
      ensures Legal(old(hist), Op.Broadcast(Msg(id, buf[..len]), outcome))
      ensures Valid() && hist == Apply(old(hist), Op.Broadcast(Msg(id, buf[..len]), outcome))
    {
      hide Bit, Inv, WriteTo, Frame, Represents;
      ghost var msg := Msg(id, buf[..len]);
      ghost var e := Cast(|hist.casts|, msg);
      ghost var mid := hist.(casts := hist.casts + [msg]);
      outcome := [0, 0, 0, 0];
      Starts(mid, e, outcome);
      var idx := 0;
      while idx < MAX_CLIENTS
        invariant idx <= MAX_CLIENTS == |outcome| && hist == old(hist)
        invariant forall i :: 0 <= i < MAX_CLIENTS ==> outcome[i] <= |Frame(msg)|
        invariant Represents(WriteAll(mid, idx, e, outcome))
      {
        ghost var sent := CastSlot(idx, id, buf, len, WriteAll(mid, idx, e, outcome), e);
        OutcomesAgree(mid, idx, e, outcome, outcome[idx := sent]);
        outcome, idx := outcome[idx := sent], idx + 1;
      }
      Record(Op.Broadcast(msg, outcome));
    }

    /** psc_send_one: the message goes to one client. */
    method SendOne(idx: nat, id: nat, buf: array<Byte>, len: nat) returns (ghost sent: nat)
      requires Valid() && id < HALFWORD && len < WORD && len <= buf.Length
      requires idx < MAX_CLIENTS && hist.slots[idx].Live?
      modifies this, net
      ensures Legal(old(hist), Op.SendOne(idx, Msg(id, buf[..len]), sent))
      ensures Valid() && hist == Apply(old(hist), Op.SendOne(idx, Msg(id, buf[..len]), sent))
    {
      ghost var msg := Msg(id, buf[..len]);
      sent := WriteSlot(idx, id, buf, len, hist, Single(msg));
      Record(Op.SendOne(idx, msg, sent));
    }
  }
}
