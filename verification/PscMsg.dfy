/** PSC message framing over a byte stream, after pscmsg.c. */
module PscMsg {
  import opened RecvResults

  type Byte = b: nat | b < 256
  const WORD: int := 0x1_0000_0000
  const HALFWORD: int := 0x1_0000
  const HEADLEN: nat := 8

  datatype Msg = Msg(id: nat, body: seq<Byte>)

  predicate Sendable(m: Msg) {
    m.id < HALFWORD && |m.body| < WORD
  }

  function Big16(v: nat): (b: seq<Byte>)
    requires v < HALFWORD
    ensures |b| == 2
  {
    [v / 256, v % 256]
  }

  function Big32(v: nat): (b: seq<Byte>)
    requires v < WORD
    ensures |b| == 4
  {
    Big16(v / HALFWORD) + Big16(v % HALFWORD)
  }

  function Read16(b: seq<Byte>): (v: nat)
    requires |b| == 2
    ensures v < HALFWORD
  {
    var hi: nat, lo: nat := b[0], b[1];
    hi * 256 + lo
  }

  function Read32(b: seq<Byte>): (v: nat)
    requires |b| == 4
    ensures v < WORD
  {
    Read16(b[..2]) * HALFWORD + Read16(b[2..])
  }

  lemma ReadBack(v: nat)
    requires v < WORD
    ensures Read32(Big32(v)) == v
    ensures v < HALFWORD ==> Read16(Big16(v)) == v
  {
    assert Big32(v)[..2] == Big16(v / HALFWORD);
    assert Big32(v)[2..] == Big16(v % HALFWORD);
  }

  /** The 8-byte header: 'P', 'S', id and length, both in network order. */
  function Header(id: nat, len: nat): (h: seq<Byte>)
    requires id < HALFWORD && len < WORD
    ensures |h| == HEADLEN
  {
    [80, 83] + Big16(id) + Big32(len)
  }

  function Frame(m: Msg): (f: seq<Byte>)
    requires Sendable(m)
    ensures |f| == HEADLEN + |m.body|
  {
    Header(m.id, |m.body|) + m.body
  }

  /** What a reader makes of the start of a stream with a body buffer of cap bytes. */
  datatype Parsed = Got(msg: Msg, rest: seq<Byte>) | Malformed | Short

  function HeadOk(s: seq<Byte>): bool
    requires |s| >= HEADLEN
  {
    s[0] == 80 && s[1] == 83
  }

  function HeadId(s: seq<Byte>): (v: nat)
    requires |s| >= HEADLEN
    ensures v < HALFWORD
  {
    Read16(s[2..4])
  }

  function HeadLen(s: seq<Byte>): (v: nat)
    requires |s| >= HEADLEN
    ensures v < WORD
  {
    Read32(s[4..8])
  }

  function Parse(s: seq<Byte>, cap: nat): (p: Parsed)
    ensures p.Got? ==> |p.rest| + HEADLEN <= |s|
  {
    if |s| < HEADLEN then Short
    else if !HeadOk(s) then Malformed
    else if |s| < HEADLEN + HeadLen(s) then Short
    else Got(Msg(HeadId(s), s[HEADLEN..HEADLEN + Min(HeadLen(s), cap)]), s[HEADLEN + HeadLen(s)..])
  }

  function ParseAll(s: seq<Byte>, cap: nat): seq<Msg>
    decreases |s|
  {
    var p := Parse(s, cap);
    if p.Got? then [p.msg] + ParseAll(p.rest, cap) else []
  }

  function EncodeAll(ms: seq<Msg>): seq<Byte>
    requires forall k :: 0 <= k < |ms| ==> Sendable(ms[k])
  {
    if ms == [] then [] else Frame(ms[0]) + EncodeAll(ms[1..])
  }

  function Cut(m: Msg, cap: nat): Msg {
    Msg(m.id, m.body[..Min(|m.body|, cap)])
  }

  function CutAll(ms: seq<Msg>, cap: nat): seq<Msg> {
    if ms == [] then [] else [Cut(ms[0], cap)] + CutAll(ms[1..], cap)
  }

  lemma HeaderReads(h: seq<Byte>, id: nat, len: nat)
    requires id < HALFWORD && len < WORD && |h| >= HEADLEN && h[..HEADLEN] == Header(id, len)
    ensures HeadOk(h) && HeadId(h) == id && HeadLen(h) == len
  {
    var g := h[..HEADLEN];
    assert h[0] == g[0] && h[1] == g[1];
    assert h[2..4] == g[2..4] == Big16(id);
    assert h[4..8] == g[4..8] == Big32(len);
    ReadBack(id);
    ReadBack(len);
  }

  /** A frame is read back with its body cut to the buffer, and leaves the reader at the
      start of what follows. */
  lemma FrameReads(m: Msg, rest: seq<Byte>, cap: nat)
    requires Sendable(m)
    ensures Parse(Frame(m) + rest, cap) == Got(Cut(m, cap), rest)
  {
    var s := Frame(m) + rest;
    assert s[..HEADLEN] == Header(m.id, |m.body|);
    HeaderReads(s, m.id, |m.body|);
    var n := Min(|m.body|, cap);
    assert s[HEADLEN..HEADLEN + n] == m.body[..n];
    assert s[HEADLEN + |m.body|..] == rest;
  }

  /** A frame cut short before its end is not read at all. */
  lemma TornFrameUnread(m: Msg, n: nat, cap: nat)
    requires Sendable(m) && n < |Frame(m)|
    ensures !Parse(Frame(m)[..n], cap).Got?
  {
    var s := Frame(m)[..n];
    if n >= HEADLEN {
      assert s[..HEADLEN] == Header(m.id, |m.body|);
      HeaderReads(s, m.id, |m.body|);
    }
  }

  lemma WriteBack(b: seq<Byte>)
    ensures |b| == 2 ==> Big16(Read16(b)) == b
    ensures |b| == 4 ==> Big32(Read32(b)) == b
  {
    if |b| == 4 {
      assert b == b[..2] + b[2..];
      assert Read32(b) / HALFWORD == Read16(b[..2]) && Read32(b) % HALFWORD == Read16(b[2..]);
      WriteBack(b[..2]);
      WriteBack(b[2..]);
    }
  }

  /** The frame format: 'P', 'S', the id and the body length with the highest byte first, the
      body. */
  lemma FrameFormat(m: Msg)
    requires Sendable(m)
    ensures var f: seq<nat> := Frame(m);
      && f[0] as char == 'P' && f[1] as char == 'S' && f[2] * 256 + f[3] == m.id
      && f[4] * 0x100_0000 + f[5] * 0x1_0000 + f[6] * 256 + f[7] == |m.body| && f[HEADLEN..] == m.body
  {
    var v := |m.body|;
    assert Big32(v) == [v / HALFWORD / 256, v / HALFWORD % 256, v % HALFWORD / 256, v % HALFWORD % 256];
  }

  /** Exactly the frames are read as messages: a stream yields a message if and only if it begins
      with the frame of one, which is then cut to the buffer. */
  lemma ParseExact(s: seq<Byte>, cap: nat, got: Msg, rest: seq<Byte>)
    ensures Parse(s, cap) == Got(got, rest)
       <==> exists m: Msg :: Sendable(m) && got == Cut(m, cap) && s == Frame(m) + rest
  {
    if Parse(s, cap) == Got(got, rest) {
      var m := Msg(HeadId(s), s[HEADLEN..HEADLEN + HeadLen(s)]);
      WriteBack(s[2..4]);
      WriteBack(s[4..8]);
      assert s[..HEADLEN] == [80, 83] + s[2..4] + s[4..8] == Header(m.id, |m.body|);
      assert s == s[..HEADLEN] + m.body + rest == Frame(m) + rest;
      assert m.body[..Min(|m.body|, cap)] == got.body;
      assert got == Cut(m, cap);
    }
    if m: Msg :| Sendable(m) && got == Cut(m, cap) && s == Frame(m) + rest {
      FrameReads(m, rest, cap);
    }
  }

  /** The framing round trip: a stream of frames, followed by anything that is not itself a
      complete message, is read as the same messages in the same order. */
  lemma {:induction false} StreamReads(ms: seq<Msg>, tail: seq<Byte>, cap: nat)
    requires forall k :: 0 <= k < |ms| ==> Sendable(ms[k])
    requires !Parse(tail, cap).Got?
    ensures ParseAll(EncodeAll(ms) + tail, cap) == CutAll(ms, cap)
  {
    if ms == [] {
      assert EncodeAll(ms) + tail == tail;
    } else {
      var rest := EncodeAll(ms[1..]) + tail;
      assert EncodeAll(ms) + tail == Frame(ms[0]) + rest;
      FrameReads(ms[0], rest, cap);
      StreamReads(ms[1..], tail, cap);
    }
  }

  /** In particular a sender that fails in the middle of a frame loses only that frame. */
  lemma TornStreamReads(ms: seq<Msg>, m: Msg, n: nat, cap: nat)
    requires forall k :: 0 <= k < |ms| ==> Sendable(ms[k])
    requires Sendable(m) && n < |Frame(m)|
    ensures ParseAll(EncodeAll(ms) + Frame(m)[..n], cap) == CutAll(ms, cap)
  {
    TornFrameUnread(m, n, cap);
    StreamReads(ms, Frame(m)[..n], cap);
  }

  // ------------------------------------------------------------- sockets

  /** The sockets: what each has accepted for sending, what it will still deliver, and which
      ones have failed; log lists the results of all receive calls. Errors are sticky, except
      that with timeouts a receive call may also fail and leave the socket as it was. On a
      faultless network a call fails only on a failed socket or when nothing is left in the
      stream. */
  class Net {
    const faultless: bool
    const timeouts: bool
    var outbox: map<int, seq<Byte>>
    var inbox: map<int, seq<Byte>>
    var dead: set<int>
    ghost var log: seq<int>

    predicate Open(fd: int)
      reads this
    {
      fd in outbox && fd in inbox
    }

    constructor (faultless: bool, timeouts: bool, inbox: map<int, seq<Byte>>)
      ensures this.faultless == faultless && this.timeouts == timeouts && this.inbox == inbox
      ensures dead == {} && log == []
      ensures outbox.Keys == inbox.Keys
      ensures forall fd :: fd in outbox ==> outbox[fd] == []
    {
      this.faultless, this.timeouts := faultless, timeouts;
      this.inbox := inbox;
      outbox := map fd | fd in inbox :: [];
      dead, log := {}, [];
    }

    /** send: moves a non-empty prefix of the data, or fails with a result <= 0. */
    method Send(fd: int, data: seq<Byte>) returns (ret: int)
      requires Open(fd) && data != []
      modifies this
      ensures inbox == old(inbox)
      ensures ret > 0 ==>
        && fd !in old(dead) && ret <= |data| && dead == old(dead)
        && outbox == old(outbox)[fd := old(outbox[fd]) + data[..ret]]
      ensures ret <= 0 ==> outbox == old(outbox) && dead == old(dead) + {fd}
      ensures faultless && fd !in old(dead) ==> ret > 0
    {
      var fails := *;
      if fd in dead || (fails && !faultless) {
        dead := dead + {fd};
        ret :| ret <= 0;
      } else {
        ret :| 1 <= ret <= |data|;
        outbox := outbox[fd := outbox[fd] + data[..ret]];
      }
    }

    /** recv: delivers a non-empty prefix of what is to come, at most max bytes, or fails. */
    method Recv(fd: int, max: nat) returns (ret: int, data: seq<Byte>)
      requires Open(fd) && max > 0
      modifies this
      ensures outbox == old(outbox) && log == old(log) + [ret]
      ensures ret > 0 ==>
        && fd !in old(dead) && ret <= max && ret <= |old(inbox[fd])| && dead == old(dead)
        && data == old(inbox[fd])[..ret]
        && inbox == old(inbox)[fd := old(inbox[fd])[ret..]]
      ensures ret <= 0 ==> inbox == old(inbox) && (dead == old(dead) + {fd} || (timeouts && dead == old(dead)))
      ensures faultless && fd !in old(dead) && old(inbox[fd]) != [] ==> ret > 0
    {
      var fails, late := *, *;
      data := [];
      if fd in dead || inbox[fd] == [] || (fails && !faultless) {
        if !(timeouts && late) {
          dead := dead + {fd};
        }
        ret :| ret <= 0;
      } else {
        ret :| 1 <= ret <= max && ret <= |inbox[fd]|;
        data := inbox[fd][..ret];
        inbox := inbox[fd := inbox[fd][ret..]];
      }
      log := log + [ret];
    }
  }

  /** Send exactly len bytes of the buffer or fail; sent says how many went out. */
  method SendAll(net: Net, fd: int, buf: array<Byte>, len: nat) returns (st: Status, ghost sent: nat)
    requires net.Open(fd) && len <= buf.Length
    modifies net
    ensures net.inbox == old(net.inbox)
    ensures sent <= len && (st.Ok? <==> sent == len)
    ensures net.outbox == old(net.outbox)[fd := old(net.outbox[fd]) + buf[..sent]]
    ensures net.dead == if st.Ok? then old(net.dead) else old(net.dead) + {fd}
    ensures net.faultless && fd !in old(net.dead) ==> st.Ok?
  {
    var off: nat, buflen: nat := 0, len;
    ghost var first := net.outbox[fd];
    assert first + buf[..0] == first;
    while buflen != 0
      invariant off + buflen == len && net.inbox == old(net.inbox) && net.dead == old(net.dead)
      invariant net.outbox == old(net.outbox)[fd := old(net.outbox[fd]) + buf[..off]]
    {
      var ret := net.Send(fd, buf[off..len]);
      if ret <= 0 {
        return (if ret < 0 then Errno else NotConn), off;
      }
      assert (first + buf[..off]) + buf[off..len][..ret] == first + buf[..off + ret];
      off, buflen := off + ret, buflen - ret;
    }
    return Ok, off;
  }

  /** Receive exactly len bytes into the buffer or fail; taken says how many came in, o lists the
      results of the calls it made. */
  method RecvAll(net: Net, fd: int, buf: array<Byte>, len: nat)
    returns (st: Status, ghost taken: nat, ghost o: seq<int>)
    requires net.Open(fd) && len <= buf.Length
    modifies net, buf
    ensures net.outbox == old(net.outbox) && net.Open(fd)
    ensures net.log == old(net.log) + o && AllOf(o, len) == All(Closed(st), taken, |o|)
    ensures taken <= |old(net.inbox[fd])| && buf[..taken] == old(net.inbox[fd])[..taken]
    ensures net.inbox == old(net.inbox)[fd := old(net.inbox[fd])[taken..]]
    ensures st.Ok? ==> net.dead == old(net.dead)
    ensures !st.Ok? ==> net.dead == old(net.dead) + {fd} || (net.timeouts && net.dead == old(net.dead))
    ensures taken > 0 ==> fd !in old(net.dead)
    ensures net.faultless && fd !in old(net.dead) ==> (st.Ok? <==> len <= |old(net.inbox[fd])|)
  {
    hide AllOf;
    var off: nat, buflen: nat := 0, len;
    o := [];
    NoCall(len);
    ghost var all := net.inbox[fd];
    while buflen != 0
      invariant off + buflen == len && off <= |all| && net.dead == old(net.dead)
      invariant net.outbox == old(net.outbox) && net.inbox == old(net.inbox)[fd := all[off..]]
      invariant buf[..off] == all[..off] && (off > 0 ==> fd !in old(net.dead))
      invariant net.log == old(net.log) + o
      invariant AllOf(o, len) == All(if buflen == 0 then Closed(Ok) else Open, off, |o|)
    {
      var ret, data := net.Recv(fd, buflen);
      AllOfOn(o, [ret], len);
      OneCall(ret, buflen);
      o := o + [ret];
      if ret <= 0 {
        return (if ret < 0 then Errno else NotConn), off, o;
      }
      TakeMore(buf, all, off, ret, data);
      off, buflen := off + ret, buflen - ret;
    }
    return Ok, off, o;
  }

  /** Store the bytes of one receive call behind those already there. */
  method TakeMore(buf: array<Byte>, ghost all: seq<Byte>, off: nat, ret: nat, data: seq<Byte>)
    requires off + ret <= buf.Length && off <= |all| && buf[..off] == all[..off]
    requires ret <= |all[off..]| && data == all[off..][..ret]
    modifies buf
    ensures buf[..off + ret] == all[..off + ret]
    ensures all[off..][ret..] == all[off + ret..]
  {
    forall k | 0 <= k < ret {
      buf[off + k] := data[k];
    }
    assert buf[..off] == old(buf[..off]);
    assert buf[..off + ret] == buf[..off] + data;
  }

  /** The loop of psc_recvskip: n whole chunks, with results o, and unless then no more than
      CHUNK bytes are left a chunk that failed, with results last and torn bytes taken. */
  method SkipChunks(net: Net, fd: int, len: nat, scratch: array<Byte>)
    returns (left: nat, ghost n: nat, ghost o: seq<int>, ghost torn: nat, ghost last: seq<int>)
    requires net.Open(fd) && scratch.Length >= CHUNK
    modifies net, scratch
    ensures net.outbox == old(net.outbox) && net.Open(fd) && net.log == old(net.log) + (o + last)
    ensures left == len - CHUNK * n && (n == 0 || CHUNK * n < len) && Chunked(o, n) && LastChunk(last, left, torn)
    ensures CHUNK * n + torn <= |old(net.inbox[fd])|
    ensures net.inbox == old(net.inbox)[fd := old(net.inbox[fd])[CHUNK * n + torn..]]
    ensures left <= CHUNK ==> net.dead == old(net.dead)
    ensures left > CHUNK ==> fd in net.dead || (net.timeouts && net.dead == old(net.dead))
    ensures left > CHUNK && net.faultless && fd !in old(net.dead) ==> |old(net.inbox[fd])| < len
  {
    hide AllOf, Chunked;
    left, n, o, torn, last := len, 0, [], 0, [];
    ghost var all := net.inbox[fd];
    NoChunks();
    while left > CHUNK
      invariant net.outbox == old(net.outbox) && net.Open(fd) && net.log == old(net.log) + o
      invariant left == len - CHUNK * n && (n == 0 || left > 0) && Chunked(o, n)
      invariant CHUNK * n <= |all| && net.inbox == old(net.inbox)[fd := all[CHUNK * n..]]
      invariant net.dead == old(net.dead) && torn == 0 && last == []
    {
      ghost var calls, taken;
      var st;
      st, taken, calls := RecvAll(net, fd, scratch, CHUNK);
      assert all[CHUNK * n..][taken..] == all[CHUNK * n + taken..];
      if !st.Ok? {
        torn, last := taken, calls;
        return;
      }
      ChunkedMore(o, n, calls);
      left, n, o := left - CHUNK, n + 1, o + calls;
    }
    assert o + last == o;
  }

  /** Receive and discard len bytes through a scratch buffer of CHUNK bytes. All it does is told
      by the results o of its calls: SkipLaw says what it consumes and writes. The scratch array
      stands for the buffer and for what lies behind it; written counts the bytes the last call
      writes from the start of the buffer on, so above CHUNK it has left the buffer. */
  method RecvSkip(net: Net, fd: int, len: nat)
    returns (st: Status, ghost taken: nat, ghost written: nat, ghost o: seq<int>)
    requires net.Open(fd)
    modifies net
    ensures net.outbox == old(net.outbox) && net.Open(fd)
    ensures net.log == old(net.log) + o && SkipOf(o, len) == Skip(Closed(st), taken, written, |o|)
    ensures taken <= |old(net.inbox[fd])|
    ensures net.inbox == old(net.inbox)[fd := old(net.inbox[fd])[taken..]]
    ensures st.Ok? ==> net.dead == old(net.dead)
    ensures st.Ok? ==> taken == len + TornBy(o, len) && (written > CHUNK <==> ChunkFails(o, len))
    ensures !net.timeouts || len <= CHUNK ==> written <= CHUNK && (st.Ok? ==> taken == len)
    ensures net.faultless && fd !in old(net.dead) ==> (st.Ok? <==> len <= |old(net.inbox[fd])|)
    ensures net.faultless && st.Ok? ==> taken == len
  {
    hide AllOf, SkipOf, Chunked, LastChunk, ChunkFails, TornBy;
    var scratch := new Byte[if len > CHUNK then len else CHUNK](_ => 0);
    ghost var all, before := net.inbox[fd], net.log;
    var left;
    ghost var n, first, torn, last, rest;
    left, n, first, torn, last := SkipChunks(net, fd, len, scratch);
    st, written, rest := RecvAll(net, fd, scratch, left);
    assert all[CHUNK * n + torn..][written..] == all[CHUNK * n + torn + written..];
    assert (before + (first + last)) + rest == before + (first + (last + rest));
    SkipEnds(last, torn, rest, left);
    SkipAfter(first, n, last + rest, len);
    taken, o := CHUNK * n + torn + written, first + (last + rest);
    SkipLaw(o, len);
    WholeSkip(last, left, torn);
  }

  lemma WholeSkip(last: seq<int>, len: nat, torn: nat)
    requires LastChunk(last, len, torn)
    ensures len <= CHUNK ==> torn == 0
  {}

  /** Write a header and a body. Whatever happens, a prefix of the frame has gone out, the
      whole of it exactly on success. */
  method SendMsg(net: Net, fd: int, id: nat, buf: array<Byte>, len: nat) returns (st: Status, ghost sent: nat)
    requires net.Open(fd) && id < HALFWORD && len < WORD && len <= buf.Length
    modifies net
    ensures net.inbox == old(net.inbox)
    ensures sent <= HEADLEN + len && (st.Ok? <==> sent == HEADLEN + len)
    ensures net.outbox == old(net.outbox)[fd := old(net.outbox[fd]) + Frame(Msg(id, buf[..len]))[..sent]]
    ensures net.dead == if st.Ok? then old(net.dead) else old(net.dead) + {fd}
    ensures net.faultless && fd !in old(net.dead) ==> st.Ok?
  {
    ghost var frame := Frame(Msg(id, buf[..len]));
    var head := Header(id, len);
    var hbuf := new Byte[HEADLEN](i requires 0 <= i < HEADLEN => head[i]);
    assert hbuf[..] == head;
    st, sent := SendAll(net, fd, hbuf, HEADLEN);
    assert hbuf[..sent] == frame[..sent];
    if !st.Ok? {
      return;
    }
    ghost var mid := net.outbox[fd];
    ghost var more;
    st, more := SendAll(net, fd, buf, len);
    assert frame[..HEADLEN + more] == head + buf[..more];
    assert mid + buf[..more] == old(net.outbox[fd]) + frame[..HEADLEN + more];
    sent := HEADLEN + more;
  }

  /** What a reader has in hand after one message whose surplus it has skipped, slip bytes
      too far: the message cut to the buffer, and the stream from there on. */
  predicate Took(s: seq<Byte>, cap: nat, m: Msg, slip: nat, rest: seq<Byte>) {
    var p := Parse(s, cap);
    p.Got? && p.msg == m && slip <= |p.rest| && rest == p.rest[slip..]
  }

  lemma GotIf(s: seq<Byte>, cap: nat)
    ensures Parse(s, cap).Got? <==> |s| >= HEADLEN && HeadOk(s) && |s| >= HEADLEN + HeadLen(s)
  {}

  /** The part of the message at the start of the stream that exceeds the buffer. */
  function Surplus(s: seq<Byte>, cap: nat): nat
    requires |s| >= HEADLEN
  {
    HeadLen(s) - Min(HeadLen(s), cap)
  }

  /** The body cut to the buffer has been read, then the rest of it skipped, slip bytes too far. */
  lemma TookAll(s: seq<Byte>, cap: nat, body: seq<Byte>, slip: nat)
    requires |s| >= HEADLEN && HeadOk(s) && HEADLEN + HeadLen(s) + slip <= |s|
    requires |body| == Min(HeadLen(s), cap) && body == s[HEADLEN..][..|body|]
    ensures Took(s, cap, Msg(HeadId(s), body), slip, s[HEADLEN..][|body|..][Surplus(s, cap) + slip..])
  {
    var len := HeadLen(s);
    assert s[HEADLEN..][..|body|] == s[HEADLEN..HEADLEN + |body|];
    assert s[HEADLEN..][|body|..][len - |body| + slip..] == s[HEADLEN + len..][slip..];
  }

  /** A message has been received: the reader stands behind it, or as many bytes further on as a
      failed chunk of the skip had taken, and the skip has left its scratch buffer exactly if
      a chunk of it failed. */
  predicate Received(s: seq<Byte>, cap: nat, m: Msg, o: seq<int>, written: nat, rest: seq<Byte>) {
    && |s| >= HEADLEN && Took(s, cap, m, TornBy(o, Surplus(s, cap)), rest)
    && (written > CHUNK <==> ChunkFails(o, Surplus(s, cap)))
  }

  /** More than CHUNK bytes of the message do not fit the buffer. */
  predicate FarTooLong(s: seq<Byte>, cap: nat) {
    |s| >= HEADLEN && HeadLen(s) > cap + CHUNK
  }

  /** How far a reader may slip behind the message at the start of the stream. */
  predicate MaySlip(s: seq<Byte>, cap: nat, slip: nat) {
    slip < CHUNK && (slip > 0 ==> FarTooLong(s, cap))
  }

  /** The results of the calls that skip are the last ones in the log. */
  predicate Logged(log: seq<int>, o: seq<int>) {
    |o| <= |log| && log[|log| - |o|..] == o
  }

  lemma NoSkip()
    ensures TornBy([], 0) == 0 && !ChunkFails([], 0)
  {}

  lemma TornAtMost(o: seq<int>, len: nat)
    ensures TornBy(o, len) < CHUNK && (TornBy(o, len) > 0 ==> len > CHUNK)
  {}

  /** Read one message into a body buffer, dropping what does not fit; o lists the results of the
      calls that skip. Success means the stream began with a complete message, now received.
      Only with timeouts, and only behind a message far too long, can the reader slip or the
      skip leave its scratch buffer. */
  method RecvMsg(net: Net, fd: int, buf: array<Byte>)
    returns (st: Status, id: nat, len: nat, ghost written: nat, ghost o: seq<int>)
    requires net.Open(fd)
    modifies net, buf
    ensures net.outbox == old(net.outbox) && net.Open(fd) && Logged(net.log, o)
    ensures st.Ok? ==>
      && len <= buf.Length && net.dead == old(net.dead)
      && Received(old(net.inbox[fd]), buf.Length, Msg(id, buf[..len]), o, written, net.inbox[fd])
      && (!net.timeouts || net.faultless || !FarTooLong(old(net.inbox[fd]), buf.Length) ==>
            TornBy(o, Surplus(old(net.inbox[fd]), buf.Length)) == 0)
    ensures written > CHUNK ==> net.timeouts && FarTooLong(old(net.inbox[fd]), buf.Length)
    ensures |net.inbox[fd]| <= |old(net.inbox[fd])|
    ensures net.faultless && fd !in old(net.dead) ==> (st.Ok? <==> Parse(old(net.inbox[fd]), buf.Length).Got?)
  {
    hide Parse, Took, HeadOk, HeadId, HeadLen, AllOf, SkipOf, TornBy, ChunkFails;
    ghost var all := net.inbox[fd];
    ghost var taken, calls;
    id, len, written, o := 0, 0, 0, [];
    GotIf(all, buf.Length);
    NoSkip();
    var head := new Byte[HEADLEN](_ => 0);
    st, taken, calls := RecvAll(net, fd, head, HEADLEN);
    if !st.Ok? {
      return;
    }
    var h := head[..];
    assert h[..HEADLEN] == h == all[..HEADLEN];
    SameHead(h, all);
    if !HeadOk(h) {
      st := Eio;
      return;
    }
    var mid, mlen := HeadId(h), HeadLen(h);
    var rlen := Min(mlen, buf.Length);
    st, taken, calls := RecvAll(net, fd, buf, rlen);
    if !st.Ok? {
      return;
    }
    if rlen < mlen {
      st, taken, written, o := RecvSkip(net, fd, mlen - rlen);
    }
    id, len := mid, rlen;
    if st.Ok? {
      TookAll(all, buf.Length, buf[..rlen], TornBy(o, mlen - rlen));
    }
  }

  lemma SameHead(h: seq<Byte>, s: seq<Byte>)
    requires |h| >= HEADLEN && |s| >= HEADLEN && h[..HEADLEN] == s[..HEADLEN]
    ensures HeadOk(h) == HeadOk(s) && HeadId(h) == HeadId(s) && HeadLen(h) == HeadLen(s)
  {
    assert h[0] == h[..HEADLEN][0] && s[0] == s[..HEADLEN][0];
    assert h[1] == h[..HEADLEN][1] && s[1] == s[..HEADLEN][1];
    assert h[2..4] == h[..HEADLEN][2..4] && s[2..4] == s[..HEADLEN][2..4];
    assert h[4..8] == h[..HEADLEN][4..8] && s[4..8] == s[..HEADLEN][4..8];
  }

  /** No message in the stream is far too long. */
  predicate NearFits(s: seq<Byte>, cap: nat)
    decreases |s|
  {
    var p := Parse(s, cap);
    p.Got? ==> !FarTooLong(s, cap) && NearFits(p.rest, cap)
  }

  /** The messages handed on are read one behind the other, except that behind a message far too
      long the reader may slip on by fewer than CHUNK bytes. */
  predicate Chain(s: seq<Byte>, cap: nat, ms: seq<Msg>, slips: seq<nat>)
    requires |ms| == |slips|
  {
    ms == []
    || (var p := Parse(s, cap);
        && p.Got? && p.msg == ms[0] && slips[0] <= |p.rest| && MaySlip(s, cap, slips[0])
        && Chain(p.rest[slips[0]..], cap, ms[1..], slips[1..]))
  }

  /** Where the reader stands after a chain. */
  function After(s: seq<Byte>, cap: nat, slips: seq<nat>): seq<Byte> {
    if slips == [] then s
    else
      var p := Parse(s, cap);
      if p.Got? && slips[0] <= |p.rest| then After(p.rest[slips[0]..], cap, slips[1..]) else s
  }

  lemma {:induction false} ChainOn(s: seq<Byte>, cap: nat, ms: seq<Msg>, slips: seq<nat>,
                                   m: Msg, slip: nat, rest: seq<Byte>)
    requires |ms| == |slips| && Chain(s, cap, ms, slips)
    requires Took(After(s, cap, slips), cap, m, slip, rest) && MaySlip(After(s, cap, slips), cap, slip)
    ensures Chain(s, cap, ms + [m], slips + [slip]) && After(s, cap, slips + [slip]) == rest
    decreases |ms|
  {
    hide Parse, MaySlip;
    if ms == [] {
      assert ms + [m] == [m] && slips + [slip] == [slip];
    } else {
      var p := Parse(s, cap);
      assert (ms + [m])[1..] == ms[1..] + [m] && (slips + [slip])[1..] == slips[1..] + [slip];
      ChainOn(p.rest[slips[0]..], cap, ms[1..], slips[1..], m, slip, rest);
    }
  }

  /** Up to its first slip a chain is what the stream holds, the message before the slip
      included. */
  lemma {:induction false} ChainReads(s: seq<Byte>, cap: nat, ms: seq<Msg>, slips: seq<nat>, n: nat)
    requires |ms| == |slips| && Chain(s, cap, ms, slips) && n <= |ms|
    requires forall k :: 0 <= k < n - 1 ==> slips[k] == 0
    ensures ms[..n] <= ParseAll(s, cap)
    decreases n
  {
    hide Parse, MaySlip;
    if n > 0 {
      var p := Parse(s, cap);
      if n > 1 {
        assert p.rest[0..] == p.rest;
        ChainReads(p.rest, cap, ms[1..], slips[1..], n - 1);
        assert ms[..n] == [ms[0]] + ms[1..][..n - 1];
      }
    }
  }

  lemma TookExactly(s: seq<Byte>, cap: nat, m: Msg, rest: seq<Byte>)
    requires Took(s, cap, m, 0, rest)
    ensures ParseAll(s, cap) == [m] + ParseAll(rest, cap)
    ensures NearFits(s, cap) ==> NearFits(rest, cap)
    ensures |rest| < |s|
  {
    hide Parse, FarTooLong;
    assert Parse(s, cap).rest[0..] == Parse(s, cap).rest;
  }

  lemma TookShortens(s: seq<Byte>, cap: nat, m: Msg, slip: nat, rest: seq<Byte>)
    requires Took(s, cap, m, slip, rest)
    ensures |rest| < |s| && (NearFits(s, cap) ==> !FarTooLong(s, cap))
  {}

  lemma NothingLeft(s: seq<Byte>, cap: nat)
    requires !Parse(s, cap).Got?
    ensures ParseAll(s, cap) == []
  {}

  lemma ChainStart(s: seq<Byte>, cap: nat)
    ensures Chain(s, cap, [], []) && After(s, cap, []) == s
  {}

  predicate NoSlips(slips: seq<nat>) {
    forall k :: 0 <= k < |slips| ==> slips[k] == 0
  }

  /** The receive loop of a client thread: messages are handed on until the first error.
      They form a chain in the stream, so a prefix of its messages unless timeouts meet messages
      far too long; on a faultless network it is all of them. */
  method ServeClient(net: Net, fd: int, cap: nat) returns (delivered: seq<Msg>, ghost slips: seq<nat>)
    requires net.Open(fd)
    modifies net
    ensures |delivered| == |slips| && Chain(old(net.inbox[fd]), cap, delivered, slips)
    ensures !net.timeouts || net.faultless || NearFits(old(net.inbox[fd]), cap) ==>
              NoSlips(slips) && delivered <= ParseAll(old(net.inbox[fd]), cap)
    ensures net.faultless && fd !in old(net.dead) ==> delivered == ParseAll(old(net.inbox[fd]), cap)
    ensures net.outbox == old(net.outbox)
  {
    hide Parse, ParseAll, Took, Chain, After, NearFits, FarTooLong, TornBy, ChunkFails, HeadLen;
    ghost var s := net.inbox[fd];
    ghost var target := ParseAll(s, cap);
    ghost var exact := !net.timeouts || net.faultless || NearFits(s, cap);
    var rxbuf := new Byte[cap](_ => 0);
    delivered, slips := [], [];
    ChainStart(s, cap);
    assert [] + target == target;
    while true
      invariant net.Open(fd) && net.outbox == old(net.outbox) && net.dead == old(net.dead)
      invariant |delivered| == |slips| && Chain(s, cap, delivered, slips) && After(s, cap, slips) == net.inbox[fd]
      invariant exact ==> NoSlips(slips) && delivered + ParseAll(net.inbox[fd], cap) == target
      invariant exact ==> !net.timeouts || net.faultless || NearFits(net.inbox[fd], cap)
      decreases |net.inbox[fd]|
    {
      ghost var here := net.inbox[fd];
      var st, id, len;
      ghost var written, o;
      st, id, len, written, o := RecvMsg(net, fd, rxbuf);
      if !st.Ok? {
        if !Parse(here, cap).Got? {
          NothingLeft(here, cap);
        }
        assert exact ==> delivered == target[..|delivered|];
        return;
      }
      ghost var m, slip := Msg(id, rxbuf[..len]), TornBy(o, Surplus(here, cap));
      TornAtMost(o, Surplus(here, cap));
      TookShortens(here, cap, m, slip, net.inbox[fd]);
      SurplusOf(here, cap);
      ChainOn(s, cap, delivered, slips, m, slip, net.inbox[fd]);
      if exact {
        TookExactly(here, cap, m, net.inbox[fd]);
        assert delivered + ([m] + ParseAll(net.inbox[fd], cap)) == (delivered + [m]) + ParseAll(net.inbox[fd], cap);
      }
      delivered, slips := delivered + [Msg(id, rxbuf[..len])], slips + [slip];
    }
  }

  lemma SurplusOf(s: seq<Byte>, cap: nat)
    requires |s| >= HEADLEN
    ensures Surplus(s, cap) > CHUNK <==> FarTooLong(s, cap)
  {}
}
