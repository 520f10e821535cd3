/** The receive loops of pscmsg.c as functions of the results of their recv calls. */
module RecvResults {

  function Min(a: nat, b: nat): nat {
    if a > b then b else a
  }

  datatype Status = Ok | Errno | NotConn | Eio

  /** Where a chain of receive calls stands: short of further results, or ended. */
  datatype End = Open | Closed(st: Status)

  /** A psc_recvall: how it ends, the bytes it takes, the results of recv it uses up. */
  datatype All = All(end: End, taken: nat, used: nat)

  /** psc_recvall of len bytes, told by the results of its recv calls in order. */
  function AllOf(o: seq<int>, len: nat): (c: All)
    ensures c.used <= |o| && c.taken <= len && (c.end == Closed(Ok) <==> c.taken == len)
    ensures c.end.Open? ==> c.used == |o|
    decreases len
  {
    if len == 0 then All(Closed(Ok), 0, 0)
    else if o == [] then All(Open, 0, 0)
    else if o[0] <= 0 then All(Closed(if o[0] < 0 then Errno else NotConn), 0, 1)
    else
      var m := Min(o[0], len);
      var r := AllOf(o[1..], len - m);
      All(r.end, m + r.taken, 1 + r.used)
  }

  /** Further results go on where the ones before left off; those behind the end are not used. */
  lemma {:induction false} AllOfOn(o: seq<int>, more: seq<int>, len: nat)
    ensures var c, d := AllOf(o, len), AllOf(o + more, len);
      if c.end.Open? then
        var r := AllOf(more, len - c.taken); d == All(r.end, c.taken + r.taken, |o| + r.used)
      else d == c
    decreases len
  {
    if len == 0 {
    } else if o == [] {
      assert o + more == more;
    } else if o[0] > 0 {
      assert (o + more)[1..] == o[1..] + more;
      AllOfOn(o[1..], more, len - Min(o[0], len));
    }
  }

  lemma NoCall(len: nat)
    ensures AllOf([], len) == All(if len == 0 then Closed(Ok) else Open, 0, 0)
  {}

  lemma OneCall(ret: int, len: nat)
    requires 0 < len && ret <= len
    ensures AllOf([ret], len) == if ret <= 0 then All(Closed(if ret < 0 then Errno else NotConn), 0, 1)
                                 else All(if ret == len then Closed(Ok) else Open, ret, 1)
  {
    assert [ret][1..] == [];
  }

  const CHUNK: nat := 128

  /** A psc_recvskip: how it ends, the bytes it takes from the stream, the bytes its last
      call writes into the scratch buffer of CHUNK bytes, the results it uses up. */
  datatype Skip = Skip(end: End, taken: nat, written: nat, used: nat)

  /** psc_recvskip of len bytes: whole chunks while more than one is left, until one fails; then
      everything that is left in a single call. */
  function SkipOf(o: seq<int>, len: nat): (s: Skip)
    ensures s.used <= |o|
    decreases len
  {
    if len <= CHUNK then var l := AllOf(o, len); Skip(l.end, l.taken, l.taken, l.used)
    else
      var c := AllOf(o, CHUNK);
      if c.end.Open? then Skip(Open, c.taken, 0, c.used)
      else if c.end.st.Ok? then
        var s := SkipOf(o[c.used..], len - CHUNK);
        Skip(s.end, CHUNK + s.taken, s.written, c.used + s.used)
      else
        var l := AllOf(o[c.used..], len);
        Skip(l.end, c.taken + l.taken, l.taken, c.used + l.used)
  }

  /** Some chunk before the last call fails. */
  predicate ChunkFails(o: seq<int>, len: nat)
    decreases len
  {
    len > CHUNK
    && var c := AllOf(o, CHUNK);
       c.end.Closed? && (c.end.st.Ok? ==> ChunkFails(o[c.used..], len - CHUNK))
  }

  /** What the failed chunk had taken by then. */
  function TornBy(o: seq<int>, len: nat): (n: nat)
    ensures n < CHUNK && (n > 0 ==> ChunkFails(o, len))
    decreases len
  {
    if !ChunkFails(o, len) then 0
    else
      var c := AllOf(o, CHUNK);
      if c.end.st.Ok? then TornBy(o[c.used..], len - CHUNK) else c.taken
  }

  /** What a successful skip does: it consumes len bytes and on top of them what a failed chunk
      had taken, so exactly len if and only if no chunk failed with bytes taken; and its last
      call writes over the end of the buffer if and only if a chunk failed. */
  lemma {:induction false} SkipLaw(o: seq<int>, len: nat)
    ensures var s := SkipOf(o, len);
      && (s.end == Closed(Ok) ==> s.taken == len + TornBy(o, len) && (s.written > CHUNK <==> ChunkFails(o, len)))
      && (!ChunkFails(o, len) ==> s.written <= CHUNK)
    decreases len
  {
    if len > CHUNK {
      var c := AllOf(o, CHUNK);
      if c.end == Closed(Ok) {
        SkipLaw(o[c.used..], len - CHUNK);
      }
    }
  }

  /** A skip that, if it succeeds, takes exactly what it was asked to and stays in its buffer. */
  predicate SkipsWell(o: seq<int>, len: nat) {
    var s := SkipOf(o, len);
    s.end == Closed(Ok) ==> s.taken == len && s.written <= CHUNK
  }

  /** A chunk that fails with one byte taken, then all in one call. */
  function Stumble(len: int): seq<int> {
    [1, -1, len]
  }

  /** The caller's condition: a skip does well under all results of recv if and only if it
      is of no more than CHUNK bytes. Beyond that both halves fail for one list of results. */
  lemma SkipsWellIff(len: nat)
    ensures (forall o: seq<int> :: SkipsWell(o, len)) <==> len <= CHUNK
    ensures len > CHUNK ==> SkipOf(Stumble(len), len) == Skip(Closed(Ok), len + 1, len, 3)
  {
    if len <= CHUNK {
      forall o: seq<int>
        ensures SkipsWell(o, len)
      {
        SkipLaw(o, len);
      }
    } else {
      var o := Stumble(len);
      assert o[1..][0] == -1 && o[2..][0] == len && o[2..][1..] == [];
      assert AllOf(o[1..], CHUNK - 1) == All(Closed(Errno), 0, 1);
      assert AllOf(o[2..], len) == All(Closed(Ok), len, 1);
      assert !SkipsWell(o, len);
    }
  }

  /** Once a call has failed all later ones do. */
  predicate Sticky(o: seq<int>) {
    forall j, k :: 0 <= j < k < |o| && o[j] <= 0 ==> o[k] <= 0
  }

  lemma {:induction false} FailedUse(o: seq<int>, len: nat)
    requires AllOf(o, len).end.Closed? && AllOf(o, len).end != Closed(Ok)
    ensures 0 < AllOf(o, len).used && o[AllOf(o, len).used - 1] <= 0
    decreases len
  {
    if o[0] > 0 {
      FailedUse(o[1..], len - Min(o[0], len));
    }
  }

  /** The other condition: with sticky errors every skip of any length does well. */
  lemma {:induction false} StickySkipsWell(o: seq<int>, len: nat)
    requires Sticky(o)
    ensures SkipsWell(o, len) && SkipOf(o, len).written <= CHUNK
    decreases len
  {
    if len > CHUNK {
      var c := AllOf(o, CHUNK);
      if c.end == Closed(Ok) {
        StickySkipsWell(o[c.used..], len - CHUNK);
      } else if c.end.Closed? {
        FailedUse(o, CHUNK);
        assert c.used < |o| ==> o[c.used..][0] == o[c.used] <= 0;
      }
    }
  }

  /** A run outside both conditions: 200 bytes are to be skipped, the first chunk takes 100
      and times out; 300 bytes are consumed, and 200 written into the buffer of 128. */
  lemma SkipOverruns()
    ensures SkipOf([100, -1, 150, 50], 200) == Skip(Closed(Ok), 300, 200, 4)
    ensures ChunkFails([100, -1, 150, 50], 200) && TornBy([100, -1, 150, 50], 200) == 100
  {
    var o := [100, -1, 150, 50];
    assert o[1..] == [-1, 150, 50] && o[2..] == [150, 50];
    assert AllOf([-1, 150, 50], 28) == All(Closed(Errno), 0, 1);
    assert AllOf(o, CHUNK) == All(Closed(Errno), 100, 2);
    assert [150, 50][1..] == [50] && [50][1..] == [];
    assert AllOf([50], 50) == All(Closed(Ok), 50, 1);
    assert AllOf([150, 50], 200) == All(Closed(Ok), 200, 2);
  }

  /** The results are those of n whole chunks. */
  predicate Chunked(o: seq<int>, n: nat) {
    if n == 0 then o == []
    else var c := AllOf(o, CHUNK); c.end == Closed(Ok) && Chunked(o[c.used..], n - 1)
  }

  lemma {:induction false} ChunkedMore(o: seq<int>, n: nat, more: seq<int>)
    requires Chunked(o, n) && AllOf(more, CHUNK) == All(Closed(Ok), CHUNK, |more|)
    ensures Chunked(o + more, n + 1)
  {
    if n == 0 {
      assert o + more == more && more[|more|..] == [];
    } else {
      var c := AllOf(o, CHUNK);
      AllOfOn(o, more, CHUNK);
      assert (o + more)[c.used..] == o[c.used..] + more;
      ChunkedMore(o[c.used..], n - 1, more);
    }
  }

  lemma {:induction false} SkipAfter(o: seq<int>, n: nat, more: seq<int>, len: nat)
    requires Chunked(o, n) && (n == 0 || CHUNK * n < len)
    ensures var s := SkipOf(more, len - CHUNK * n);
      SkipOf(o + more, len) == Skip(s.end, CHUNK * n + s.taken, s.written, |o| + s.used)
  {
    if n == 0 {
      assert o + more == more;
    } else {
      var c := AllOf(o, CHUNK);
      AllOfOn(o, more, CHUNK);
      assert (o + more)[c.used..] == o[c.used..] + more;
      hide AllOf;
      SkipAfter(o[c.used..], n - 1, more, len - CHUNK);
    }
  }

  lemma NoChunks()
    ensures Chunked([], 0)
  {}

  /** The results of the chunk that failed, if one did, when len bytes are left. */
  predicate LastChunk(last: seq<int>, len: nat, torn: nat) {
    if len <= CHUNK then last == [] && torn == 0
    else
      var c := AllOf(last, CHUNK);
      c.end.Closed? && c.end != Closed(Ok) && c.used == |last| && c.taken == torn
  }

  /** The chunk that failed, if any, and the last call. */
  lemma SkipEnds(last: seq<int>, torn: nat, rest: seq<int>, len: nat)
    requires LastChunk(last, len, torn)
    ensures var l := AllOf(rest, len);
      SkipOf(last + rest, len) == Skip(l.end, torn + l.taken, l.taken, |last| + l.used)
  {
    AllOfOn(last, rest, CHUNK);
    assert (last + rest)[|last|..] == rest;
    assert len <= CHUNK ==> last + rest == rest;
  }
}
