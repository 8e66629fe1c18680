/** Which bytes the echo tester puts on the wire.  Sending and receiving share one buffer, so a send does not
    repeat the pattern the buffer was filled with, but whatever the receives of all hosts have left. */
module EchoTesterBuffer {
  import opened Basics
  import opened Runs
  import opened EchoTester
  import opened EchoTesterProofs

  /** What the receive of this step delivers; nothing if the step is not a receive. */
  function Delivered(s: State, e: Event): seq<byte> {
    if e.Client? && s.pc.Reading? && s.pc.fd in s.pc.r && s.pc.fd in s.links && 0 <= s.pc.fd < |s.v.rc|
       && s.v.rc[s.pc.fd] != 0 && e.n <= |s.links[s.pc.fd].down|
    then s.links[s.pc.fd].down[..e.n] else []
  }

  /** The receives of a run in order. */
  function Receives(s: State, es: seq<Event>): seq<seq<byte>> {
    if es == [] then []
    else
      var r := Exec(s, es[..|es| - 1]);
      Receives(s, es[..|es| - 1]) + if r.Some? then [Delivered(r.value, es[|es| - 1])] else []
  }

  /** The buffer after these receives, each of which overwrites its beginning. */
  function Overlay(buf: seq<byte>, chunks: seq<seq<byte>>): (r: seq<byte>)
    requires forall i :: 0 <= i < |chunks| ==> |chunks[i]| <= |buf|
    ensures |r| == |buf|
  {
    if chunks == [] then buf
    else
      var last := chunks[|chunks| - 1];
      last + Overlay(buf, chunks[..|chunks| - 1])[|last|..]
  }

  /** Chunk i is the last of the chunks that is longer than j. */
  predicate LastLonger(chunks: seq<seq<byte>>, j: nat, i: nat) {
    i < |chunks| && j < |chunks[i]| && forall k :: i < k < |chunks| ==> |chunks[k]| <= j
  }

  /** Byte j of the buffer is byte j of the last receive longer than j, over all hosts, or the pattern's if
      there was none. */
  lemma {:induction false} OverlayAt(buf: seq<byte>, chunks: seq<seq<byte>>, j: nat)
    requires (forall i :: 0 <= i < |chunks| ==> |chunks[i]| <= |buf|) && j < |buf|
    ensures forall i: nat :: LastLonger(chunks, j, i) ==> Overlay(buf, chunks)[j] == chunks[i][j]
    ensures (forall i :: 0 <= i < |chunks| ==> |chunks[i]| <= j) ==> Overlay(buf, chunks)[j] == buf[j]
  {
    if chunks != [] {
      var rest, n := chunks[..|chunks| - 1], |chunks| - 1;
      OverlayAt(buf, rest, j);
      forall i: nat | LastLonger(chunks, j, i) ensures Overlay(buf, chunks)[j] == chunks[i][j] {
        if i < n {
          assert |chunks[n]| <= j;
          assert LastLonger(rest, j, i);
        }
      }
    }
  }

  /** One step: the buffer changes by what is delivered, and what is sent comes from the buffer. */
  ghost predicate UsesBuffer(s: State, e: Event, t: State) {
    && |Delivered(s, e)| <= |s.v.buf|
    && t.v.buf == Delivered(s, e) + s.v.buf[|Delivered(s, e)|..]
    && t.links.Keys == s.links.Keys
    && forall fd :: fd in s.links && t.links[fd].sent != s.links[fd].sent ==>
         && e.Client? && e.n <= |s.v.buf| && s.pc.Writing? && s.pc.fd == fd && fd in s.pc.w
         && t.links[fd].sent == s.links[fd].sent + s.v.buf[..e.n]
  }

  lemma WriteUses(s: State, fd: int, n: nat)
    requires DoWrite(s, fd, n).Some?
    ensures var t := DoWrite(s, fd, n).value;
            && t.v.buf == s.v.buf && t.links.Keys == s.links.Keys
            && (forall f :: f in s.links && t.links[f].sent != s.links[f].sent ==>
                  f == fd && n <= |s.v.buf| && t.links[f].sent == s.links[f].sent + s.v.buf[..n])
  {
  }

  lemma ReadUses(s: State, fd: int, n: nat)
    requires DoRead(s, fd, n).Some?
    ensures var t := DoRead(s, fd, n).value;
            && t.links.Keys == s.links.Keys
            && (forall f :: f in s.links ==> t.links[f].sent == s.links[f].sent)
            && t.v.buf == (if s.v.rc[fd] != 0 && 0 < n <= |s.links[fd].down| && n <= |s.v.buf|
                           then s.links[fd].down[..n] + s.v.buf[n..] else s.v.buf)
            && (s.v.rc[fd] != 0 ==> n <= |s.links[fd].down| && n <= |s.v.buf|)
  {
  }

  lemma ClientUses(s: State, n: nat)
    requires DoClient(s, n).Some?
    ensures UsesBuffer(s, Client(n), DoClient(s, n).value)
  {
    match s.pc
    case Writing(fd, w, r) =>
      if fd < s.nfds && fd in w {
        WriteUses(s.(pc := Reading(fd, w, r)), fd, n);
      }
    case Reading(fd, w, r) =>
      if fd in r {
        ReadUses(s.(pc := Writing(fd + 1, w, r)), fd, n);
      }
    case _ =>
  }

  lemma StepUses(s: State, e: Event)
    requires Step(s, e).Some?
    ensures UsesBuffer(s, e, Step(s, e).value)
  {
    match e
    case Client(n) => ClientUses(s, n);
    case _ =>
  }

  lemma {:induction false} RunUses(s: State, es: seq<Event>)
    requires Exec(s, es).Some?
    ensures forall i :: 0 <= i < |Receives(s, es)| ==> |Receives(s, es)[i]| <= |s.v.buf|
    ensures Exec(s, es).value.v.buf == Overlay(s.v.buf, Receives(s, es))
  {
    if es != [] {
      var r := Receives(s, es[..|es| - 1]);
      RunUses(s, es[..|es| - 1]);
      var u, e := Exec(s, es[..|es| - 1]).value, es[|es| - 1];
      StepUses(u, e);
      assert Receives(s, es)[..|r|] == r;
    }
  }

  lemma SentFromBuffer(s: State, e: Event, t: State, fd: int, j: nat)
    requires UsesBuffer(s, e, t) && fd in s.links && fd in t.links && |s.links[fd].sent| <= j < |t.links[fd].sent|
    ensures j - |s.links[fd].sent| < |s.v.buf| && t.links[fd].sent[j] == s.v.buf[j - |s.links[fd].sent|]
  {
    var old', new' := s.links[fd].sent, t.links[fd].sent;
    assert new' == old' + s.v.buf[..e.n];
  }

  // ----- Main results -----------------------------------------------------------------------------

  /** In every run: a send puts on the wire the beginning of the buffer, and byte j of the buffer is byte j
      of the last receive longer than j, whichever host it came from, or byte j of the pattern. */
  lemma WhatIsSent(fds: seq<int>, ccount: int, buf: seq<byte>, nfds: int, upCap: nat, downCap: nat,
                   es: seq<Event>, s: State, e: Event, t: State, fd: int, j: nat)
    requires Connects(fds, ccount, buf, nfds, upCap, downCap)
    requires Exec(Start(fds, ccount, buf, nfds, upCap, downCap), es) == Some(s) && Step(s, e) == Some(t)
    requires fd in s.links && fd in t.links && |s.links[fd].sent| <= j < |t.links[fd].sent|
    ensures var chunks, i := Receives(Start(fds, ccount, buf, nfds, upCap, downCap), es), j - |s.links[fd].sent|;
            && (forall k: nat :: LastLonger(chunks, i, k) ==> t.links[fd].sent[j] == chunks[k][i])
            && ((forall k :: 0 <= k < |chunks| ==> |chunks[k]| <= i) ==> i < |buf| && t.links[fd].sent[j] == buf[i])
  {
    var s0 := Start(fds, ccount, buf, nfds, upCap, downCap);
    BufferInRun(fds, ccount, buf, nfds, upCap, downCap, es, s);
    assert UsesBuffer(s, e, t) by { StepUses(s, e); }
    SentFromBuffer(s, e, t, fd, j);
    OverlayAt(buf, Receives(s0, es), j - |s.links[fd].sent|);
  }

  lemma BufferInRun(fds: seq<int>, ccount: int, buf: seq<byte>, nfds: int, upCap: nat, downCap: nat,
                    es: seq<Event>, s: State)
    requires Connects(fds, ccount, buf, nfds, upCap, downCap)
    requires Exec(Start(fds, ccount, buf, nfds, upCap, downCap), es) == Some(s)
    ensures var chunks := Receives(Start(fds, ccount, buf, nfds, upCap, downCap), es);
            (forall i :: 0 <= i < |chunks| ==> |chunks[i]| <= |buf|) && s.v.buf == Overlay(buf, chunks)
  {
    BufferAtStart(fds, ccount, buf);
    RunUses(Start(fds, ccount, buf, nfds, upCap, downCap), es);
  }

  lemma {:induction false} BufferAtStart(fds: seq<int>, ccount: int, buf: seq<byte>)
    requires forall i :: 0 <= i < |fds| ==> 0 <= fds[i] < NOFILE
    ensures Connected(fds, ccount, buf).buf == buf
  {
    if fds != [] {
      BufferAtStart(fds[..|fds| - 1], ccount, buf);
    }
  }
}
