/** The delayed-allocation server at work: every chunk of a connection is echoed, and MAXCRTLVL slaves do
    pass the gate and serve further connections. */
module DelayedAllocationEcho {
  import opened Basics
  import opened Runs
  import opened SharedMemory
  import opened DelayedAllocation
  import opened DelayedAllocationProofs
  import opened DelayedAllocationRuns
  import opened DelayedAllocationLimits

  /** Process p reads one chunk after the other and writes each back. */
  function EchoRun(p: nat, chunks: seq<seq<byte>>): seq<Event> {
    if chunks == [] then []
    else EchoRun(p, chunks[..|chunks| - 1]) + [Run(p, Data(chunks[|chunks| - 1])), Run(p, Ok)]
  }

  predicate Readable(chunks: seq<seq<byte>>) {
    forall i :: 0 <= i < |chunks| ==> 0 < |chunks[i]| <= BUFSIZE
  }

  /** Process p is about to read from its connection. */
  predicate AtRead(s: State, p: nat) {
    p < |s.procs| && s.procs[p].pc == Read && 0 < s.procs[p].ssock <= |s.conns| && (p == 0 ==> s.reaper == Idle)
  }

  /** Connection k has received and been sent `data` more, and nothing else has changed but p's buffer. */
  ghost predicate Echoed(s: State, t: State, p: nat, data: seq<byte>) {
    && AtRead(s, p) && AtRead(t, p)
    && var k := s.procs[p].ssock - 1; var c := s.conns[k];
    && t == s.(procs := s.procs[p := t.procs[p]],
               conns := s.conns[k := c.(received := c.received + data, echoed := c.echoed + data)])
    && t.procs[p] == s.procs[p].(buf := t.procs[p].buf, begun := t.procs[p].begun)
  }

  lemma OneChunk(s: State, p: nat, data: seq<byte>) returns (u: State, t: State)
    requires AtRead(s, p) && 0 < |data| <= BUFSIZE
    ensures Step(s, Run(p, Data(data))) == Some(u) && Step(u, Run(p, Ok)) == Some(t) && Echoed(s, t, p, data)
  {
    u := Step(s, Run(p, Data(data))).value;
    t := Step(u, Run(p, Ok)).value;
    TwiceAt(s.procs, p, u.procs[p], t.procs[p]);
    TwiceAt(s.conns, s.procs[p].ssock - 1, u.conns[s.procs[p].ssock - 1], t.conns[s.procs[p].ssock - 1]);
  }

  lemma EchoedTwice(s: State, u: State, t: State, p: nat, x: seq<byte>, y: seq<byte>)
    requires Echoed(s, u, p, x) && Echoed(u, t, p, y)
    ensures Echoed(s, t, p, x + y)
  {
    var k := s.procs[p].ssock - 1;
    TwiceAt(s.procs, p, u.procs[p], t.procs[p]);
    TwiceAt(s.conns, k, u.conns[k], t.conns[k]);
    assert s.conns[k].received + x + y == s.conns[k].received + (x + y);
    assert s.conns[k].echoed + x + y == s.conns[k].echoed + (x + y);
  }

  lemma {:induction false} OwnEvents(p: nat, chunks: seq<seq<byte>>)
    ensures forall e :: e in EchoRun(p, chunks) ==> e.Run? && e.p == p
  {
    if chunks != [] {
      OwnEvents(p, chunks[..|chunks| - 1]);
    }
  }

  /** In any state in which a process is about to read from its connection, whatever chunks arrive: it can
      echo them all, one after the other, and is about to read again.  (The runs for the first chunks
      are the beginnings of this run.) */
  lemma {:induction false} EchoesEveryChunk(s: State, p: nat, chunks: seq<seq<byte>>) returns (t: State)
    requires AtRead(s, p) && Readable(chunks)
    ensures Exec(s, EchoRun(p, chunks)) == Some(t) && Echoed(s, t, p, Flatten(chunks))
  {
    if chunks == [] {
      t := s;
      var k := s.procs[p].ssock - 1;
      assert s.conns[k].received + [] == s.conns[k].received && s.conns[k].echoed + [] == s.conns[k].echoed;
    } else {
      var last := chunks[|chunks| - 1];
      var r := EchoesEveryChunk(s, p, chunks[..|chunks| - 1]);
      var u;
      u, t := OneChunk(r, p, last);
      var es := Then(Step, s, EchoRun(p, chunks[..|chunks| - 1]), r, Run(p, Data(last)), u);
      es := Then(Step, s, es, u, Run(p, Ok), t);
      assert es == EchoRun(p, chunks);
      EchoedTwice(s, r, t, p, Flatten(chunks[..|chunks| - 1]), last);
    }
  }

  /** The events lead to a state in which the only connection has this content and fate. */
  ghost predicate EndsWith(s: State, fs: seq<Event>, data: seq<byte>, fate: Fate) {
    var r := Exec(s, fs);
    r.Some? && r.value.conns == [Conn(data, data, 0, 0, fate)]
  }

  lemma EchoesThemAll(s: State, chunks: seq<seq<byte>>)
    requires AtRead(s, 0) && s.conns == [Conn([], [], 0, 0, Unfinished)] && Readable(chunks)
    ensures EndsWith(s, EchoRun(0, chunks), Flatten(chunks), Unfinished)
  {
    var t := EchoesEveryChunk(s, 0, chunks);
    assert [] + Flatten(chunks) == Flatten(chunks);
  }

  lemma ThenFinishes(s: State, chunks: seq<seq<byte>>)
    requires AtRead(s, 0) && s.conns == [Conn([], [], 0, 0, Unfinished)] && Readable(chunks)
    ensures EndsWith(s, EchoRun(0, chunks) + [Run(0, Eof)], Flatten(chunks), Finished)
  {
    var t := EchoesEveryChunk(s, 0, chunks);
    assert [] + Flatten(chunks) == Flatten(chunks);
    var fs, u := Do(Step, s, EchoRun(0, chunks), t, Run(0, Eof));
  }

  /** For every list of chunks there is a run on one connection that, after each chunk, has received and
      echoed the chunks so far and is still unfinished, and then ends with the connection finished and
      all of it echoed. */
  lemma ConnectionIsEchoed(chunks: seq<seq<byte>>)
    requires Readable(chunks)
    ensures exists es: seq<Event>, s: State ::
              && Exec(Init, es) == Some(s)
              && (forall i :: 0 <= i <= |chunks| ==>
                    EndsWith(s, EchoRun(0, chunks[..i]), Flatten(chunks[..i]), Unfinished))
              && EndsWith(s, EchoRun(0, chunks) + [Run(0, Eof)], Flatten(chunks), Finished)
  {
    assert Exec(Init, []) == Some(Init);
    var es, s := Accepts(Init, [], Init);
    forall i | 0 <= i <= |chunks| ensures EndsWith(s, EchoRun(0, chunks[..i]), Flatten(chunks[..i]), Unfinished) {
      EchoesThemAll(s, chunks[..i]);
    }
    ThenFinishes(s, chunks);
  }

  // ----- Slaves that persist ------------------------------------------------------------------------

  /** Process p alone has moved, and the connections are now these. */
  ghost predicate Moved(s: State, t: State, p: nat, q: Proc, conns: seq<Conn>) {
    p < |s.procs| && t == s.(procs := s.procs[p := q], conns := conns, open := t.open)
  }

  lemma MovedTwice(s: State, u: State, t: State, p: nat, q: Proc, r: Proc, mid: seq<Conn>, conns: seq<Conn>)
    requires Moved(s, u, p, q, mid) && Moved(u, t, p, r, conns)
    ensures Moved(s, t, p, r, conns)
  {
    TwiceAt(s.procs, p, q, r);
  }

  /** Slave p takes a step that moves it alone. */
  lemma MovesOn(s0: State, es: seq<Event>, s: State, u: State, p: nat, q: Proc, mid: seq<Conn>, o: Outcome)
      returns (fs: seq<Event>, t: State)
    requires Exec(s0, es) == Some(u) && p > 0 && Moved(s, u, p, q, mid) && RunProc(u, p, o).Some?
    requires var v := RunProc(u, p, o).value; v == u.(procs := u.procs[p := v.procs[p]], conns := v.conns, open := v.open)
    ensures RunProc(u, p, o) == Some(t) && p < |t.procs| && Moved(s, t, p, t.procs[p], t.conns)
    ensures Exec(s0, fs) == Some(t) && fs == es + [Run(p, o)]
  {
    fs, t := Do(Step, s0, es, u, Run(p, o));
    MovedTwice(s, u, t, p, q, t.procs[p], mid, t.conns);
  }

  /** Slave p meets the end of its stream, closes, and is at its loop head again. */
  lemma Finishes(s0: State, es: seq<Event>, s: State, p: nat) returns (fs: seq<Event>, t: State)
    requires Exec(s0, es) == Some(s) && AtRead(s, p) && p > 0
    ensures var k := s.procs[p].ssock - 1;
            Moved(s, t, p, s.procs[p].(pc := Top, ssock := 0), s.conns[k := s.conns[k].(fate := Finished)])
    ensures Exec(s0, fs) == Some(t)
    ensures fs == es + [Run(p, Eof), Run(p, Ok), Run(p, Ok), Run(p, Ok)]
  {
    var q, k := s.procs[p], s.procs[p].ssock - 1;
    var conns := s.conns[k := s.conns[k].(fate := Finished)];
    fs, t := MovesOn(s0, es, s, s, p, q, s.conns, Eof);
    assert t.procs[p] == q.(pc := Close) && t.conns == conns;
    fs, t := Closes(s0, fs, s, t, p, q, conns);
  }

  /** What comes after a statement that closes a connection. */
  function AfterClosing(q: Proc): Proc {
    if q.pc == Close then q.(pc := Clear)
    else if q.pc == Clear then q.(pc := Disarm, ssock := 0)
    else q.(pc := Top)
  }

  lemma ClosingStep(s: State, p: nat)
    requires 0 < p < |s.procs| && (s.procs[p].pc == Close || s.procs[p].pc == Clear || s.procs[p].pc == Disarm)
    ensures var r := RunProc(s, p, Ok);
            r.Some? && r.value == s.(procs := s.procs[p := AfterClosing(s.procs[p])], open := r.value.open)
  {
  }

  lemma Closes(s0: State, es: seq<Event>, s: State, u: State, p: nat, q: Proc, conns: seq<Conn>)
      returns (fs: seq<Event>, t: State)
    requires Exec(s0, es) == Some(u) && p > 0 && Moved(s, u, p, q.(pc := Close), conns)
    ensures Moved(s, t, p, q.(pc := Top, ssock := 0), conns)
    ensures Exec(s0, fs) == Some(t) && fs == es + [Run(p, Ok), Run(p, Ok), Run(p, Ok)]
  {
    ClosingStep(u, p);
    fs, t := MovesOn(s0, es, s, u, p, q.(pc := Close), conns, Ok);
    ClosingStep(t, p);
    fs, t := MovesOn(s0, fs, s, t, p, q.(pc := Clear), conns, Ok);
    ClosingStep(t, p);
    fs, t := MovesOn(s0, fs, s, t, p, q.(pc := Disarm, ssock := 0), conns, Ok);
  }

  /** At its loop head it reads a counter of at most MAXCRTLVL and goes on to select. */
  lemma Passes(s0: State, es: seq<Event>, s: State, p: nat) returns (fs: seq<Event>, t: State)
    requires Exec(s0, es) == Some(s) && 0 < p < |s.procs| && s.procs[p].pc == Top
    requires s.sem == 1 && s.word <= MAXCRTLVL
    ensures Moved(s, t, p, s.procs[p].(pc := Select, passed := true), s.conns)
    ensures Exec(s0, fs) == Some(t)
  {
    var q, u := s.procs[p], s;
    fs, t := Do(Step, s0, es, s, Run(p, Ok));
    assert Moved(s, t, p, q.(pc := Gate(Waiting)), s.conns);
    u := t;
    fs, t := GateReads(s0, fs, u, p);
    MovedTwice(s, u, t, p, q.(pc := Gate(Waiting)), q.(pc := Test(s.word)), s.conns, s.conns);
    u := t;
    fs, t := Do(Step, s0, fs, u, Run(p, Ok));
    MovedTwice(s, u, t, p, q.(pc := Test(s.word)), q.(pc := Select, passed := true), s.conns, s.conns);
  }

  lemma AcceptingStep(s: State, p: nat)
    requires 0 < p < |s.procs| && (s.procs[p].pc == Select || s.procs[p].pc == Accept || s.procs[p].pc == Arm)
    ensures var r, q := RunProc(s, p, Ok), s.procs[p];
            && r.Some? && r.value == s.(procs := s.procs[p := r.value.procs[p]], conns := r.value.conns, open := r.value.open)
            && (q.pc == Accept ==> r.value.procs[p] == q.(pc := Arm, ssock := |s.conns| + 1)
                                   && r.value.conns == s.conns + [Conn([], [], 0, 0, Unfinished)])
            && (q.pc != Accept ==> r.value.procs[p] == q.(pc := if q.pc == Select then Accept else Read)
                                   && r.value.conns == s.conns)
  {
  }

  /** In select it accepts a further connection. */
  lemma AcceptsAgain(s0: State, es: seq<Event>, s: State, p: nat) returns (fs: seq<Event>, t: State)
    requires Exec(s0, es) == Some(s) && 0 < p < |s.procs| && s.procs[p].pc == Select
    ensures Moved(s, t, p, s.procs[p].(pc := Read, ssock := |s.conns| + 1), s.conns + [Conn([], [], 0, 0, Unfinished)])
    ensures Exec(s0, fs) == Some(t) && fs == es + [Run(p, Ok), Run(p, Ok), Run(p, Ok)]
  {
    var q := s.procs[p];
    AcceptingStep(s, p);
    fs, t := MovesOn(s0, es, s, s, p, q, s.conns, Ok);
    fs, t := AcceptsAndArms(s0, fs, s, t, p, q);
  }

  lemma AcceptsAndArms(s0: State, es: seq<Event>, s: State, u: State, p: nat, q: Proc) returns (fs: seq<Event>, t: State)
    requires Exec(s0, es) == Some(u) && p > 0 && Moved(s, u, p, q.(pc := Accept), s.conns)
    ensures Moved(s, t, p, q.(pc := Read, ssock := |s.conns| + 1), s.conns + [Conn([], [], 0, 0, Unfinished)])
    ensures Exec(s0, fs) == Some(t) && fs == es + [Run(p, Ok), Run(p, Ok)]
  {
    var n := |s.conns| + 1;
    AcceptingStep(u, p);
    fs, t := MovesOn(s0, es, s, u, p, q.(pc := Accept), s.conns, Ok);
    AcceptingStep(t, p);
    fs, t := MovesOn(s0, fs, s, t, p, q.(pc := Arm, ssock := n), s.conns + [Conn([], [], 0, 0, Unfinished)], Ok);
  }

  /** The same for whole runs: only p moves, and connection k echoes the chunks and is finished. */
  lemma EchoesAndFinishes(s0: State, es: seq<Event>, s: State, p: nat, chunks: seq<seq<byte>>)
      returns (fs: seq<Event>, t: State)
    requires Exec(s0, es) == Some(s) && AtRead(s, p) && p > 0 && Readable(chunks)
    ensures Exec(s0, fs) == Some(t) && fs == es + (EchoRun(p, chunks) + [Run(p, Eof), Run(p, Ok), Run(p, Ok), Run(p, Ok)])
    ensures var k, data := s.procs[p].ssock - 1, Flatten(chunks); var c := s.conns[k];
            t.conns == s.conns[k := c.(received := c.received + data, echoed := c.echoed + data, fate := Finished)]
  {
    var r := EchoesEveryChunk(s, p, chunks);
    Runs.Joined(Step, s0, es, s, EchoRun(p, chunks));
    fs, t := Finishes(s0, es + EchoRun(p, chunks), r, p);
  }

  /** A slave in select can accept a connection, echo whatever arrives, and finish it. */
  lemma ServesAnother(s: State, p: nat, chunks: seq<seq<byte>>) returns (fs: seq<Event>, t: State)
    requires 0 < p < |s.procs| && s.procs[p].pc == Select && Readable(chunks)
    ensures Serving(s, p, chunks, fs, t)
  {
    assert Exec(s, []) == Some(s);
    var u;
    fs, u := AcceptsAgain(s, [], s, p);
    fs, t := EchoesAndFinishes(s, fs, u, p, chunks);
    OwnEvents(p, chunks);
    assert [] + Flatten(chunks) == Flatten(chunks);
  }

  /** The first j slaves have passed the gate and wait in select; the others still echo. */
  ghost predicate PassedUpTo(s: State, j: nat) {
    && j < |s.procs| == MAXCRTLVL + 1 && s.sem == 1 && s.word == MAXCRTLVL && !s.procs[0].passed
    && (forall i :: 0 < i < |s.procs| ==>
          && !s.procs[i].uncounted && s.procs[i].counted
          && if i <= j then s.procs[i].pc == Select && s.procs[i].passed else AtRead(s, i) && !s.procs[i].passed)
  }

  /** A slave that echoes finishes its connection and passes the gate. */
  lemma FinishesAndPasses(s0: State, es: seq<Event>, s: State, p: nat) returns (fs: seq<Event>, t: State, conns: seq<Conn>)
    requires Exec(s0, es) == Some(s) && AtRead(s, p) && p > 0 && s.sem == 1 && s.word <= MAXCRTLVL
    ensures Exec(s0, fs) == Some(t) && |conns| == |s.conns|
    ensures Moved(s, t, p, s.procs[p].(pc := Select, ssock := 0, passed := true), conns)
  {
    var u;
    fs, u := Finishes(s0, es, s, p);
    fs, t := Passes(s0, fs, u, p);
    conns := u.conns;
    MovedTwice(s, u, t, p, u.procs[p], t.procs[p], conns, conns);
  }

  lemma OneMorePasses(s0: State, es: seq<Event>, s: State, j: nat) returns (fs: seq<Event>, t: State)
    requires Exec(s0, es) == Some(s) && PassedUpTo(s, j) && j < MAXCRTLVL
    ensures Exec(s0, fs) == Some(t) && PassedUpTo(t, j + 1)
  {
    var conns;
    fs, t, conns := FinishesAndPasses(s0, es, s, j + 1);
    PassedOneMore(s, t, j, t.procs[j + 1], conns);
  }

  lemma PassedOneMore(s: State, t: State, j: nat, q: Proc, conns: seq<Conn>)
    requires PassedUpTo(s, j) && j < MAXCRTLVL && Moved(s, t, j + 1, q, conns) && |conns| == |s.conns|
    requires q.pc == Select && q.passed && !q.uncounted && q.counted
    ensures PassedUpTo(t, j + 1)
  {
    forall i | 0 < i < |t.procs| && i != j + 1 ensures t.procs[i] == s.procs[i] {
    }
  }

  lemma {:induction false} ManyPass(j: nat) returns (es: seq<Event>, s: State)
    requires j <= MAXCRTLVL
    ensures Exec(Init, es) == Some(s) && PassedUpTo(s, j)
  {
    if j == 0 {
      es, s := ManySlaves(MAXCRTLVL);
      RunKeeps(es);
    } else {
      var fs, u := ManyPass(j - 1);
      es, s := OneMorePasses(Init, fs, u, j - 1);
    }
  }

  /** The cap is reached: there is a run after which MAXCRTLVL slaves are past the gate, and each of them
      can go on to serve a further connection, whatever arrives on it. */
  lemma CapIsReached(chunks: seq<seq<byte>>)
    requires Readable(chunks)
    ensures exists es: seq<Event>, s: State ::
              && Exec(Init, es) == Some(s) && |Passed(s)| == MAXCRTLVL
              && forall p: nat :: p in Passed(s) ==> CanServe(s, p, chunks)
  {
    var es, s := ManyPass(MAXCRTLVL);
    assert Passed(s) == {1, 2};
    forall p: nat | p in Passed(s) ensures CanServe(s, p, chunks) {
      var fs, t := ServesAnother(s, p, chunks);
    }
  }

  /** The events take slave p from select through another connection, and back to its loop head. */
  ghost predicate Serving(s: State, p: nat, chunks: seq<seq<byte>>, fs: seq<Event>, t: State) {
    && Exec(s, fs) == Some(t) && (forall e :: e in fs ==> e.Run? && e.p == p)
    && t.conns == s.conns + [Conn(Flatten(chunks), Flatten(chunks), 0, 0, Finished)]
  }

  ghost predicate CanServe(s: State, p: nat, chunks: seq<seq<byte>>) {
    exists fs: seq<Event>, t: State :: Serving(s, p, chunks, fs, t)
  }

  // ----- Slaves that have terminated ----------------------------------------------------------------

  /** The master's reaper waits for slave p and counts it down, when the object lets it in at once. */
  lemma TerminatedIsCountedDown(s: State, p: nat) returns (fs: seq<Event>, t: State)
    requires 0 < p < |s.procs| && s.procs[p].pc == Exited && !s.procs[p].reaped
    requires s.reaper == Idle && s.procs[0].pc != Jump && s.procs[0].pc != Exited && s.sem == 1
    ensures Exec(s, fs) == Some(t) && forall e :: e in fs ==> !e.Run? && !e.Alarm?
    ensures t == s.(word := s.word - 1, procs := s.procs[p := s.procs[p].(reaped := true, uncounted := true)])
  {
    assert Exec(s, []) == Some(s);
    fs, t := Do(Step, s, [], s, ChildSignal);
    fs, t := Do(Step, s, fs, t, Wait3(p));
    var u := t;
    assert u == s.(reaper := Discounting(p, Waiting), procs := s.procs[p := s.procs[p].(reaped := true)]);
    fs, t := CountsDown(s, fs, t);
    TwiceAt(s.procs, p, u.procs[p], t.procs[p]);
    fs, t := Do(Step, s, fs, t, ReaperReturn);
  }
}
