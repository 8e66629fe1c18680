/** The hand-over loses bytes: a request that times out because its client does not read is interrupted
    in the middle of a write, whose short count nobody looks at. */
module DelayedAllocationLoss {
  import opened Basics
  import opened Runs
  import opened SharedMemory
  import opened DelayedAllocation
  import opened DelayedAllocationRuns

  /** Whatever the client sends first and however much of it the master's write has moved when the alarm
      comes, there is a run in which the slave finishes the connection as if nothing were missing. */
  lemma HandOverLoses(data: seq<byte>, n: nat)
    requires 0 < n < |data| <= BUFSIZE
    ensures exists es: seq<Event>, s: State ::
              && Exec(Init, es) == Some(s) && |s.conns| == 1
              && s.conns[0] == Conn(data, data[..n], 1, |data| - n, Finished)
  {
    assert Exec(Init, []) == Some(Init);
    var es, s := Accepts(Init, [], Init);
    es, s := Stalls(Init, es, s, data, n);
    es, s := TimesOut(Init, es, s);
    es, s := CountsUp(Init, es, s, 1);
    es, s := Ends(Init, es, s);
  }

  /** The master reads and its write moves n bytes. */
  lemma Stalls(s0: State, es: seq<Event>, s: State, data: seq<byte>, n: nat) returns (fs: seq<Event>, t: State)
    requires Exec(s0, es) == Some(s) && 0 < n < |data| <= BUFSIZE
    requires |s.procs| == 1 && s.reaper == Idle && s.procs[0].pc == Read && s.procs[0].ssock == 1
    requires s.conns == [Conn([], [], 0, 0, Unfinished)]
    ensures Exec(s0, fs) == Some(t) && |t.procs| == 1 && MidWrite(t)
    ensures t.procs[0].ssock == 1 && t.procs[0].buf == data[n..]
    ensures t.conns == [Conn(data, data[..n], 0, 0, Unfinished)]
    ensures t.alarm == s.alarm && t.reaper == Idle && View(t) == View(s)
  {
    fs, t := Do(Step, s0, es, s, Run(0, Data(data)));
    assert [] + data == data;
    assert t.conns[0] == Conn(data, [], 0, 0, Unfinished);
    fs, t := Do(Step, s0, fs, t, Run(0, Moves(n)));
    assert [] + data[..n] == data[..n];
  }

  /** The slave meets the end of the stream. */
  lemma Ends(s0: State, es: seq<Event>, s: State) returns (fs: seq<Event>, t: State)
    requires Exec(s0, es) == Some(s) && |s.procs| == 2 && |s.conns| == 1
    requires s.procs[1].pc == Read && s.procs[1].ssock == 1
    ensures Exec(s0, fs) == Some(t) && t.conns == [s.conns[0].(fate := Finished)]
  {
    fs, t := Do(Step, s0, es, s, Run(1, Eof));
  }
}
