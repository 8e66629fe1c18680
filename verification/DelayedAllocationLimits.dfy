/** What the concurrency cap does not bound: slaves that are still serving the connection they were
    forked with have not reached the gate yet, and there can be any number of them. */
module DelayedAllocationLimits {
  import opened Basics
  import opened SharedMemory
  import opened DelayedAllocation
  import opened DelayedAllocationRuns

  /** The master is idle at its loop head and the semaphore is free. */
  predicate Quiescent(s: State) {
    |s.procs| > 0 && s.procs[0].pc == Top && s.reaper == Idle && !s.alarm && s.sem == 1
  }

  /** Every slave is a counted one that echoes the connection it inherited. */
  predicate AllServing(s: State) {
    forall i :: 0 < i < |s.procs| ==>
      s.procs[i].pc == Read && s.procs[i].counted && !s.procs[i].uncounted && !s.procs[i].passed &&
      0 < s.procs[i].ssock <= |s.conns|
  }

  /** The master accepts a connection and times out on it; the slave counts itself up. */
  lemma OneMoreSlave(s0: State, es: seq<Event>, s: State) returns (fs: seq<Event>, t: State)
    requires Exec(s0, es) == Some(s) && Quiescent(s) && AllServing(s)
    ensures Exec(s0, fs) == Some(t) && Quiescent(t) && AllServing(t)
    ensures |t.procs| == |s.procs| + 1 && t.word == s.word + 1
  {
    fs, t := Accepts(s0, es, s);
    fs, t := TimesOut(s0, fs, t);
    var u := t;
    fs, t := CountsUp(s0, fs, t, |s.procs|);
    assert forall i :: 0 < i < |s.procs| ==> u.procs[i] == s.procs[i] && t.procs[i] == u.procs[i];
  }

  /** For every n there is a run that ends with n live slaves, all counted and all echoing: the cap
      bounds the slaves that have passed the gate, and nothing else. */
  lemma NoCapOnFirstService(n: nat)
    ensures exists es: seq<Event>, s: State ::
              Exec(Init, es) == Some(s) && |s.procs| == n + 1 && AllServing(s) && s.word == n
  {
    var es, s := ManySlaves(n);
  }

  lemma {:induction false} ManySlaves(n: nat) returns (es: seq<Event>, s: State)
    ensures Exec(Init, es) == Some(s) && Quiescent(s) && AllServing(s)
    ensures |s.procs| == n + 1 && s.word == n
  {
    if n == 0 {
      es, s := [], Init;
    } else {
      var fs, t := ManySlaves(n - 1);
      es, s := OneMoreSlave(Init, fs, t);
    }
  }
}
