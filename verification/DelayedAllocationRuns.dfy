/** Pieces of runs of the delayed-allocation server: what a process does when nobody else moves. */
module DelayedAllocationRuns {
  import opened Basics
  import opened Runs
  import opened SharedMemory
  import opened DelayedAllocation

  lemma TwiceAt<T>(xs: seq<T>, i: nat, a: T, b: T)
    requires i < |xs|
    ensures xs[i := a][i := b] == xs[i := b]
  {
  }

  // ----- The calls on the shared memory object --------------------------------------------------

  /** A slave at the gate, alone at the object: its steps are one `read_glb_data`, and it waits exactly
      when the object makes it wait. */
  lemma GateReads(s0: State, es: seq<Event>, s: State, p: nat) returns (fs: seq<Event>, t: State)
    requires Exec(s0, es) == Some(s) && 0 < p < |s.procs| && s.procs[p].pc == Gate(Waiting)
    ensures Exec(s0, fs) == Some(t)
    ensures Waited(s.sem).None? ==> Step(s, Run(p, Ok)) == None && t == s
    ensures Waited(s.sem).Some? ==>
              && fs == es + [Run(p, Ok), Run(p, Ok), Run(p, Ok)] && View(t) == View(s)
              && t == s.(procs := s.procs[p := s.procs[p].(pc := Test(s.word))])
  {
    fs, t := es, s;
    if Waited(s.sem).Some? {
      fs, t := EntersGate(s0, es, s, p);
      var a := t.procs[p];
      fs, t := Do(Step, s0, fs, t, Run(p, Ok));
      TwiceAt(s.procs, p, a, t.procs[p]);
    }
  }

  /** `sem_wait` and the copy out. */
  lemma EntersGate(s0: State, es: seq<Event>, s: State, p: nat) returns (fs: seq<Event>, t: State)
    requires Exec(s0, es) == Some(s) && 0 < p < |s.procs| && s.procs[p].pc == Gate(Waiting)
    requires Waited(s.sem).Some?
    ensures Exec(s0, fs) == Some(t) && fs == es + [Run(p, Ok), Run(p, Ok)]
    ensures t == s.(sem := s.sem - 1, procs := s.procs[p := s.procs[p].(pc := Gate(Copied(s.word)))])
  {
    fs, t := Do(Step, s0, es, s, Run(p, Ok));
    var a := t.procs[p];
    fs, t := Do(Step, s0, fs, t, Run(p, Ok));
    TwiceAt(s.procs, p, a, t.procs[p]);
  }

  /** A fresh slave, alone at the object: its four steps are one `update_glb_data` that counts up. */
  lemma CountsUp(s0: State, es: seq<Event>, s: State, p: nat) returns (fs: seq<Event>, t: State)
    requires Exec(s0, es) == Some(s) && 0 < p < |s.procs|
    requires s.procs[p].pc.Counting? && s.procs[p].pc.ph == Waiting
    ensures Exec(s0, fs) == Some(t)
    ensures Waited(s.sem).None? ==> Step(s, Run(p, Ok)) == None && t == s
    ensures Waited(s.sem).Some? ==>
              && fs == es + [Run(p, Ok), Run(p, Ok), Run(p, Ok), Run(p, Ok)]
              && View(t) == AfterUpdate(View(s), Incremented)
              && t == s.(word := t.word, procs := s.procs[p := s.procs[p].(pc := s.procs[p].pc.resume, counted := true)])
  {
    fs, t := es, s;
    if Waited(s.sem).Some? {
      var u := TakesCount(s, p);
      fs := Twice(s0, es, s, Run(p, Ok), u);
      t := StoresCount(u, p, Incremented(s.word));
      fs := Twice(s0, fs, u, Run(p, Ok), t);
      TwiceAt(s.procs, p, u.procs[p], t.procs[p]);
    } else {
      CountingStep(s, p);
    }
  }

  /** The same step twice. */
  lemma Twice(s0: State, es: seq<Event>, s: State, e: Event, u: State) returns (fs: seq<Event>)
    requires Exec(s0, es) == Some(s) && Step(s, e).Some? && Step(Step(s, e).value, e) == Some(u)
    ensures Exec(s0, fs) == Some(u) && fs == es + [e, e]
  {
    var t := Step(s, e).value;
    fs := Then(Step, s0, es, s, e, t);
    fs := Then(Step, s0, fs, t, e, u);
  }

  lemma CountingStep(s: State, p: nat)
    requires 0 < p < |s.procs| && s.procs[p].pc.Counting?
    ensures Step(s, Run(p, Ok)) == RunCounting(s, p, s.procs[p].pc.ph, s.procs[p].pc.resume)
  {
  }

  /** `sem_wait` and the copy out. */
  lemma TakesCount(s: State, p: nat) returns (t: State)
    requires 0 < p < |s.procs| && Waited(s.sem).Some?
    requires s.procs[p].pc.Counting? && s.procs[p].pc.ph == Waiting
    ensures Step(s, Run(p, Ok)).Some? && Step(Step(s, Run(p, Ok)).value, Run(p, Ok)) == Some(t)
    ensures var pc := Counting(Copied(Incremented(s.word)), s.procs[p].pc.resume);
            t == s.(sem := s.sem - 1, procs := s.procs[p := s.procs[p].(pc := pc)])
  {
    CountingStep(s, p);
    var a := Step(s, Run(p, Ok)).value;
    CountingStep(a, p);
    t := Step(a, Run(p, Ok)).value;
    TwiceAt(s.procs, p, a.procs[p], t.procs[p]);
  }

  /** The copy back and `sem_signal`. */
  lemma StoresCount(s: State, p: nat, v: int) returns (t: State)
    requires 0 < p < |s.procs| && s.procs[p].pc.Counting? && s.procs[p].pc.ph == Copied(v)
    ensures Step(s, Run(p, Ok)).Some? && Step(Step(s, Run(p, Ok)).value, Run(p, Ok)) == Some(t)
    ensures t == s.(sem := s.sem + 1, word := v,
                    procs := s.procs[p := s.procs[p].(pc := s.procs[p].pc.resume, counted := true)])
  {
    CountingStep(s, p);
    var a := Step(s, Run(p, Ok)).value;
    CountingStep(a, p);
    t := Step(a, Run(p, Ok)).value;
    TwiceAt(s.procs, p, a.procs[p], t.procs[p]);
  }

  /** The reaper, alone at the object: its four steps are one `update_glb_data` that counts down. */
  lemma CountsDown(s0: State, es: seq<Event>, s: State) returns (fs: seq<Event>, t: State)
    requires Exec(s0, es) == Some(s) && |s.procs| > 0
    requires s.reaper.Discounting? && s.reaper.ph == Waiting && s.reaper.child < |s.procs|
    ensures Exec(s0, fs) == Some(t)
    ensures Waited(s.sem).None? ==> Step(s, RunReaper) == None && t == s
    ensures Waited(s.sem).Some? ==>
              && fs == es + [RunReaper, RunReaper, RunReaper, RunReaper]
              && View(t) == AfterUpdate(View(s), Decremented)
              && t == s.(word := t.word, reaper := Looping,
                         procs := s.procs[s.reaper.child := s.procs[s.reaper.child].(uncounted := true)])
  {
    fs, t := es, s;
    if Waited(s.sem).Some? {
      fs, t := TakesDiscount(s0, es, s);
      fs, t := Do(Step, s0, fs, t, RunReaper);
      fs, t := Do(Step, s0, fs, t, RunReaper);
    }
  }

  lemma TakesDiscount(s0: State, es: seq<Event>, s: State) returns (fs: seq<Event>, t: State)
    requires Exec(s0, es) == Some(s) && |s.procs| > 0 && Waited(s.sem).Some?
    requires s.reaper.Discounting? && s.reaper.ph == Waiting && s.reaper.child < |s.procs|
    ensures Exec(s0, fs) == Some(t) && fs == es + [RunReaper, RunReaper]
    ensures t == s.(sem := s.sem - 1, reaper := Discounting(s.reaper.child, Copied(Decremented(s.word))))
  {
    fs, t := Do(Step, s0, es, s, RunReaper);
    fs, t := Do(Step, s0, fs, t, RunReaper);
  }

  // ----- The master -----------------------------------------------------------------------------

  /** The master accepts a connection and is about to read from it. */
  lemma Accepts(s0: State, es: seq<Event>, s: State) returns (fs: seq<Event>, t: State)
    requires Exec(s0, es) == Some(s) && |s.procs| > 0 && s.procs[0].pc == Top && s.reaper == Idle
    ensures Exec(s0, fs) == Some(t)
    ensures t.conns == s.conns + [Conn([], [], 0, 0, Unfinished)]
    ensures t.procs == s.procs[0 := s.procs[0].(pc := Read, ssock := |t.conns|)]
    ensures t.alarm && t.reaper == Idle && View(t) == View(s)
  {
    var m, n := s.procs[0], |s.conns| + 1;
    fs, t := Do(Step, s0, es, s, Run(0, Ok));
    fs, t := Do(Step, s0, fs, t, Run(0, Ok));
    TwiceAt(s.procs, 0, m.(pc := Accept), m.(pc := Arm, ssock := n));
    fs, t := Do(Step, s0, fs, t, Run(0, Ok));
    TwiceAt(s.procs, 0, m.(pc := Arm, ssock := n), m.(pc := Read, ssock := n));
  }

  /** The alarm comes; the master jumps and is at its loop head again. */
  lemma TimesOut(s0: State, es: seq<Event>, s: State) returns (fs: seq<Event>, t: State)
    requires Exec(s0, es) == Some(s) && |s.procs| > 0 && s.alarm && s.reaper == Idle
    requires s.procs[0].pc == Read || MidWrite(s)
    ensures Exec(s0, fs) == Some(t)
    ensures var m := Interrupt(s).procs[0];
            t.procs == s.procs[0 := m.(pc := Top)] +
                       [Proc(Counting(Waiting, Read), m.ssock, m.buf, m.begun, false, false, false, false)]
    ensures t.conns == Interrupt(s).conns && !t.alarm && t.reaper == Idle && View(t) == View(s)
  {
    var u := Interrupt(s);
    var m := u.procs[0];
    fs, t := Do(Step, s0, es, s, Alarm(true));
    assert t == Fork(u) && t.procs[0].pc == Jump && |t.procs| == |s.procs| + 1;
    fs, t := Do(Step, s0, fs, t, Run(0, Ok));
    assert t.procs[0] == m.(pc := Top);
  }
}
