/** What the delayed-allocation server does for its clients: which slaves persist, who accepts, when a
    connection ends, and that every chunk of a connection is echoed. */
module DelayedAllocationService {
  import opened Basics
  import opened Runs
  import opened SharedMemory
  import opened DelayedAllocation
  import opened DelayedAllocationProofs
  import opened DelayedAllocationRuns
  import opened DelayedAllocationLimits

  // ----- Who passes the gate ----------------------------------------------------------------------

  /** How many steps of process p the events contain. */
  function OwnSteps(fs: seq<Event>, p: nat): nat {
    if fs == [] then 0
    else
      var e := fs[|fs| - 1];
      OwnSteps(fs[..|fs| - 1], p) + if e.Run? && e.p == p then 1 else 0
  }

  /** Where slave p is k steps after it copied the counter out; `low` says whether the copy lets it pass. */
  ghost predicate Gating(s: State, p: nat, k: nat, low: bool) {
    0 < p < |s.procs| &&
    var q := s.procs[p];
    if k == 0 then q.pc.Gate? && q.pc.ph.Copied? && (q.pc.ph.v <= MAXCRTLVL <==> low)
    else if k == 1 then q.pc.Test? && (q.pc.n <= MAXCRTLVL <==> low)
    else if low then q.pc == Select && q.passed
    else q.pc == Exited
  }

  lemma RunLeavesAlone(s: State, q: nat, o: Outcome, p: nat)
    requires p < |s.procs| && q < |s.procs| && q != p && RunProc(s, q, o).Some?
    ensures var t := RunProc(s, q, o).value; |t.procs| == |s.procs| && t.procs[p] == s.procs[p]
  {
    var pc := s.procs[q].pc;
    if pc == Read {
      assert RunProc(s, q, o) == RunRead(s, q, o);
    } else if pc == Write {
      assert RunProc(s, q, o) == RunWrite(s, q, o);
    } else if pc == Accept {
      assert RunProc(s, q, o) == RunAccept(s, q, o);
    }
  }

  /** Nobody else moves a slave. */
  lemma OthersLeaveAlone(s: State, e: Event, p: nat)
    requires 0 < p < |s.procs| && Step(s, e).Some? && !(e.Run? && e.p == p)
    ensures var t := Step(s, e).value;
            p < |t.procs| && t.procs[p].pc == s.procs[p].pc && t.procs[p].passed == s.procs[p].passed
  {
    match e
    case Run(q, o) => RunLeavesAlone(s, q, o, p);
    case Alarm(forked) =>
      assert Interrupt(s).procs[p] == s.procs[p];
    case RunReaper =>
      assert Step(s, e) == RunDiscount(s);
    case _ =>
  }

  lemma OwnGateStep(s: State, p: nat, o: Outcome, k: nat, low: bool)
    requires Gating(s, p, k, low) && k < 2 && RunProc(s, p, o).Some?
    ensures Gating(RunProc(s, p, o).value, p, k + 1, low)
  {
  }

  lemma {:induction false} GatingGoesOn(s: State, fs: seq<Event>, p: nat, low: bool)
    requires Gating(s, p, 0, low) && Exec(s, fs).Some? && OwnSteps(fs, p) <= 2
    ensures Gating(Exec(s, fs).value, p, OwnSteps(fs, p), low)
  {
    if fs != [] {
      var gs, e := fs[..|fs| - 1], fs[|fs| - 1];
      GatingGoesOn(s, gs, p, low);
      var u := Exec(s, gs).value;
      if e.Run? && e.p == p {
        OwnGateStep(u, p, e.o, OwnSteps(gs, p), low);
      } else {
        OthersLeaveAlone(u, e, p);
      }
    }
  }

  /** A slave reads the counter while `|Active|` slaves are counted.  However the others go on, two steps
      of its own later it waits in select as one that has passed if the number was at most MAXCRTLVL,
      and has terminated if it was more. */
  lemma WhoPasses(es: seq<Event>, s: State, p: nat, o: Outcome, u: State, fs: seq<Event>, t: State)
    requires Exec(Init, es) == Some(s) && p < |s.procs| && s.procs[p].pc == Gate(Holding)
    requires Step(s, Run(p, o)) == Some(u) && Exec(u, fs) == Some(t) && OwnSteps(fs, p) == 2
    ensures p < |t.procs|
    ensures |Active(s)| <= MAXCRTLVL ==> t.procs[p].pc == Select && t.procs[p].passed
    ensures |Active(s)| > MAXCRTLVL ==> t.procs[p].pc == Exited
  {
    RunKeeps(es);
    assert u == Goto(s, p, Gate(Copied(s.word)));
    GatingGoesOn(u, fs, p, s.word <= MAXCRTLVL);
  }

  // ----- Who accepts ------------------------------------------------------------------------------

  ghost predicate AcceptorsPassed(s: State) {
    forall i :: 0 < i < |s.procs| && (s.procs[i].pc == Select || s.procs[i].pc == Accept) ==> s.procs[i].passed
  }

  lemma OwnStepKeepsAcceptor(s: State, p: nat, o: Outcome)
    requires 0 < p < |s.procs| && SlaveOk(s.procs[p]) && RunProc(s, p, o).Some?
    requires s.procs[p].pc == Select || s.procs[p].pc == Accept ==> s.procs[p].passed
    ensures var q := RunProc(s, p, o).value.procs[p]; q.pc == Select || q.pc == Accept ==> q.passed
  {
    var pc := s.procs[p].pc;
    if pc.Counting? {
      assert RunProc(s, p, o) == RunCounting(s, p, pc.ph, pc.resume);
    } else if pc.Gate? {
      assert RunProc(s, p, o) == RunGate(s, p, pc.ph);
    }
  }

  lemma OnlyAlarmsFork(s: State, e: Event)
    requires Step(s, e).Some? && !e.Alarm?
    ensures |Step(s, e).value.procs| == |s.procs|
  {
    match e
    case Run(p, o) => assert |RunProc(s, p, o).value.procs| == |s.procs|;
    case _ =>
  }

  lemma NewSlavesCount(s: State, e: Event, i: nat)
    requires Step(s, e).Some? && |s.procs| <= i < |Step(s, e).value.procs|
    ensures Step(s, e).value.procs[i].pc.Counting?
  {
    if !e.Alarm? {
      OnlyAlarmsFork(s, e);
    }
  }

  lemma StepKeepsAcceptors(s: State, e: Event)
    requires ShmInv(s) && AcceptorsPassed(s) && Step(s, e).Some?
    ensures AcceptorsPassed(Step(s, e).value)
  {
    var t := Step(s, e).value;
    forall i | 0 < i < |t.procs| ensures t.procs[i].pc == Select || t.procs[i].pc == Accept ==> t.procs[i].passed {
      StepKeepsAcceptor(s, e, i);
    }
  }

  lemma StepKeepsAcceptor(s: State, e: Event, i: nat)
    requires ShmInv(s) && AcceptorsPassed(s) && Step(s, e).Some? && 0 < i < |Step(s, e).value.procs|
    ensures var q := Step(s, e).value.procs[i]; q.pc == Select || q.pc == Accept ==> q.passed
  {
    if i >= |s.procs| {
      NewSlavesCount(s, e, i);
    } else if e.Run? && e.p == i {
      OwnStepKeepsAcceptor(s, i, e.o);
      assert Step(s, e) == RunProc(s, i, e.o);
    } else {
      OthersLeaveAlone(s, e, i);
    }
  }

  lemma {:induction false} RunKeepsAcceptors(es: seq<Event>)
    requires Exec(Init, es).Some?
    ensures AcceptorsPassed(Exec(Init, es).value)
  {
    if es != [] {
      RunKeepsAcceptors(es[..|es| - 1]);
      RunKeeps(es[..|es| - 1]);
      StepKeepsAcceptors(Exec(Init, es[..|es| - 1]).value, es[|es| - 1]);
    }
  }

  lemma OnlyAcceptsConnect(s: State, p: nat, o: Outcome)
    requires p < |s.procs| && RunProc(s, p, o).Some?
    ensures var t := RunProc(s, p, o).value;
            || |t.conns| == |s.conns|
            || (s.procs[p].pc == Accept && |t.conns| == |s.conns| + 1 && Serves(t, p, |s.conns|))
  {
  }

  lemma OthersDoNotConnect(s: State, e: Event)
    requires Step(s, e).Some? && !e.Run?
    ensures |Step(s, e).value.conns| == |s.conns|
  {
  }

  /** Connections are accepted one at a time, by the master or by a slave that has passed the gate. */
  lemma OnlyPassedSlavesAccept(es: seq<Event>, s: State, e: Event, t: State)
    requires Exec(Init, es) == Some(s) && Step(s, e) == Some(t) && |t.conns| != |s.conns|
    ensures |t.conns| == |s.conns| + 1 && e.Run? && e.p < |s.procs|
    ensures e.p == 0 || s.procs[e.p].passed
    ensures Serves(t, e.p, |s.conns|)
  {
    RunKeepsAcceptors(es);
    if e.Run? {
      OnlyAcceptsConnect(s, e.p, e.o);
    } else {
      OthersDoNotConnect(s, e);
    }
  }

  // ----- How a connection ends --------------------------------------------------------------------

  /** Process p meets the end of connection k's stream. */
  ghost predicate MeetsEnd(s: State, e: Event, k: int) {
    e.Run? && e.o == Eof && e.p < |s.procs| && s.procs[e.p].pc == Read && Serves(s, e.p, k)
  }

  /** The process that serves connection k terminates. */
  ghost predicate LosesServer(s: State, t: State, k: int) {
    exists p: nat :: Serves(s, p, k) && p < |t.procs| && t.procs[p].pc == Exited
  }

  /** What a step of process p does to connection k: nothing unless p serves it; and its fate changes
      only at the end of its stream and with the end of p. */
  ghost predicate Touches(s: State, t: State, p: nat, k: int, atEnd: bool) {
    && p < |s.procs| == |t.procs| && 0 <= k < |s.conns| <= |t.conns|
    && (t.conns[k] != s.conns[k] ==> Serves(s, p, k))
    && t.conns[k].fate == if !Serves(s, p, k) then s.conns[k].fate
                          else if atEnd then Finished
                          else if t.procs[p].pc == Exited then Aborted
                          else s.conns[k].fate
  }

  lemma ExitTouches(s: State, p: nat, k: nat)
    requires p < |s.procs| && k < |s.conns|
    ensures Touches(s, Exit(s, p), p, k, false)
  {
  }

  lemma ReadTouches(s: State, p: nat, o: Outcome, k: nat)
    requires p < |s.procs| && k < |s.conns| && s.procs[p].pc == Read && RunRead(s, p, o).Some?
    ensures Touches(s, RunRead(s, p, o).value, p, k, o == Eof)
  {
    if o == Fail {
      ExitTouches(s, p, k);
    }
  }

  lemma WriteTouches(s: State, p: nat, o: Outcome, k: nat)
    requires p < |s.procs| && k < |s.conns| && s.procs[p].pc == Write && RunWrite(s, p, o).Some?
    ensures Touches(s, RunWrite(s, p, o).value, p, k, false)
  {
    if !s.procs[p].begun {
      ExitTouches(s, p, k);
    }
  }

  /** A step of p that leaves the connections alone and does not end p. */
  lemma QuietTouches(s: State, t: State, p: nat, k: nat)
    requires p < |s.procs| == |t.procs| && k < |s.conns| && t.conns == s.conns
    requires t.procs[p].pc != Exited || !EchoPoint(Main(s.procs[p].pc))
    ensures Touches(s, t, p, k, false)
  {
  }

  lemma ObjectTouches(s: State, p: nat, o: Outcome, k: nat)
    requires p < |s.procs| && k < |s.conns| && RunProc(s, p, o).Some?
    requires s.procs[p].pc.Gate? || s.procs[p].pc.Counting?
    ensures Touches(s, RunProc(s, p, o).value, p, k, false)
  {
    var pc := s.procs[p].pc;
    if pc.Gate? {
      var t := RunGate(s, p, pc.ph).value;
      QuietTouches(s, t, p, k);
    } else {
      var t := RunCounting(s, p, pc.ph, pc.resume).value;
      QuietTouches(s, t, p, k);
    }
  }

  lemma GoingTouches(s: State, p: nat, o: Outcome, k: nat)
    requires p < |s.procs| && k < |s.conns| && RunProc(s, p, o).Some?
    requires var pc := s.procs[p].pc;
             pc == Top || pc == Arm || pc == Close || pc == Clear || pc == Disarm || pc == Jump
    ensures Touches(s, RunProc(s, p, o).value, p, k, false)
  {
    QuietTouches(s, RunProc(s, p, o).value, p, k);
  }

  lemma ChoiceTouches(s: State, p: nat, o: Outcome, k: nat)
    requires p < |s.procs| && k < |s.conns| && RunProc(s, p, o).Some?
    requires s.procs[p].pc.Test? || s.procs[p].pc == Select
    ensures Touches(s, RunProc(s, p, o).value, p, k, false)
  {
    var pc, t := s.procs[p].pc, RunProc(s, p, o).value;
    if (pc.Test? && pc.n > MAXCRTLVL) || (pc == Select && o != Ok) {
      assert t == Exit(s, p);
      ExitTouches(s, p, k);
    } else {
      QuietTouches(s, t, p, k);
    }
  }

  lemma AcceptTouches(s: State, p: nat, o: Outcome, k: nat)
    requires p < |s.procs| && k < |s.conns| && s.procs[p].pc == Accept && RunAccept(s, p, o).Some?
    ensures Touches(s, RunAccept(s, p, o).value, p, k, false)
  {
    ExitTouches(s, p, k);
  }

  lemma RunTouches(s: State, p: nat, o: Outcome, k: nat)
    requires p < |s.procs| && k < |s.conns| && RunProc(s, p, o).Some?
    ensures Touches(s, RunProc(s, p, o).value, p, k, s.procs[p].pc == Read && o == Eof)
  {
    if s.procs[p].pc == Read {
      ReadTouches(s, p, o, k);
    } else if s.procs[p].pc == Write {
      WriteTouches(s, p, o, k);
    } else if s.procs[p].pc == Accept {
      AcceptTouches(s, p, o, k);
    } else if s.procs[p].pc.Gate? || s.procs[p].pc.Counting? {
      ObjectTouches(s, p, o, k);
    } else if s.procs[p].pc.Test? || s.procs[p].pc == Select {
      ChoiceTouches(s, p, o, k);
    } else {
      GoingTouches(s, p, o, k);
    }
  }

  lemma AlarmTouches(s: State, forked: bool, k: nat)
    requires |s.procs| > 0 && k < |s.conns| && RunAlarm(s, forked).Some?
    ensures var t := RunAlarm(s, forked).value;
            && |s.procs| <= |t.procs| && |t.conns| == |s.conns|
            && (t.conns[k] != s.conns[k] ==> Serves(s, 0, k))
            && t.conns[k].fate == (if Serves(s, 0, k) && !forked then Aborted else s.conns[k].fate)
            && (t.procs[0].pc == Exited <==> !forked)
  {
    if !forked {
      ExitTouches(Interrupt(s), 0, k);
    }
  }

  lemma ReaperTouches(s: State, e: Event)
    requires Step(s, e).Some? && !e.Run? && !e.Alarm?
    ensures Step(s, e).value.conns == s.conns
  {
  }

  /** The process that an event moves; the handlers belong to the master. */
  function Mover(e: Event): nat {
    if e.Run? then e.p else 0
  }

  /** A connection changes only by a step of the process that serves it, or by the alarm that catches the
      master serving it.  It is finished exactly when its server meets the end of its stream, abandoned
      exactly when its server terminates, and after that it never changes. */
  lemma HowConnectionsEnd(es: seq<Event>, s: State, e: Event, t: State, k: nat)
    requires Exec(Init, es) == Some(s) && Step(s, e) == Some(t) && k < |s.conns|
    ensures k < |t.conns|
    ensures t.conns[k] != s.conns[k] ==> exists p: nat :: Serves(s, p, k) && p == Mover(e)
    ensures t.conns[k].fate == if MeetsEnd(s, e, k) then Finished
                               else if LosesServer(s, t, k) then Aborted else s.conns[k].fate
    ensures s.conns[k].fate != Unfinished ==> t.conns[k] == s.conns[k]
  {
    RunKeeps(es);
    OneServerEach(es, s, k);
    if e.Run? {
      RunTouches(s, e.p, e.o, k);
      ServersLost(s, e, t, k);
    } else if e.Alarm? {
      AlarmTouches(s, e.forked, k);
      ServersLost(s, e, t, k);
    } else {
      ReaperTouches(s, e);
      ServersLost(s, e, t, k);
    }
  }

  /** Only the process that moves can terminate. */
  lemma ServersLost(s: State, e: Event, t: State, k: nat)
    requires |s.procs| > 0 && Step(s, e) == Some(t)
    ensures LosesServer(s, t, k) <==> Serves(s, Mover(e), k) && Mover(e) < |t.procs| && t.procs[Mover(e)].pc == Exited
  {
    forall p: nat | Serves(s, p, k) && p < |t.procs| && t.procs[p].pc == Exited ensures p == Mover(e) {
      if p != Mover(e) {
        if e.Run? {
          RunLeavesAlone(s, e.p, e.o, p);
        } else {
          OthersLeaveAlone(s, e, p);
        }
      }
    }
  }
}
