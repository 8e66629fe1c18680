/** What holds in every run of the delayed-allocation server: mutual exclusion on the counter, the
    concurrency cap, and the hand-over of connections from the master to slaves. */
module DelayedAllocationProofs {
  import opened Basics
  import opened DelayedAllocation

  // ----- The semaphore and the counter --------------------------------------------------------

  ghost predicate InSection(pc: Pc) {
    (pc.Gate? && pc.ph != Waiting) || (pc.Counting? && pc.ph != Waiting)
  }

  /** Process p is between `sem_wait` and `sem_signal`; the master gets there only in its reaper. */
  ghost predicate Holds(s: State, p: nat) {
    p < |s.procs| &&
    if p == 0 then s.reaper.Discounting? && s.reaper.ph != Waiting else InSection(s.procs[p].pc)
  }

  /** The slaves that have counted themselves up and have not been counted down. */
  ghost function Active(s: State): (r: set<nat>) {
    set i: nat | i < |s.procs| && s.procs[i].counted && !s.procs[i].uncounted
  }

  /** The slave has read a counter value that lets it pass, and perhaps has passed already. */
  ghost predicate Admitted(q: Proc) {
    || q.passed
    || (q.pc.Gate? && q.pc.ph.Copied? && q.pc.ph.v <= MAXCRTLVL)
    || (q.pc.Test? && q.pc.n <= MAXCRTLVL)
  }

  ghost function AdmittedSet(s: State): (r: set<nat>) {
    set i: nat | i < |s.procs| && Admitted(s.procs[i]) && !s.procs[i].uncounted
  }

  ghost predicate ResumePoint(pc: Pc) {
    pc == Read || pc == Write || pc == Close || pc == Clear || pc == Disarm
  }

  ghost predicate MasterOk(q: Proc) {
    !q.counted && !q.uncounted && !q.passed && !q.reaped &&
    !q.pc.Gate? && !q.pc.Test? && !q.pc.Select? && !q.pc.Counting?
  }

  ghost predicate SlaveOk(q: Proc) {
    && (q.counted <==> !(q.pc.Counting? && q.pc.ph != Stored))
    && (q.pc.Counting? ==> !q.passed && ResumePoint(q.pc.resume))
    && (q.pc.Gate? ==> q.pc.ph != Stored)
    && q.pc != Jump
    && (q.uncounted ==> q.reaped)
    && (q.reaped ==> q.pc == Exited)
  }

  ghost predicate ReaperOk(s: State) {
    && (s.reaper.Discounting? ==>
          0 < s.reaper.child < |s.procs| && s.procs[s.reaper.child].reaped &&
          (s.procs[s.reaper.child].uncounted <==> s.reaper.ph == Stored) &&
          (s.reaper.ph.Copied? ==> s.reaper.ph.v == s.word - 1))
    && (forall i :: 0 <= i < |s.procs| && s.procs[i].reaped && !s.procs[i].uncounted ==>
          s.reaper.Discounting? && s.reaper.child == i)
  }

  ghost predicate SemaphoreOk(s: State) {
    && 0 <= s.sem <= 1
    && (forall p, q :: Holds(s, p) && Holds(s, q) ==> p == q)
    && (s.sem == 1 <==> forall p :: !Holds(s, p))
  }

  ghost predicate CounterOk(s: State) {
    && s.word == |Active(s)|
    && (forall i :: 0 <= i < |s.procs| && s.procs[i].pc.Counting? && s.procs[i].pc.ph.Copied? ==>
          s.procs[i].pc.ph.v == s.word + 1)
  }

  ghost predicate ShmInv(s: State) {
    && |s.procs| > 0
    && MasterOk(s.procs[0])
    && (forall i :: 0 < i < |s.procs| ==> SlaveOk(s.procs[i]))
    && ReaperOk(s)
    && SemaphoreOk(s)
    && CounterOk(s)
    && |AdmittedSet(s)| <= MAXCRTLVL
  }

  /** Mutual exclusion: while p holds the semaphore nobody else is in the critical section. */
  lemma OnlyHolder(s: State, p: nat)
    requires |s.procs| > 0 && SemaphoreOk(s) && Holds(s, p)
    ensures s.sem == 0
    ensures p != 0 ==> !Holds(s, 0)
    ensures forall i :: 0 < i < |s.procs| && i != p ==> !InSection(s.procs[i].pc)
  {
    forall i | 0 < i < |s.procs| && i != p
      ensures !InSection(s.procs[i].pc)
    {
      assert Holds(s, i) <==> InSection(s.procs[i].pc);
    }
  }

  /** `sem_wait` and `sem_signal` at p keep the semaphore count and the holders in step. */
  lemma SemaphoreStep(s: State, t: State, p: nat)
    requires SemaphoreOk(s)
    requires forall q :: q != p ==> Holds(t, q) == Holds(s, q)
    requires t.sem - s.sem == (if Holds(s, p) then 1 else 0) - (if Holds(t, p) then 1 else 0)
    requires Holds(t, p) && !Holds(s, p) ==> s.sem > 0
    ensures SemaphoreOk(t)
  {
  }

  /** Only process p moves, in its code and not in what has happened to it. */
  ghost predicate OnlyMoves(s: State, t: State, p: nat) {
    && p < |s.procs| && |t.procs| == |s.procs| && t.reaper == s.reaper && t.word == s.word
    && (forall i :: 0 <= i < |s.procs| && i != p ==> t.procs[i] == s.procs[i])
    && t.procs[p].counted == s.procs[p].counted && t.procs[p].uncounted == s.procs[p].uncounted
    && t.procs[p].reaped == s.procs[p].reaped
    && (if p == 0 then MasterOk(t.procs[p]) else SlaveOk(t.procs[p]))
  }

  lemma KeepsShm(s: State, t: State, p: nat)
    requires ShmInv(s) && OnlyMoves(s, t, p)
    requires SemaphoreOk(t) && |AdmittedSet(t)| <= MAXCRTLVL
    requires t.procs[p].pc.Counting? && t.procs[p].pc.ph.Copied? ==> t.procs[p].pc.ph.v == t.word + 1
    ensures ShmInv(t)
  {
    assert Active(t) == Active(s);
  }

  /** A step that stays outside the critical section. */
  lemma KeepsShmOutside(s: State, t: State, p: nat)
    requires ShmInv(s) && OnlyMoves(s, t, p) && t.sem == s.sem
    requires !InSection(s.procs[p].pc) && !InSection(t.procs[p].pc)
    requires Admitted(t.procs[p]) ==> Admitted(s.procs[p])
    ensures ShmInv(t)
  {
    SubsetSize(AdmittedSet(t), AdmittedSet(s));
    assert forall q :: Holds(t, q) == Holds(s, q);
    KeepsShm(s, t, p);
  }

  lemma GateKeepsShm(s: State, p: nat, ph: Phase)
    requires ShmInv(s) && 0 < p < |s.procs| && s.procs[p].pc == Gate(ph)
    requires RunGate(s, p, ph).Some?
    ensures ShmInv(RunGate(s, p, ph).value)
  {
    var t := RunGate(s, p, ph).value;
    assert OnlyMoves(s, t, p);
    SemaphoreStep(s, t, p);
    GateAdmits(s, t, p);
    KeepsShm(s, t, p);
  }

  /** The heart of the cap: a slave that reads a low counter finds itself and every slave admitted
      before it still counted, so the value it read bounds how many are admitted. */
  lemma GateAdmits(s: State, t: State, p: nat)
    requires ShmInv(s) && OnlyMoves(s, t, p) && p > 0
    requires s.procs[p].pc.Gate? && t.procs[p].passed == s.procs[p].passed
    requires t.procs[p].pc.Gate? && t.procs[p].pc.ph.Copied? ==> t.procs[p].pc.ph.v == s.word
    requires !(t.procs[p].pc.Gate? && t.procs[p].pc.ph.Copied?) && Admitted(t.procs[p]) ==> Admitted(s.procs[p])
    ensures |AdmittedSet(t)| <= MAXCRTLVL
  {
    if t.procs[p].pc.Gate? && t.procs[p].pc.ph.Copied? && s.word <= MAXCRTLVL {
      SubsetSize(AdmittedSet(t), Active(s));
    } else {
      SubsetSize(AdmittedSet(t), AdmittedSet(s));
    }
  }

  lemma CountingKeepsShm(s: State, p: nat, ph: Phase, resume: Pc)
    requires ShmInv(s) && 0 < p < |s.procs| && s.procs[p].pc == Counting(ph, resume)
    requires !ph.Copied? && RunCounting(s, p, ph, resume).Some?
    ensures ShmInv(RunCounting(s, p, ph, resume).value)
  {
    var t := RunCounting(s, p, ph, resume).value;
    assert OnlyMoves(s, t, p);
    SemaphoreStep(s, t, p);
    assert AdmittedSet(t) == AdmittedSet(s);
    KeepsShm(s, t, p);
  }

  /** The slave stores its increment: the counter and the number of active slaves both grow by 1. */
  lemma CountUpKeepsShm(s: State, p: nat, v: int, resume: Pc)
    requires ShmInv(s) && 0 < p < |s.procs| && s.procs[p].pc == Counting(Copied(v), resume)
    ensures ShmInv(RunCounting(s, p, Copied(v), resume).value)
  {
    var t := RunCounting(s, p, Copied(v), resume).value;
    assert Holds(s, p);
    OnlyHolder(s, p);
    SemaphoreStep(s, t, p);
    assert AdmittedSet(t) == AdmittedSet(s);
    assert p !in Active(s);
    assert Active(t) == Active(s) + {p};
  }

  lemma DiscountKeepsShm(s: State)
    requires ShmInv(s) && s.reaper.Discounting? && RunDiscount(s).Some?
    ensures ShmInv(RunDiscount(s).value)
  {
    var t := RunDiscount(s).value;
    var c := s.reaper.child;
    SemaphoreStep(s, t, 0);
    SubsetSize(AdmittedSet(t), AdmittedSet(s));
    if s.reaper.ph.Copied? {
      assert c in Active(s);
      assert Active(t) == Active(s) - {c};
      OnlyHolder(s, 0);
    } else {
      assert Active(t) == Active(s);
    }
  }

  lemma InterruptKeepsShm(s: State)
    requires ShmInv(s)
    ensures ShmInv(Interrupt(s))
  {
    if MidWrite(s) {
      KeepsShmOutside(s, CutShort(s, 0), 0);
    }
  }

  lemma ForkKeepsShm(s: State)
    requires ShmInv(s) && ResumePoint(s.procs[0].pc) && s.reaper == Idle
    ensures ShmInv(Fork(s))
  {
    var t := Fork(s);
    assert Active(t) == Active(s);
    assert AdmittedSet(t) == AdmittedSet(s);
    assert forall q :: Holds(t, q) == Holds(s, q);
  }

  lemma RunKeepsShm(s: State, p: nat, o: Outcome)
    requires ShmInv(s) && p < |s.procs| && RunProc(s, p, o).Some?
    ensures ShmInv(RunProc(s, p, o).value)
  {
    var pc := s.procs[p].pc;
    if pc.Gate? {
      GateKeepsShm(s, p, pc.ph);
    } else if pc.Counting? && pc.ph.Copied? {
      CountUpKeepsShm(s, p, pc.ph.v, pc.resume);
    } else if pc.Counting? {
      CountingKeepsShm(s, p, pc.ph, pc.resume);
    } else if pc == Accept {
      AcceptKeepsShm(s, p, o);
    } else if pc == Read || pc == Write {
      EchoKeepsShm(s, p, o);
    } else if pc.Test? {
      KeepsShmOutside(s, RunProc(s, p, o).value, p);
    } else {
      LoopKeepsShm(s, p, o);
    }
  }

  lemma AcceptKeepsShm(s: State, p: nat, o: Outcome)
    requires ShmInv(s) && p < |s.procs| && s.procs[p].pc == Accept && RunAccept(s, p, o).Some?
    ensures ShmInv(RunAccept(s, p, o).value)
  {
    KeepsShmOutside(s, RunAccept(s, p, o).value, p);
  }

  lemma EchoKeepsShm(s: State, p: nat, o: Outcome)
    requires ShmInv(s) && p < |s.procs| && (s.procs[p].pc == Read || s.procs[p].pc == Write)
    requires RunProc(s, p, o).Some?
    ensures ShmInv(RunProc(s, p, o).value)
  {
    KeepsShmOutside(s, RunProc(s, p, o).value, p);
  }

  lemma LoopKeepsShm(s: State, p: nat, o: Outcome)
    requires ShmInv(s) && p < |s.procs| && RunProc(s, p, o).Some?
    requires var pc := s.procs[p].pc;
             pc == Top || pc == Select || pc == Arm || pc == Close || pc == Clear || pc == Disarm || pc == Jump
    ensures ShmInv(RunProc(s, p, o).value)
  {
    KeepsShmOutside(s, RunProc(s, p, o).value, p);
  }

  // ----- The hand-over ------------------------------------------------------------------------

  /** The bytes read from the connection that the process has yet to write back. */
  ghost function Pending(q: Proc): (r: seq<byte>) {
    if Main(q.pc) == Write then q.buf else []
  }

  /** a comes from b by leaving out some of its elements. */
  ghost predicate Subsequence(a: seq<byte>, b: seq<byte>) {
    a == [] ||
    (b != [] && (Subsequence(a, b[..|b| - 1]) ||
                 (a[|a| - 1] == b[|b| - 1] && Subsequence(a[..|a| - 1], b[..|b| - 1]))))
  }

  lemma {:induction false} SubsequencePrefix(a: seq<byte>, x: seq<byte>, b: seq<byte>)
    requires Subsequence(a + x, b)
    ensures Subsequence(a, b)
  {
    if a != [] && x == [] {
      assert a + x == a;
    } else if a != [] {
      var c := b[..|b| - 1];
      if Subsequence(a + x, c) {
        SubsequencePrefix(a, x, c);
      } else {
        assert (a + x)[..|a + x| - 1] == a + x[..|x| - 1];
        SubsequencePrefix(a, x[..|x| - 1], c);
      }
    }
  }

  lemma {:induction false} SubsequenceAppend(a: seq<byte>, b: seq<byte>, x: seq<byte>)
    requires Subsequence(a, b)
    ensures Subsequence(a + x, b + x)
  {
    if x == [] {
      assert a + x == a && b + x == b;
    } else {
      SubsequenceAppend(a, b, x[..|x| - 1]);
      assert (a + x)[..|a + x| - 1] == a + x[..|x| - 1];
      assert (b + x)[..|b + x| - 1] == b + x[..|x| - 1];
    }
  }

  /** The account of a connection that a process serves: every byte received has been echoed, is pending,
      or was left behind by a short write. */
  ghost predicate Tally(c: Conn, pending: seq<byte>) {
    && |c.echoed| + |pending| + c.dropped == |c.received|
    && (c.shorts == 0 <==> c.dropped == 0)
    && (c.shorts == 0 ==> c.echoed + pending == c.received)
    && Subsequence(c.echoed + pending, c.received)
  }

  /** What remains true of a connection whatever becomes of it. */
  ghost predicate Echo(c: Conn) {
    && |c.echoed| + c.dropped <= |c.received|
    && (c.shorts == 0 ==> c.echoed <= c.received)
    && Subsequence(c.echoed, c.received)
  }

  lemma ReadTallies(c: Conn, data: seq<byte>)
    requires Tally(c, [])
    ensures Tally(c.(received := c.received + data), data)
  {
    assert c.echoed + [] == c.echoed;
    SubsequenceAppend(c.echoed, c.received, data);
  }

  lemma WriteTallies(c: Conn, buf: seq<byte>, n: nat)
    requires Tally(c, buf) && n <= |buf|
    ensures Tally(c.(echoed := c.echoed + buf[..n]), buf[n..])
  {
    assert c.echoed + buf == c.echoed + buf[..n] + buf[n..];
  }

  lemma CutTallies(c: Conn, buf: seq<byte>)
    requires Tally(c, buf) && buf != []
    ensures Tally(c.(shorts := c.shorts + 1, dropped := c.dropped + |buf|), [])
  {
    SubsequencePrefix(c.echoed, buf, c.received);
    assert c.echoed + [] == c.echoed;
  }

  ghost predicate ServingOk(s: State, p: nat)
    requires p < |s.procs|
  {
    var q := s.procs[p];
    EchoPoint(Main(q.pc)) ==>
      var k := q.ssock - 1;
      && 0 <= k < |s.conns|
      && s.conns[k].fate == Unfinished
      && (p, k) in s.open
      && Tally(s.conns[k], Pending(q))
      && (Main(q.pc) == Write ==> q.buf != [])
  }

  /** A process has a descriptor open only while it handles that connection. */
  ghost predicate MayBeOpen(q: Proc, k: int) {
    0 <= k && q.ssock == k + 1 && (EchoPoint(Main(q.pc)) || Main(q.pc) == Close || q.pc == Jump)
  }

  ghost predicate ConnOk(s: State, k: int)
    requires 0 <= k < |s.conns|
  {
    && (s.conns[k].fate == Unfinished ==> exists p: nat :: Serves(s, p, k))
    && (s.conns[k].fate == Finished ==> Tally(s.conns[k], []))
    && Echo(s.conns[k])
  }

  ghost predicate AlarmOk(s: State)
    requires |s.procs| > 0
  {
    && (s.alarm ==> ResumePoint(s.procs[0].pc))
    && |s.procs| - 1 + (if s.alarm || s.procs[0].pc == Arm then 1 else 0) <= s.masterAccepts
    && (s.reaper != Idle ==> s.procs[0].pc != Jump && s.procs[0].pc != Exited)
  }

  ghost predicate HandInv(s: State) {
    && |s.procs| > 0
    && (forall p: nat :: p < |s.procs| ==> ServingOk(s, p))
    && (forall p: nat, q: nat, k: int :: Serves(s, p, k) && Serves(s, q, k) ==> p == q)
    && (forall k :: 0 <= k < |s.conns| ==> ConnOk(s, k))
    && (forall d :: d in s.open ==> 0 <= d.0 < |s.procs| && MayBeOpen(s.procs[d.0], d.1))
    && AlarmOk(s)
  }

  /** A step of process p that leaves connections and descriptors alone and does not change which
      connection p serves. */
  lemma KeepsHandQuiet(s: State, t: State, p: nat)
    requires HandInv(s) && p < |s.procs| && |t.procs| == |s.procs|
    requires forall i :: 0 <= i < |s.procs| && i != p ==> t.procs[i] == s.procs[i]
    requires t.conns == s.conns && t.open == s.open
    requires EchoPoint(Main(t.procs[p].pc)) <==> EchoPoint(Main(s.procs[p].pc))
    requires EchoPoint(Main(t.procs[p].pc)) ==>
               && t.procs[p].ssock == s.procs[p].ssock && t.procs[p].buf == s.procs[p].buf
               && (Main(t.procs[p].pc) == Write <==> Main(s.procs[p].pc) == Write)
    requires forall k :: MayBeOpen(s.procs[p], k) ==> MayBeOpen(t.procs[p], k)
    requires AlarmOk(t)
    ensures HandInv(t)
  {
    assert forall q, k :: Serves(t, q, k) == Serves(s, q, k);
    forall k | 0 <= k < |t.conns| ensures ConnOk(t, k) {
      assert ConnOk(s, k);
    }
    forall q: nat | q < |t.procs| ensures ServingOk(t, q) {
      assert ServingOk(s, q);
    }
  }

  lemma ExitKeepsConns(s: State, p: nat, k: int)
    requires HandInv(s) && p < |s.procs| && 0 <= k < |s.conns|
    requires forall q, k :: Serves(Exit(s, p), q, k) <==> q != p && Serves(s, q, k)
    ensures ConnOk(Exit(s, p), k)
  {
    var t := Exit(s, p);
    assert ConnOk(s, k) && ServingOk(s, p);
    if t.conns[k].fate == Unfinished {
      var w: nat :| Serves(s, w, k);
      assert w != p;
      assert Serves(t, w, k);
    }
  }

  lemma ExitKeepsHand(s: State, p: nat)
    requires HandInv(s) && p < |s.procs| && (p == 0 ==> s.reaper == Idle)
    ensures HandInv(Exit(s, p))
  {
    var t := Exit(s, p);
    assert forall q, k :: Serves(t, q, k) == (q != p && Serves(s, q, k));
    forall k | 0 <= k < |t.conns| ensures ConnOk(t, k) {
      ExitKeepsConns(s, p, k);
    }
    forall q: nat | q < |t.procs| ensures ServingOk(t, q) {
      assert ServingOk(s, q);
      if q != p && EchoPoint(Main(t.procs[q].pc)) {
        assert Serves(s, q, t.procs[q].ssock - 1);
      }
    }
    forall d | d in t.open ensures 0 <= d.0 < |t.procs| && MayBeOpen(t.procs[d.0], d.1) {
      assert d !in Descriptors(s, p);
    }
  }

  /** The new connection is served by p, which served none. */
  lemma AcceptServers(s: State, p: nat)
    requires HandInv(s) && p < |s.procs| && s.procs[p].pc == Accept
    ensures var t, n := RunAccept(s, p, Ok).value, |s.conns|;
            && (forall q, k :: Serves(t, q, k) <==> if q == p then k == n else Serves(s, q, k))
            && (forall q, k :: Serves(s, q, k) ==> q != p && 0 <= k < n)
  {
    forall q, k | Serves(s, q, k) ensures q != p && 0 <= k < |s.conns| {
      assert ServingOk(s, q);
    }
  }

  lemma AcceptKeepsConns(s: State, p: nat, k: int)
    requires HandInv(s) && p < |s.procs| && s.procs[p].pc == Accept && 0 <= k <= |s.conns|
    ensures ConnOk(RunAccept(s, p, Ok).value, k)
  {
    var t := RunAccept(s, p, Ok).value;
    if k == |s.conns| {
      assert Serves(t, p, k);
    } else {
      assert ConnOk(s, k);
      if t.conns[k].fate == Unfinished {
        var w: nat :| Serves(s, w, k);
        assert Serves(t, w, k);
      }
    }
  }

  lemma AcceptKeepsHand(s: State, p: nat)
    requires HandInv(s) && p < |s.procs| && s.procs[p].pc == Accept && (p == 0 ==> s.reaper == Idle)
    ensures HandInv(RunAccept(s, p, Ok).value)
  {
    var t := RunAccept(s, p, Ok).value;
    AcceptServers(s, p);
    forall k | 0 <= k < |t.conns| ensures ConnOk(t, k) {
      AcceptKeepsConns(s, p, k);
    }
    forall q: nat | q < |t.procs| ensures ServingOk(t, q) {
      assert ServingOk(s, q);
    }
  }

  /** A read, a write or the end of the stream at process p, which serves connection k. */
  lemma EchoKeepsHand(s: State, t: State, p: nat, k: int)
    requires HandInv(s) && Serves(s, p, k) && 0 <= k < |s.conns|
    requires |t.procs| == |s.procs| && |t.conns| == |s.conns| && t.open == s.open
    requires t.masterAccepts == s.masterAccepts
    requires forall i :: 0 <= i < |s.procs| && i != p ==> t.procs[i] == s.procs[i]
    requires forall i :: 0 <= i < |s.conns| && i != k ==> t.conns[i] == s.conns[i]
    requires t.procs[p].ssock == s.procs[p].ssock
    requires EchoPoint(t.procs[p].pc) || t.procs[p].pc == Close
    requires EchoPoint(t.procs[p].pc) <==> t.conns[k].fate == Unfinished
    requires Tally(t.conns[k], Pending(t.procs[p]))
    requires t.procs[p].pc == Write ==> t.procs[p].buf != []
    requires t.procs[p].pc == Close ==> t.conns[k].fate == Finished && Pending(t.procs[p]) == []
    requires AlarmOk(t)
    ensures HandInv(t)
  {
    assert ServingOk(s, p);
    SubsequencePrefix(t.conns[k].echoed, Pending(t.procs[p]), t.conns[k].received);
    assert forall q, j :: q != p ==> Serves(t, q, j) == Serves(s, q, j);
    assert forall j :: Serves(t, p, j) ==> j == k;
    forall j | 0 <= j < |t.conns| ensures ConnOk(t, j) {
      assert ConnOk(s, j);
      if t.conns[j].fate == Unfinished {
        if j == k {
          assert Serves(t, p, k);
        } else {
          var w: nat :| Serves(s, w, j);
          assert w != p;
          assert Serves(t, w, j);
        }
      }
    }
    forall q: nat | q < |t.procs| ensures ServingOk(t, q) {
      assert ServingOk(s, q);
      if q != p && EchoPoint(Main(t.procs[q].pc)) {
        assert Serves(s, q, t.procs[q].ssock - 1);
      }
    }
  }

  /** After the fork the slave serves what the master served, and nobody else changes. */
  lemma ForkServers(s: State)
    requires |s.procs| > 0 && ResumePoint(s.procs[0].pc)
    ensures var t := Fork(s);
            forall q: nat, k: int :: Serves(t, q, k) <==>
              (if q == |s.procs| then Serves(s, 0, k) else q != 0 && Serves(s, q, k))
  {
  }

  lemma ForkKeepsDescriptors(s: State)
    requires HandInv(s) && s.alarm && s.reaper == Idle
    ensures var t := Fork(s);
            && (forall d :: d in t.open ==> 0 <= d.0 < |t.procs| && MayBeOpen(t.procs[d.0], d.1))
            && s.open <= t.open
            && (forall k :: (0, k) in s.open ==> (|s.procs|, k) in t.open)
  {
    var t := Fork(s);
    var child := |s.procs|;
    forall d | d in t.open ensures 0 <= d.0 < |t.procs| && MayBeOpen(t.procs[d.0], d.1) {
      if d !in s.open {
        assert (0, d.1) in s.open;
      }
    }
    forall k | (0, k) in s.open ensures (child, k) in t.open {
      assert (0, k) in Descriptors(s, 0);
    }
  }

  lemma ForkKeepsHand(s: State)
    requires HandInv(s) && s.alarm && s.reaper == Idle
    ensures HandInv(Fork(s))
  {
    var t := Fork(s);
    var child := |s.procs|;
    ForkServers(s);
    ForkKeepsDescriptors(s);
    forall k | 0 <= k < |t.conns| ensures ConnOk(t, k) {
      assert ConnOk(s, k);
      if t.conns[k].fate == Unfinished {
        var w: nat :| Serves(s, w, k);
        assert Serves(t, if w == 0 then child else w, k);
      }
    }
    forall q: nat | q < |t.procs| ensures ServingOk(t, q) {
      assert ServingOk(s, if q == child then 0 else q);
    }
  }

  lemma CutKeepsHand(s: State, p: nat)
    requires HandInv(s) && p < |s.procs| && s.procs[p].pc == Write && 0 <= s.procs[p].ssock - 1 < |s.conns|
    ensures HandInv(CutShort(s, p))
  {
    assert ServingOk(s, p);
    var k := s.procs[p].ssock - 1;
    assert Serves(s, p, k);
    CutTallies(s.conns[k], s.procs[p].buf);
    EchoKeepsHand(s, CutShort(s, p), p, k);
  }

  lemma InterruptKeepsHand(s: State)
    requires HandInv(s)
    ensures HandInv(Interrupt(s))
  {
    if MidWrite(s) {
      CutKeepsHand(s, 0);
    }
  }

  /** Process p closes the connection it has stopped serving. */
  lemma CloseKeepsHand(s: State, p: nat)
    requires HandInv(s) && p < |s.procs| && (s.procs[p].pc == Close || s.procs[p].pc == Jump)
    requires p == 0 ==> s.reaper == Idle
    ensures HandInv(RunProc(s, p, Ok).value)
  {
    var t := RunProc(s, p, Ok).value;
    var e := (p, s.procs[p].ssock - 1);
    forall d | d in t.open ensures 0 <= d.0 < |t.procs| && MayBeOpen(t.procs[d.0], d.1) {
      assert d.0 != p || d == e;
    }
    ClosedHand(s, t, p);
  }

  lemma ClosedHand(s: State, t: State, p: nat)
    requires HandInv(s) && p < |s.procs| && |t.procs| == |s.procs| && t.conns == s.conns
    requires !EchoPoint(Main(s.procs[p].pc)) && !EchoPoint(Main(t.procs[p].pc))
    requires forall i :: 0 <= i < |s.procs| && i != p ==> t.procs[i] == s.procs[i]
    requires forall d :: d in s.open && d.0 != p ==> d in t.open
    requires forall d :: d in t.open ==> 0 <= d.0 < |t.procs| && MayBeOpen(t.procs[d.0], d.1)
    requires AlarmOk(t)
    ensures HandInv(t)
  {
    assert forall q, k :: Serves(t, q, k) == Serves(s, q, k);
    forall k | 0 <= k < |t.conns| ensures ConnOk(t, k) {
      assert ConnOk(s, k);
    }
    forall q: nat | q < |t.procs| ensures ServingOk(t, q) {
      assert ServingOk(s, q);
    }
  }

  lemma QuietKeepsHand(s: State, p: nat, o: Outcome)
    requires ShmInv(s) && HandInv(s) && p < |s.procs| && RunProc(s, p, o).Some?
    requires p == 0 ==> s.reaper == Idle
    requires var pc := s.procs[p].pc;
             || pc == Top || pc == Clear || pc == Arm || pc == Disarm
             || (pc.Test? && pc.n <= MAXCRTLVL) || (pc == Select && o.Ok?) || (pc == Accept && o == Interrupted)
    ensures HandInv(RunProc(s, p, o).value)
  {
    KeepsHandQuiet(s, RunProc(s, p, o).value, p);
  }

  lemma GateKeepsHand(s: State, p: nat, ph: Phase)
    requires HandInv(s) && 0 < p < |s.procs| && s.procs[p].pc == Gate(ph) && RunGate(s, p, ph).Some?
    ensures HandInv(RunGate(s, p, ph).value)
  {
    KeepsHandQuiet(s, RunGate(s, p, ph).value, p);
  }

  lemma CountingKeepsHand(s: State, p: nat, ph: Phase, resume: Pc)
    requires HandInv(s) && 0 < p < |s.procs| && s.procs[p].pc == Counting(ph, resume)
    requires ResumePoint(resume) && RunCounting(s, p, ph, resume).Some?
    ensures HandInv(RunCounting(s, p, ph, resume).value)
  {
    KeepsHandQuiet(s, RunCounting(s, p, ph, resume).value, p);
  }

  lemma ReadKeepsHand(s: State, p: nat, o: Outcome)
    requires HandInv(s) && p < |s.procs| && s.procs[p].pc == Read && RunRead(s, p, o).Some?
    requires o != Fail && o != Interrupted
    ensures HandInv(RunRead(s, p, o).value)
  {
    assert ServingOk(s, p);
    var k := s.procs[p].ssock - 1;
    assert Serves(s, p, k);
    if o.Data? {
      ReadTallies(s.conns[k], o.bytes);
    }
    EchoKeepsHand(s, RunRead(s, p, o).value, p, k);
  }

  /** A write that completes, or moves some bytes and goes on. */
  lemma WriteKeepsHand(s: State, p: nat, o: Outcome)
    requires HandInv(s) && p < |s.procs| && s.procs[p].pc == Write && RunWrite(s, p, o).Some?
    requires o.Ok? || o.Moves?
    ensures HandInv(RunWrite(s, p, o).value)
  {
    assert ServingOk(s, p);
    var k, buf := s.procs[p].ssock - 1, s.procs[p].buf;
    assert Serves(s, p, k);
    var n := if o.Moves? then o.n else |buf|;
    WriteTallies(s.conns[k], buf, n);
    assert buf[..|buf|] == buf && buf[|buf|..] == [];
    EchoKeepsHand(s, RunWrite(s, p, o).value, p, k);
  }

  lemma EchoLoopKeepsHand(s: State, p: nat, o: Outcome)
    requires HandInv(s) && p < |s.procs| && (s.procs[p].pc == Read || s.procs[p].pc == Write)
    requires RunProc(s, p, o).Some? && (p == 0 ==> s.reaper == Idle)
    ensures HandInv(RunProc(s, p, o).value)
  {
    var pc := s.procs[p].pc;
    if pc == Read && o == Interrupted {
    } else if pc == Read && o != Fail {
      ReadKeepsHand(s, p, o);
    } else if pc == Write && (o.Ok? || o.Moves?) {
      WriteKeepsHand(s, p, o);
    } else if pc == Write && s.procs[p].begun {
      CutKeepsHand(s, p);
    } else {
      ExitKeepsHand(s, p);
    }
  }

  lemma RunKeepsHand(s: State, p: nat, o: Outcome)
    requires ShmInv(s) && HandInv(s) && p < |s.procs| && RunProc(s, p, o).Some?
    requires p == 0 ==> s.reaper == Idle
    ensures HandInv(RunProc(s, p, o).value)
  {
    var pc := s.procs[p].pc;
    if pc.Gate? {
      GateKeepsHand(s, p, pc.ph);
    } else if pc.Counting? {
      CountingKeepsHand(s, p, pc.ph, pc.resume);
    } else if pc == Close || pc == Jump {
      CloseKeepsHand(s, p);
    } else if pc == Accept && o == Ok {
      AcceptKeepsHand(s, p);
    } else if pc == Read || pc == Write {
      EchoLoopKeepsHand(s, p, o);
    } else if pc == Top || pc == Clear || pc == Arm || pc == Disarm
           || (pc.Test? && pc.n <= MAXCRTLVL) || (pc == Select && o.Ok?) || (pc == Accept && o == Interrupted) {
      QuietKeepsHand(s, p, o);
    } else {
      ExitKeepsHand(s, p);
    }
  }

  lemma StepKeeps(s: State, e: Event)
    requires ShmInv(s) && HandInv(s) && Step(s, e).Some?
    ensures ShmInv(Step(s, e).value) && HandInv(Step(s, e).value)
  {
    var t := Step(s, e).value;
    match e
    case Run(p, o) =>
      RunKeepsShm(s, p, o);
      RunKeepsHand(s, p, o);
    case Alarm(forked) =>
      var u := Interrupt(s);
      InterruptKeepsShm(s);
      InterruptKeepsHand(s);
      if forked {
        ForkKeepsShm(u);
        ForkKeepsHand(u);
      } else {
        KeepsShmOutside(u, t, 0);
        ExitKeepsHand(u, 0);
      }
    case _ =>
      ReaperKeeps(s, e);
  }

  /** The reaper touches only the counter and its own records of the slaves. */
  lemma ReaperKeepsHand(s: State, t: State)
    requires HandInv(s) && |t.procs| == |s.procs|
    requires t.conns == s.conns && t.open == s.open && t.alarm == s.alarm && t.masterAccepts == s.masterAccepts
    requires forall i :: 0 <= i < |s.procs| ==>
               t.procs[i].pc == s.procs[i].pc && t.procs[i].ssock == s.procs[i].ssock && t.procs[i].buf == s.procs[i].buf
    requires t.reaper != Idle ==> s.procs[0].pc != Jump && s.procs[0].pc != Exited
    ensures HandInv(t)
  {
    assert forall q: nat, k: int :: Serves(t, q, k) == Serves(s, q, k);
    forall k | 0 <= k < |t.conns| ensures ConnOk(t, k) {
      assert ConnOk(s, k);
    }
    forall q: nat | q < |t.procs| ensures ServingOk(t, q) {
      assert ServingOk(s, q);
    }
  }

  lemma DiscountKeepsHand(s: State)
    requires HandInv(s) && s.reaper.Discounting? && s.reaper.child < |s.procs| && RunDiscount(s).Some?
    ensures HandInv(RunDiscount(s).value)
  {
    ReaperKeepsHand(s, RunDiscount(s).value);
  }

  lemma ReaperKeepsShm(s: State, e: Event)
    requires ShmInv(s) && Step(s, e).Some? && (e.ChildSignal? || e.Wait3? || e.ReaperReturn?)
    ensures ShmInv(Step(s, e).value)
  {
    var t := Step(s, e).value;
    assert Active(t) == Active(s);
    assert AdmittedSet(t) == AdmittedSet(s);
    SemaphoreStep(s, t, 0);
  }

  lemma ReaperKeeps(s: State, e: Event)
    requires ShmInv(s) && HandInv(s) && Step(s, e).Some? && !e.Run? && !e.Alarm?
    ensures ShmInv(Step(s, e).value) && HandInv(Step(s, e).value)
  {
    if e == RunReaper {
      DiscountKeepsShm(s);
      DiscountKeepsHand(s);
    } else {
      ReaperKeepsShm(s, e);
      ReaperKeepsHand(s, Step(s, e).value);
    }
  }

  lemma {:induction false} RunKeeps(es: seq<Event>)
    requires Exec(Init, es).Some?
    ensures ShmInv(Exec(Init, es).value) && HandInv(Exec(Init, es).value)
  {
    if es == [] {
      assert Active(Init) == {};
      assert AdmittedSet(Init) == {};
      assert !Holds(Init, 0);
    } else {
      RunKeeps(es[..|es| - 1]);
      StepKeeps(Exec(Init, es[..|es| - 1]).value, es[|es| - 1]);
    }
  }

  // ----- Main results -------------------------------------------------------------------------

  /** The slaves that have ever passed the gate and are not yet counted down. */
  ghost function Passed(s: State): (r: set<nat>) {
    set i: nat | i < |s.procs| && s.procs[i].passed && !s.procs[i].uncounted
  }

  /** Over every interleaving, at most MAXCRTLVL slaves have ever passed the gate and are not yet
      counted down, although reading the counter, testing the value and incrementing are separate. */
  lemma ConcurrencyCap(es: seq<Event>, s: State)
    requires Exec(Init, es) == Some(s)
    ensures |Passed(s)| <= MAXCRTLVL
  {
    RunKeeps(es);
    SubsetSize(Passed(s), AdmittedSet(s));
  }

  /** What the counter counts: the slaves past the gate, of which there are at most MAXCRTLVL, and the
      active slaves that have never passed it, which make up all the rest. */
  lemma BeyondTheCap(es: seq<Event>, s: State)
    requires Exec(Init, es) == Some(s)
    ensures s.word == |Passed(s)| + |Active(s) - Passed(s)|
    ensures |Active(s) - Passed(s)| >= s.word - MAXCRTLVL
  {
    RunKeeps(es);
    ConcurrencyCap(es, s);
    assert Passed(s) <= Active(s);
    assert Active(s) == Passed(s) + (Active(s) - Passed(s));
  }

  /** Over every interleaving the semaphore and its holders add up to one, and the counter equals the
      number of slaves counted up and not yet counted down. */
  lemma CounterIsExact(es: seq<Event>, s: State)
    requires Exec(Init, es) == Some(s)
    ensures s.sem == 0 || s.sem == 1
    ensures s.sem == 1 <==> forall p: nat :: !Holds(s, p)
    ensures forall p: nat, q: nat :: Holds(s, p) && Holds(s, q) ==> p == q
    ensures s.word == |Active(s)|
    ensures forall p :: 0 <= p < |s.procs| && s.procs[p].reaped && !s.procs[p].uncounted ==>
              s.reaper.Discounting? && s.reaper.child == p
  {
    RunKeeps(es);
  }

  /** Over every interleaving a connection that is neither finished nor abandoned is echoed by exactly
      one process, which has its descriptor open, and any other connection by none. */
  lemma OneServerEach(es: seq<Event>, s: State, k: nat)
    requires Exec(Init, es) == Some(s) && k < |s.conns|
    ensures s.conns[k].fate == Unfinished <==> exists p: nat :: Serves(s, p, k)
    ensures forall p: nat, q: nat :: Serves(s, p, k) && Serves(s, q, k) ==> p == q
    ensures forall p: nat :: Serves(s, p, k) ==> (p, k as int) in s.open
  {
    RunKeeps(es);
    ServersOf(s, k);
  }

  lemma ServersOf(s: State, k: nat)
    requires HandInv(s) && k < |s.conns|
    ensures s.conns[k].fate == Unfinished <==> exists p: nat :: Serves(s, p, k)
    ensures forall p: nat, q: nat :: Serves(s, p, k) && Serves(s, q, k) ==> p == q
    ensures forall p: nat :: Serves(s, p, k) ==> (p, k as int) in s.open
  {
    assert ConnOk(s, k);
    forall p: nat | Serves(s, p, k)
      ensures s.conns[k].fate == Unfinished && (p, k as int) in s.open
    {
      assert ServingOk(s, p);
    }
  }

  /** What the peer gets back, in every run and across any number of hand-overs: its own bytes in order
      and without repetition, less those that short writes left behind.  At every point each byte
      received has been echoed, is pending in the server, or was left behind; and nothing is missing
      exactly when no write on the connection came back short, which the program does not test. */
  lemma EchoIntact(es: seq<Event>, s: State, k: nat)
    requires Exec(Init, es) == Some(s) && k < |s.conns|
    ensures var c := s.conns[k];
            && Subsequence(c.echoed, c.received)
            && |c.echoed| + c.dropped <= |c.received|
            && (c.fate == Finished ==>
                  |c.echoed| + c.dropped == |c.received| && (c.echoed == c.received <==> c.shorts == 0))
            && (forall p: nat :: Serves(s, p, k) ==>
                  && |c.echoed| + |Pending(s.procs[p])| + c.dropped == |c.received|
                  && (c.echoed + Pending(s.procs[p]) == c.received <==> c.shorts == 0))
  {
    RunKeeps(es);
    EchoOf(s, k);
  }

  lemma EchoOf(s: State, k: nat)
    requires HandInv(s) && k < |s.conns|
    ensures Echo(s.conns[k])
    ensures s.conns[k].fate == Finished ==> Tally(s.conns[k], [])
    ensures forall p: nat :: Serves(s, p, k) ==> Tally(s.conns[k], Pending(s.procs[p]))
  {
    assert ConnOk(s, k);
    forall p: nat | Serves(s, p, k) ensures Tally(s.conns[k], Pending(s.procs[p])) {
      assert ServingOk(s, p);
    }
  }

  /** The alarm is pending only between arming and `alarm(0)`: the master is never in `accept` with an
      alarm pending, and it never forks more often than it accepts. */
  lemma AlarmDiscipline(es: seq<Event>, s: State)
    requires Exec(Init, es) == Some(s)
    ensures 0 < |s.procs| <= s.masterAccepts + 1
    ensures |s.procs| > 0 && s.alarm ==> ResumePoint(s.procs[0].pc)
    ensures |s.procs| > 0 && s.procs[0].pc == Accept ==> !s.alarm
  {
    RunKeeps(es);
  }

  /** No process leaks a descriptor: it has open at most the connection it is handling. */
  lemma DescriptorsTidy(es: seq<Event>, s: State, d: (nat, int))
    requires Exec(Init, es) == Some(s) && d in s.open
    ensures d.0 < |s.procs| && MayBeOpen(s.procs[d.0], d.1)
  {
    RunKeeps(es);
  }

  /** A timeout moves the connection the master echoes to exactly one process, the new slave; no other
      connection changes hands.  The slave takes over the bytes the master had read and not begun to
      write; if the alarm comes in the middle of a write, the rest of the buffer is dropped. */
  lemma TimeoutHandsOver(es: seq<Event>, s: State, t: State)
    requires Exec(Init, es) == Some(s) && Step(s, Alarm(true)) == Some(t)
    ensures |t.procs| == |s.procs| + 1 && !t.alarm
    ensures forall q: nat, k: int :: Serves(t, q, k) <==>
              if q == |s.procs| then Serves(s, 0, k) else q != 0 && Serves(s, q, k)
    ensures Pending(t.procs[|s.procs|]) == if MidWrite(s) then [] else Pending(s.procs[0])
    ensures t.conns == if MidWrite(s) then LessPending(s) else s.conns
    ensures MidWrite(s) ==> Pending(s.procs[0]) != []
  {
    RunKeeps(es);
    ServersHandedOver(s);
    BytesHandedOver(s);
  }

  /** The connections once what the master has pending is left behind. */
  ghost function LessPending(s: State): seq<Conn>
    requires MidWrite(s)
  {
    var k, n := s.procs[0].ssock - 1, |Pending(s.procs[0])|;
    var c := s.conns[k];
    s.conns[k := c.(shorts := c.shorts + 1, dropped := c.dropped + n)]
  }

  lemma ServersHandedOver(s: State)
    requires |s.procs| > 0 && ResumePoint(s.procs[0].pc)
    ensures var t := Fork(Interrupt(s));
            forall q: nat, k: int :: Serves(t, q, k) <==>
              if q == |s.procs| then Serves(s, 0, k) else q != 0 && Serves(s, q, k)
  {
    var u := Interrupt(s);
    assert forall q: nat, k: int :: Serves(u, q, k) == Serves(s, q, k);
    ForkServers(u);
  }

  lemma BytesHandedOver(s: State)
    requires HandInv(s) && ResumePoint(s.procs[0].pc)
    ensures var t := Fork(Interrupt(s));
            && |t.procs| == |s.procs| + 1
            && Pending(t.procs[|s.procs|]) == (if MidWrite(s) then [] else Pending(s.procs[0]))
            && t.conns == (if MidWrite(s) then LessPending(s) else s.conns)
    ensures MidWrite(s) ==> Pending(s.procs[0]) != []
  {
    assert ServingOk(s, 0);
  }
}
