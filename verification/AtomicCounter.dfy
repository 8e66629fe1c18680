/** Processes that count requests with one locked read-modify-write each, and shut down when the
    count passes a limit (exc_15_udp_shm2.c over glb_shm_obj.c).

    There are any number of processes, all serving the same socket; process 0 is the master, which
    on shutdown also kills the others.  A killed process may die while it holds the semaphore. */
module AtomicCounter {
  import opened Basics
  import opened Runs
  import opened SharedMemory

  const LIMIT := 5

  /** The statement a process executes next: waiting for a request; inside `update_glb_data`; testing
      the count it got back; killing the others one by one; replying.  A dead process remembers whether it died
      holding the semaphore. */
  datatype Pc =
    | Recv
    | Wait | Holding | Copied(v: int) | Stored(v: int)
    | Check(v: int)
    | KillOthers(next: nat)
    | Reply(v: int)
    | Dead(holding: bool)

  /** `returned` lists the results of completed `update_glb_data` calls in order of completion, and
      `replies` the counts of the requests that were answered. */
  datatype State = State(procs: seq<Pc>, sem: int, word: int, returned: seq<int>, replies: seq<int>)

  /** Process p executes its next statement; `ok` says whether a network call succeeds. */
  datatype Event = Run(p: nat, ok: bool)

  function Init(n: nat): State {
    State(seq(n, i => Recv), Created.sem, Created.word, [], [])
  }

  predicate InSection(pc: Pc) {
    pc == Holding || pc.Copied? || pc.Stored? || pc == Dead(true)
  }

  function Kill(pc: Pc): Pc {
    if pc.Dead? then pc else Dead(InSection(pc))
  }

  function Step(s: State, e: Event): Option<State> {
    var p := e.p;
    if p >= |s.procs| then None
    else
      match s.procs[p]
      case Recv => Some(s.(procs := s.procs[p := if e.ok then Wait else Dead(false)]))
      case Wait =>
        if Waited(s.sem).Some? then Some(s.(procs := s.procs[p := Holding], sem := Waited(s.sem).value)) else None
      case Holding => Some(s.(procs := s.procs[p := Copied(Incremented(s.word))]))
      case Copied(v) => Some(s.(procs := s.procs[p := Stored(v)], word := v))
      case Stored(v) =>
        Some(s.(procs := s.procs[p := Check(v)], sem := Signalled(s.sem), returned := s.returned + [v]))
      case Check(v) =>
        Some(s.(procs := s.procs[p := if v > LIMIT then (if p == 0 then KillOthers(1) else Dead(false)) else Reply(v)]))
      case KillOthers(i) =>
        Some(s.(procs := if p < i < |s.procs| then s.procs[i := Kill(s.procs[i])][p := KillOthers(i + 1)]
                         else s.procs[p := Dead(false)]))
      case Reply(v) =>
        Some(if e.ok then s.(procs := s.procs[p := Recv], replies := s.replies + [v])
             else s.(procs := s.procs[p := Dead(false)]))
      case Dead(_) => None
  }

  function Exec(s: State, es: seq<Event>): Option<State> {
    After(Step, s, es)
  }

  function View(s: State): Shm {
    Shm(s.sem, s.word)
  }

  // ----- Invariant ----------------------------------------------------------------------------

  ghost predicate OneTo(vs: seq<int>) {
    forall i :: 0 <= i < |vs| ==> vs[i] == i + 1
  }

  /** The count of the request that a process has counted and not answered yet, or 0. */
  ghost function Owned(pc: Pc): int {
    if pc.Check? || pc.Reply? then pc.v else 0
  }

  ghost predicate LockInv(s: State) {
    && 0 <= s.sem <= 1
    && (s.sem == 1 ==> forall p :: 0 <= p < |s.procs| ==> !InSection(s.procs[p]))
    && (s.sem == 0 ==> exists p :: 0 <= p < |s.procs| && InSection(s.procs[p]))
    && (forall p, q :: 0 <= p < |s.procs| && 0 <= q < |s.procs| && InSection(s.procs[p]) && InSection(s.procs[q])
          ==> p == q)
  }

  ghost predicate CountInv(s: State) {
    && OneTo(s.returned)
    && |s.returned| <= s.word <= |s.returned| + 1
    && (s.word == |s.returned| + 1 ==> exists p :: 0 <= p < |s.procs| && InSection(s.procs[p]))
    && (forall p :: 0 <= p < |s.procs| ==>
          && (s.procs[p] == Holding || s.procs[p].Copied? ==> s.word == |s.returned|)
          && (s.procs[p].Copied? ==> s.procs[p].v == s.word + 1)
          && (s.procs[p].Stored? ==> s.procs[p].v == s.word == |s.returned| + 1))
  }

  ghost predicate ReplyInv(s: State) {
    && (forall p :: 0 <= p < |s.procs| ==>
          (s.procs[p].Check? || s.procs[p].Reply? ==> 0 < Owned(s.procs[p]) <= |s.returned|) &&
          Owned(s.procs[p]) !in s.replies)
    && (forall p, q :: 0 <= p < |s.procs| && 0 <= q < |s.procs| && Owned(s.procs[p]) == Owned(s.procs[q]) != 0
          ==> p == q)
    && (forall p :: 0 <= p < |s.procs| && s.procs[p].Reply? ==> s.procs[p].v <= LIMIT)
    && (forall i :: 0 <= i < |s.replies| ==> 0 < s.replies[i] <= LIMIT && s.replies[i] <= |s.returned|)
    && 0 !in s.replies
    && (forall i, j :: 0 <= i < j < |s.replies| ==> s.replies[i] != s.replies[j])
  }

  ghost predicate Inv(s: State) {
    LockInv(s) && CountInv(s) && ReplyInv(s)
  }

  /** Killing changes nobody's hold on the semaphore. */
  lemma KillKeepsLock(s: State, e: Event)
    requires LockInv(s) && e.p < |s.procs| && s.procs[e.p].KillOthers?
    ensures LockInv(Step(s, e).value)
  {
    var t := Step(s, e).value;
    assert forall q :: 0 <= q < |s.procs| ==> InSection(t.procs[q]) == InSection(s.procs[q]);
  }

  lemma StepKeepsLock(s: State, e: Event)
    requires LockInv(s) && Step(s, e).Some? && !s.procs[e.p].KillOthers?
    ensures LockInv(Step(s, e).value)
  {
    var t := Step(s, e).value;
    if t.sem == 0 {
      var w :| 0 <= w < |t.procs| && (if s.sem == 1 then w == e.p else InSection(s.procs[w]));
      assert InSection(t.procs[w]);
    }
  }

  /** A step outside the critical section, or a killing. */
  lemma OutsideKeepsCount(s: State, e: Event)
    requires LockInv(s) && CountInv(s) && Step(s, e).Some?
    requires !s.procs[e.p].Holding? && !s.procs[e.p].Copied? && !s.procs[e.p].Stored?
    ensures CountInv(Step(s, e).value)
  {
    var t := Step(s, e).value;
    if s.word == |s.returned| + 1 {
      var w :| 0 <= w < |s.procs| && InSection(s.procs[w]);
      assert InSection(t.procs[w]);
    }
  }

  lemma StepKeepsCount(s: State, e: Event)
    requires LockInv(s) && CountInv(s) && Step(s, e).Some?
    ensures CountInv(Step(s, e).value)
  {
    if s.procs[e.p].Holding? || s.procs[e.p].Copied? || s.procs[e.p].Stored? {
      var t := Step(s, e).value;
      assert InSection(s.procs[e.p]);
      assert !s.procs[e.p].Stored? ==> InSection(t.procs[e.p]);
    } else {
      OutsideKeepsCount(s, e);
    }
  }

  /** A call completes: the process now owns the next count, which nobody owned before. */
  lemma ReturnKeepsReplies(s: State, e: Event)
    requires Inv(s) && e.p < |s.procs| && s.procs[e.p].Stored?
    ensures ReplyInv(Step(s, e).value)
  {
    var t, p := Step(s, e).value, e.p;
    assert forall q :: 0 <= q < |s.procs| && q != p ==> Owned(t.procs[q]) == Owned(s.procs[q]) <= |s.returned|;
    assert Owned(t.procs[p]) !in s.replies;
  }

  lemma AnswerKeepsReplies(s: State, e: Event)
    requires Inv(s) && e.p < |s.procs| && s.procs[e.p].Reply? && e.ok
    ensures ReplyInv(Step(s, e).value)
  {
    var t, p := Step(s, e).value, e.p;
    assert forall i :: 0 <= i < |s.replies| ==> s.replies[i] in s.replies;
    assert forall q :: 0 <= q < |s.procs| && q != p ==>
      Owned(t.procs[q]) == Owned(s.procs[q]) && Owned(s.procs[q]) != Owned(s.procs[p]);
  }

  /** Any other step: no process comes to own a count it did not own. */
  lemma QuietKeepsReplies(s: State, t: State)
    requires ReplyInv(s) && |t.procs| == |s.procs| && t.replies == s.replies && t.returned == s.returned
    requires forall q :: 0 <= q < |s.procs| ==>
               || t.procs[q] == s.procs[q]
               || (Owned(t.procs[q]) == 0 && !t.procs[q].Check? && !t.procs[q].Reply?)
               || (s.procs[q].Check? && t.procs[q] == Reply(s.procs[q].v) && s.procs[q].v <= LIMIT)
    ensures ReplyInv(t)
  {
    assert forall q :: 0 <= q < |s.procs| ==> Owned(t.procs[q]) == Owned(s.procs[q]) || Owned(t.procs[q]) == 0;
  }

  lemma StepKeepsReplies(s: State, e: Event)
    requires Inv(s) && Step(s, e).Some?
    ensures ReplyInv(Step(s, e).value)
  {
    if s.procs[e.p].Stored? {
      ReturnKeepsReplies(s, e);
    } else if s.procs[e.p].Reply? && e.ok {
      AnswerKeepsReplies(s, e);
    } else {
      QuietKeepsReplies(s, Step(s, e).value);
    }
  }

  lemma {:induction false} RunKeeps(n: nat, es: seq<Event>)
    requires Exec(Init(n), es).Some?
    ensures Inv(Exec(Init(n), es).value)
  {
    if es != [] {
      RunKeeps(n, es[..|es| - 1]);
      var s, e := Exec(Init(n), es[..|es| - 1]).value, es[|es| - 1];
      if s.procs[e.p].KillOthers? { KillKeepsLock(s, e); } else { StepKeepsLock(s, e); }
      StepKeepsCount(s, e);
      StepKeepsReplies(s, e);
    }
  }

  // ----- Main results -------------------------------------------------------------------------

  /** The processes that hold the semaphore, dead ones included. */
  ghost function Holders(s: State): (r: set<int>) {
    set p | 0 <= p < |s.procs| && InSection(s.procs[p])
  }

  /** Over every interleaving of any number of processes, the semaphore value plus the number of its
      holders is 1, so at most one process is in the callback. */
  lemma MutualExclusion(n: nat, es: seq<Event>, s: State)
    requires Exec(Init(n), es) == Some(s)
    ensures s.sem + |Holders(s)| == 1
  {
    RunKeeps(n, es);
    if s.sem == 0 {
      var p :| 0 <= p < |s.procs| && InSection(s.procs[p]);
      assert Holders(s) == {p};
    } else {
      assert Holders(s) == {};
    }
  }

  /** A process alone at the object: its four steps are one `update_glb_data` with the callback, and
      it waits exactly when the object makes it wait. */
  lemma UndisturbedUpdate(s: State, p: nat) returns (es: seq<Event>, t: State)
    requires p < |s.procs| && s.procs[p] == Wait
    ensures Exec(s, es) == Some(t)
    ensures Waited(s.sem).None? ==> Step(s, Run(p, true)) == None && t == s
    ensures Waited(s.sem).Some? ==>
              && es == [Run(p, true), Run(p, true), Run(p, true), Run(p, true)]
              && View(t) == AfterUpdate(View(s), Incremented)
              && t == s.(word := t.word, procs := s.procs[p := Check(t.word)], returned := s.returned + [t.word])
  {
    es, t := [], s;
    if Waited(s.sem).Some? {
      es, t := Do(Step, s, es, t, Run(p, true));
      es, t := Do(Step, s, es, t, Run(p, true));
      es, t := Do(Step, s, es, t, Run(p, true));
      es, t := Do(Step, s, es, t, Run(p, true));
      assert t.procs == s.procs[p := Check(t.word)];
    }
  }

  /** Completed calls return exactly 1, 2, ..., k: no gap, no repeat, no reordering; and the shared
      word is the number of completed calls whenever the semaphore is free. */
  lemma LinearisableCounter(n: nat, es: seq<Event>, s: State)
    requires Exec(Init(n), es) == Some(s)
    ensures forall i :: 0 <= i < |s.returned| ==> s.returned[i] == i + 1
    ensures s.sem == 1 ==> s.word == |s.returned|
  {
    RunKeeps(n, es);
  }

  /** A sequence of distinct numbers from 1 to n has at most n elements. */
  lemma {:induction false} Pigeonhole(vs: seq<int>, n: nat)
    requires forall i :: 0 <= i < |vs| ==> 0 < vs[i] <= n
    requires forall i, j :: 0 <= i < j < |vs| ==> vs[i] != vs[j]
    ensures |vs| <= n
    decreases n
  {
    if vs == [] {
    } else if n in vs {
      var k :| 0 <= k < |vs| && vs[k] == n;
      Pigeonhole(vs[..k] + vs[k + 1..], n - 1);
    } else {
      assert vs[0] < n;
      Pigeonhole(vs, n - 1);
    }
  }

  /** However requests are spread over the processes, at most five are ever answered, and the answers
      belong to distinct counts from 1 to 5. */
  lemma AtMostFiveReplies(n: nat, es: seq<Event>, s: State)
    requires Exec(Init(n), es) == Some(s)
    ensures |s.replies| <= LIMIT
    ensures forall i :: 0 <= i < |s.replies| ==> s.replies[i] in s.returned && s.replies[i] <= LIMIT
  {
    RunKeeps(n, es);
    Pigeonhole(s.replies, LIMIT);
    forall i | 0 <= i < |s.replies| ensures s.replies[i] in s.returned {
      assert s.returned[s.replies[i] - 1] == s.replies[i];
    }
  }
}
