/** Which requests the counting processes answer: every count up to the limit, and no other; and how the
    processes shut down. */
module AtomicCounterReplies {
  import opened Basics
  import opened Runs
  import opened SharedMemory
  import opened AtomicCounter

  // ----- Whatever the others do -------------------------------------------------------------------

  function OwnSteps(fs: seq<Event>, p: nat): nat {
    if fs == [] then 0
    else OwnSteps(fs[..|fs| - 1], p) + if fs[|fs| - 1].p == p then 1 else 0
  }

  /** Process p is k steps of its own after it got count v back, unless it has been killed. */
  ghost predicate Answering(s: State, p: nat, k: nat, v: int) {
    p < |s.procs| &&
    if v <= LIMIT then
      if k == 0 then s.procs[p] == Check(v) || s.procs[p].Dead?
      else if k == 1 then s.procs[p] == Reply(v) || s.procs[p].Dead?
      else v in s.replies || s.procs[p].Dead?
    else if k == 0 then s.procs[p] == Check(v) || s.procs[p].Dead?
    else s.procs[p].Dead? || (p == 0 && s.procs[p].KillOthers?)
  }

  lemma AnsweringStep(s: State, e: Event, p: nat, k: nat, v: int)
    requires Answering(s, p, k, v) && Step(s, e).Some? && (e.p == p ==> e.ok)
    ensures Answering(Step(s, e).value, p, if e.p == p then k + 1 else k, v)
  {
    var t := Step(s, e).value;
    assert forall r :: r in s.replies ==> r in t.replies;
  }

  lemma {:induction false} AnsweringGoesOn(s: State, fs: seq<Event>, p: nat, v: int)
    requires Answering(s, p, 0, v) && Exec(s, fs).Some?
    requires forall e :: e in fs && e.p == p ==> e.ok
    ensures Answering(Exec(s, fs).value, p, OwnSteps(fs, p), v)
  {
    if fs != [] {
      var gs := fs[..|fs| - 1];
      AnsweringGoesOn(s, gs, p, v);
      AnsweringStep(Exec(s, gs).value, fs[|fs| - 1], p, OwnSteps(gs, p), v);
    }
  }

  /** A process that got count v back and meets no failing call: if v is at most LIMIT then two steps of its
      own later it has replied to it, unless it was killed; if v is more, it never replies again but
      terminates, the master after killing the others.  This holds however the others go on. */
  lemma WhichCountsAreAnswered(s: State, p: nat, v: int, fs: seq<Event>, t: State)
    requires p < |s.procs| && s.procs[p] == Check(v) && Exec(s, fs) == Some(t)
    requires forall e :: e in fs && e.p == p ==> e.ok
    ensures p < |t.procs|
    ensures v <= LIMIT && OwnSteps(fs, p) >= 2 ==> v in t.replies || t.procs[p].Dead?
    ensures v > LIMIT && OwnSteps(fs, p) >= 1 ==> t.procs[p].Dead? || (p == 0 && t.procs[p].KillOthers?)
  {
    AnsweringGoesOn(s, fs, p, v);
  }

  // ----- Shutting down ----------------------------------------------------------------------------

  /** Only the master kills, and it kills the others in order. */
  ghost predicate KillsInOrder(s: State) {
    forall p :: 0 <= p < |s.procs| && s.procs[p].KillOthers? ==>
      p == 0 && 0 < s.procs[p].next && forall q :: 0 < q < s.procs[p].next && q < |s.procs| ==> s.procs[q].Dead?
  }

  lemma StepKillsInOrder(s: State, e: Event)
    requires KillsInOrder(s) && Step(s, e).Some?
    ensures KillsInOrder(Step(s, e).value)
  {
    var t := Step(s, e).value;
    assert forall q :: 0 <= q < |s.procs| && s.procs[q].Dead? ==> t.procs[q].Dead?;
  }

  lemma {:induction false} RunKillsInOrder(n: nat, es: seq<Event>)
    requires Exec(Init(n), es).Some?
    ensures KillsInOrder(Exec(Init(n), es).value)
  {
    if es != [] {
      RunKillsInOrder(n, es[..|es| - 1]);
      StepKillsInOrder(Exec(Init(n), es[..|es| - 1]).value, es[|es| - 1]);
    }
  }

  /** In every run: when the master, shutting down, terminates, all the others have terminated. */
  lemma ShutdownKillsAll(n: nat, es: seq<Event>, s: State, ok: bool, t: State)
    requires Exec(Init(n), es) == Some(s) && |s.procs| > 0 && s.procs[0].KillOthers?
    requires Step(s, Run(0, ok)) == Some(t) && |t.procs| > 0 && t.procs[0].Dead?
    ensures forall p :: 0 <= p < |t.procs| ==> t.procs[p].Dead?
  {
    RunKillsInOrder(n, es);
  }

  // ----- A run that answers as many requests as possible --------------------------------------------

  /** The first k counts. */
  function UpTo(k: nat): (r: seq<int>)
    ensures |r| == k && forall i :: 0 <= i < k ==> r[i] == i + 1
  {
    seq(k, i => i + 1)
  }

  ghost predicate Answered(s: State, n: nat, k: nat) {
    |s.procs| == n && n > 0 && s.procs[0] == Recv && s.sem == 1 && s.word == k && s.replies == UpTo(k)
  }

  /** Process 0 receives a request and counts it. */
  lemma Counts(s0: State, es: seq<Event>, s: State, n: nat, k: nat) returns (fs: seq<Event>, t: State)
    requires Exec(s0, es) == Some(s) && Answered(s, n, k)
    ensures Exec(s0, fs) == Some(t) && |t.procs| == n && t.procs[0] == Check(k + 1)
    ensures t.sem == 1 && t.word == k + 1 && t.replies == s.replies
  {
    var u;
    fs, u := Do(Step, s0, es, s, Run(0, true));
    var gs;
    gs, t := UndisturbedUpdate(u, 0);
    Joined(Step, s0, fs, u, gs);
    fs := fs + gs;
  }

  lemma {:induction false} Answers(n: nat, k: nat) returns (es: seq<Event>, s: State)
    requires n > 0 && k <= LIMIT
    ensures Exec(Init(n), es) == Some(s) && Answered(s, n, k)
  {
    if k == 0 {
      es, s := [], Init(n);
    } else {
      es, s := Answers(n, k - 1);
      es, s := Counts(Init(n), es, s, n, k - 1);
      es, s := Do(Step, Init(n), es, s, Run(0, true));
      es, s := Do(Step, Init(n), es, s, Run(0, true));
    }
  }

  lemma {:induction false} Kills(s0: State, es: seq<Event>, s: State, i: nat) returns (fs: seq<Event>, t: State)
    requires Exec(s0, es) == Some(s) && 0 < i <= |s.procs| && s.procs[0] == KillOthers(i)
    requires forall q :: 0 < q < i ==> s.procs[q].Dead?
    ensures Exec(s0, fs) == Some(t) && |t.procs| == |s.procs| && t.replies == s.replies
    ensures forall q :: 0 <= q < |t.procs| ==> t.procs[q].Dead?
    decreases |s.procs| - i
  {
    fs, t := Do(Step, s0, es, s, Run(0, true));
    if i < |s.procs| {
      fs, t := Kills(s0, fs, t, i + 1);
    }
  }

  /** For any number of processes there is a run in which exactly the counts 1 to LIMIT are answered, one
      each, and then all processes terminate. */
  lemma LimitIsReached(n: nat)
    requires n > 0
    ensures exists es: seq<Event>, s: State ::
              && Exec(Init(n), es) == Some(s) && s.replies == UpTo(LIMIT) && |s.procs| == n
              && forall p :: 0 <= p < n ==> s.procs[p].Dead?
  {
    var es, s := Answers(n, LIMIT);
    es, s := Counts(Init(n), es, s, n, LIMIT);
    es, s := Do(Step, Init(n), es, s, Run(0, true));
    es, s := Kills(Init(n), es, s, 1);
  }
}
