/** The same counter with the read and the write each locked but not together
    (exc_15_udp_shm.c over glb_shm_obj.c): an update can be lost.  The results say exactly when. */
module SplitCounter {
  import opened Basics
  import opened Runs
  import opened SharedMemory

  /** The statement a process executes next: waiting for a request; replying; inside
      `read_glb_data`; about to increment its copy; inside `write_glb_data`.  From the copy out on, a
      process remembers when it read. */
  datatype Pc =
    | Recv | Reply
    | ReadWait | ReadHolding | ReadCopied(v: int, at: nat)
    | Increment(v: int, at: nat)
    | WriteWait(v: int, at: nat) | WriteHolding(v: int, at: nat) | Written
    | Dead

  /** A completed update: when the counter was copied out and when it was copied back. */
  datatype Span = Span(read: nat, write: nat)

  /** `clock` numbers the steps of the run, and `spans` lists the completed writes in order. */
  datatype State = State(procs: seq<Pc>, sem: int, word: int, clock: nat, spans: seq<Span>)

  datatype Event = Run(p: nat, ok: bool)

  function Init(n: nat): State {
    State(seq(n, i => Recv), Created.sem, Created.word, 0, [])
  }

  function Goto(s: State, p: nat, pc: Pc): State
    requires p < |s.procs|
  {
    s.(procs := s.procs[p := pc], clock := s.clock + 1)
  }

  function Step(s: State, e: Event): Option<State> {
    var p := e.p;
    if p >= |s.procs| then None
    else
      match s.procs[p]
      case Recv => Some(Goto(s, p, if e.ok then Reply else Dead))
      case Reply => Some(Goto(s, p, if e.ok then ReadWait else Dead))
      case ReadWait =>
        if Waited(s.sem).Some? then Some(Goto(s, p, ReadHolding).(sem := Waited(s.sem).value)) else None
      case ReadHolding => Some(Goto(s, p, ReadCopied(s.word, s.clock)))
      case ReadCopied(v, at) => Some(Goto(s, p, Increment(v, at)).(sem := Signalled(s.sem)))
      case Increment(v, at) => Some(Goto(s, p, WriteWait(v + 1, at)))
      case WriteWait(v, at) =>
        if Waited(s.sem).Some? then Some(Goto(s, p, WriteHolding(v, at)).(sem := Waited(s.sem).value)) else None
      case WriteHolding(v, at) =>
        Some(Goto(s, p, Written).(word := v, spans := s.spans + [Span(at, s.clock)]))
      case Written => Some(Goto(s, p, Recv).(sem := Signalled(s.sem)))
      case Dead => None
  }

  function Exec(s: State, es: seq<Event>): Option<State> {
    After(Step, s, es)
  }

  /** Two read-to-write spans overlap: each read comes before the other's write.  (A read and a write
      are different steps, so their times never agree.) */
  predicate Overlap(a: Span, b: Span) {
    a.read <= b.write && b.read <= a.write
  }

  /** No two of the spans overlap. */
  ghost predicate Disjoint(spans: seq<Span>) {
    forall i, j :: 0 <= i < j < |spans| ==> !Overlap(spans[i], spans[j])
  }

  function View(s: State): Shm {
    Shm(s.sem, s.word)
  }

  // ----- Invariant ----------------------------------------------------------------------------

  predicate InSection(pc: Pc) {
    pc == ReadHolding || pc.ReadCopied? || pc.WriteHolding? || pc == Written
  }

  ghost predicate LockInv(s: State) {
    && 0 <= s.sem <= 1
    && (s.sem == 1 ==> forall p :: 0 <= p < |s.procs| ==> !InSection(s.procs[p]))
    && (forall p, q :: 0 <= p < |s.procs| && 0 <= q < |s.procs| && InSection(s.procs[p]) && InSection(s.procs[q])
          ==> p == q)
  }

  /** Writes are numbered by increasing times, each after its own read. */
  ghost predicate SpansInv(spans: seq<Span>, clock: nat) {
    && (forall i :: 0 <= i < |spans| ==> spans[i].read < spans[i].write < clock)
    && (forall i, j :: 0 <= i < j < |spans| ==> spans[i].write < spans[j].write)
  }

  /** How many of the writes happened before time `at`. */
  ghost function Before(spans: seq<Span>, at: nat): (n: nat)
    ensures n <= |spans|
  {
    if spans == [] then 0
    else if spans[|spans| - 1].write < at then |spans|
    else Before(spans[..|spans| - 1], at)
  }

  /** A value read at time `at`: it is at most the number of writes before `at`, and equal to it
      exactly when none of those updates had been lost. */
  ghost predicate ReadOk(s: State, v: int, at: nat) {
    var n := Before(s.spans, at);
    at < s.clock && v <= n && (v == n <==> Disjoint(s.spans[..n]))
  }

  ghost predicate PcOk(s: State, pc: Pc) {
    match pc
    case ReadCopied(v, at) => ReadOk(s, v, at)
    case Increment(v, at) => ReadOk(s, v, at)
    case WriteWait(v, at) => ReadOk(s, v - 1, at)
    case WriteHolding(v, at) => ReadOk(s, v - 1, at)
    case _ => true
  }

  ghost predicate Inv(s: State) {
    && LockInv(s)
    && SpansInv(s.spans, s.clock)
    && s.word <= |s.spans|
    && (s.word == |s.spans| <==> Disjoint(s.spans))
    && (forall p :: 0 <= p < |s.procs| ==> PcOk(s, s.procs[p]))
  }

  /** `Before` cuts the list of writes at the right place. */
  lemma {:induction false} BeforeCuts(spans: seq<Span>, clock: nat, at: nat)
    requires SpansInv(spans, clock)
    ensures forall i :: 0 <= i < |spans| ==> (i < Before(spans, at) <==> spans[i].write < at)
  {
    if spans != [] && spans[|spans| - 1].write >= at {
      BeforeCuts(spans[..|spans| - 1], clock, at);
    }
  }

  lemma BeforeAppend(spans: seq<Span>, x: Span, at: nat)
    requires x.write >= at
    ensures Before(spans + [x], at) == Before(spans, at)
  {
    assert (spans + [x])[..|spans|] == spans;
  }

  /** Appending a span keeps the list disjoint exactly when no write falls inside the new span. */
  lemma AppendDisjoint(spans: seq<Span>, at: nat, clock: nat)
    requires SpansInv(spans, clock) && at < clock
    ensures Disjoint(spans + [Span(at, clock)]) <==>
              Disjoint(spans[..Before(spans, at)]) && Before(spans, at) == |spans|
  {
    var n := Before(spans, at);
    BeforeCuts(spans, clock, at);
    if n < |spans| {
      LateWriteOverlaps(spans, at, clock, n);
    } else {
      assert spans[..n] == spans;
      DisjointAppend(spans, Span(at, clock));
    }
  }

  lemma LateWriteOverlaps(spans: seq<Span>, at: nat, clock: nat, i: nat)
    requires i < |spans| && spans[i].read < spans[i].write < clock && at <= spans[i].write
    ensures !Disjoint(spans + [Span(at, clock)])
  {
    var all := spans + [Span(at, clock)];
    assert all[i] == spans[i];
    assert Overlap(all[i], all[|spans|]);
  }

  lemma DisjointAppend(spans: seq<Span>, x: Span)
    ensures Disjoint(spans + [x]) <==> Disjoint(spans) && forall i :: 0 <= i < |spans| ==> !Overlap(spans[i], x)
  {
    var all := spans + [x];
    assert forall i :: 0 <= i < |spans| ==> all[i] == spans[i];
    if Disjoint(all) {
      forall i | 0 <= i < |spans| ensures !Overlap(spans[i], x) {
        assert !Overlap(all[i], all[|spans|]);
      }
      forall i, j | 0 <= i < j < |spans| ensures !Overlap(spans[i], spans[j]) {
        assert !Overlap(all[i], all[j]);
      }
    }
  }

  lemma ReadOkAppend(s: State, t: State, x: Span, v: int, at: nat)
    requires ReadOk(s, v, at) && t.spans == s.spans + [x] && x.write == s.clock && t.clock == s.clock + 1
    ensures ReadOk(t, v, at)
  {
    BeforeAppend(s.spans, x, at);
    var n := Before(s.spans, at);
    assert t.spans[..n] == s.spans[..n];
  }

  lemma WriteKeeps(s: State, e: Event)
    requires Inv(s) && e.p < |s.procs| && s.procs[e.p].WriteHolding?
    ensures Inv(Step(s, e).value)
  {
    var t, p := Step(s, e).value, e.p;
    var v, at := s.procs[p].v, s.procs[p].at;
    var x := Span(at, s.clock);
    assert ReadOk(s, v - 1, at);
    AppendDisjoint(s.spans, at, s.clock);
    forall q | 0 <= q < |t.procs| ensures PcOk(t, t.procs[q]) {
      if q != p {
        var pc := s.procs[q];
        assert PcOk(s, pc);
        if pc.ReadCopied? || pc.Increment? {
          ReadOkAppend(s, t, x, pc.v, pc.at);
        } else if pc.WriteWait? || pc.WriteHolding? {
          ReadOkAppend(s, t, x, pc.v - 1, pc.at);
        }
      }
    }
  }

  /** The value copied out is right for the time at which it is read. */
  lemma ReadNow(s: State)
    requires Inv(s)
    ensures ReadOk(s.(clock := s.clock + 1), s.word, s.clock)
  {
    assert Before(s.spans, s.clock) == |s.spans|;
    assert s.spans[..|s.spans|] == s.spans;
  }

  lemma StepKeepsLock(s: State, e: Event)
    requires LockInv(s) && Step(s, e).Some?
    ensures LockInv(Step(s, e).value)
  {
  }

  /** A step of p that writes nothing. */
  lemma QuietKeeps(s: State, t: State, p: nat)
    requires Inv(s) && LockInv(t) && p < |s.procs| && |t.procs| == |s.procs|
    requires t.spans == s.spans && t.word == s.word && t.clock == s.clock + 1
    requires forall q :: 0 <= q < |s.procs| && q != p ==> t.procs[q] == s.procs[q]
    requires PcOk(t, t.procs[p])
    ensures Inv(t)
  {
    forall q | 0 <= q < |t.procs| ensures PcOk(t, t.procs[q]) {
      assert PcOk(s, s.procs[q]);
    }
  }

  lemma StepKeeps(s: State, e: Event)
    requires Inv(s) && Step(s, e).Some?
    ensures Inv(Step(s, e).value)
  {
    var t, p := Step(s, e).value, e.p;
    StepKeepsLock(s, e);
    if s.procs[p].WriteHolding? {
      WriteKeeps(s, e);
    } else {
      MovedPcOk(s, e);
      QuietKeeps(s, t, p);
    }
  }

  lemma MovedPcOk(s: State, e: Event)
    requires Inv(s) && Step(s, e).Some? && !s.procs[e.p].WriteHolding?
    ensures PcOk(Step(s, e).value, Step(s, e).value.procs[e.p])
  {
    ReadNow(s);
    assert PcOk(s, s.procs[e.p]);
  }

  lemma {:induction false} RunKeeps(n: nat, es: seq<Event>)
    requires Exec(Init(n), es).Some?
    ensures Inv(Exec(Init(n), es).value)
  {
    if es != [] {
      RunKeeps(n, es[..|es| - 1]);
      StepKeeps(Exec(Init(n), es[..|es| - 1]).value, es[|es| - 1]);
    }
  }

  // ----- Main results -------------------------------------------------------------------------

  /** Over every interleaving of any number of processes the counter never exceeds the number of
      completed writes, and it equals that number exactly when no two read-to-write spans of
      completed updates overlap. */
  lemma CountsExactlyWithoutOverlap(n: nat, es: seq<Event>, s: State)
    requires Exec(Init(n), es) == Some(s)
    ensures s.word <= |s.spans|
    ensures s.word == |s.spans| <==> Disjoint(s.spans)
  {
    RunKeeps(n, es);
  }

  /** An update can be lost: two processes that both read before either writes leave the counter
      at 1 after two completed writes. */
  lemma LostUpdate()
    ensures exists es: seq<Event>, s: State ::
              Exec(Init(2), es) == Some(s) && |s.spans| == 2 && s.word == 1
  {
    var es, s := Reads(Init(2), [], Init(2), 0);
    es, s := Reads(Init(2), es, s, 1);
    es, s := Writes(Init(2), es, s, 0);
    es, s := Writes(Init(2), es, s, 1);
  }

  /** An undisturbed process receives a request, replies and reads the counter. */
  lemma Reads(s0: State, es: seq<Event>, s: State, p: nat) returns (fs: seq<Event>, t: State)
    requires Exec(s0, es) == Some(s) && p < |s.procs| && s.procs[p] == Recv && s.sem == 1
    ensures Exec(s0, fs) == Some(t)
    ensures t == s.(procs := s.procs[p := Increment(s.word, s.clock + 3)], clock := s.clock + 5)
  {
    fs, t := Do(Step, s0, es, s, Run(p, true));
    fs, t := Do(Step, s0, fs, t, Run(p, true));
    assert t == s.(procs := s.procs[p := ReadWait], clock := s.clock + 2);
    fs, t := ReadsWord(s0, fs, t, p);
    assert t.procs == s.procs[p := Increment(s.word, s.clock + 3)];
  }

  /** A process alone at the object: three of its steps are one `read_glb_data`, and it waits exactly
      when the object makes it wait. */
  lemma ReadsWord(s0: State, es: seq<Event>, s: State, p: nat) returns (fs: seq<Event>, t: State)
    requires Exec(s0, es) == Some(s) && p < |s.procs| && s.procs[p] == ReadWait
    ensures Waited(s.sem).None? ==> Step(s, Run(p, true)) == None && t == s
    ensures Waited(s.sem).Some? ==> fs == es + [Run(p, true), Run(p, true), Run(p, true)] && View(t) == View(s)
    ensures Waited(s.sem).Some? ==>
              t == s.(procs := s.procs[p := Increment(s.word, s.clock + 1)], clock := s.clock + 3)
    ensures Exec(s0, fs) == Some(t)
  {
    fs, t := es, s;
    if Waited(s.sem).Some? {
      fs, t := Do(Step, s0, es, s, Run(p, true));
      fs, t := Do(Step, s0, fs, t, Run(p, true));
      fs, t := Do(Step, s0, fs, t, Run(p, true));
      assert t.procs == s.procs[p := Increment(s.word, s.clock + 1)];
    }
  }

  /** An undisturbed process increments its copy and writes it back. */
  lemma Writes(s0: State, es: seq<Event>, s: State, p: nat) returns (fs: seq<Event>, t: State)
    requires Exec(s0, es) == Some(s) && p < |s.procs| && s.procs[p].Increment? && s.sem == 1
    ensures Exec(s0, fs) == Some(t)
    ensures t == s.(procs := s.procs[p := Recv], clock := s.clock + 4, word := s.procs[p].v + 1,
                    spans := s.spans + [Span(s.procs[p].at, s.clock + 2)])
  {
    fs, t := Do(Step, s0, es, s, Run(p, true));
    assert t == s.(procs := s.procs[p := WriteWait(s.procs[p].v + 1, s.procs[p].at)], clock := s.clock + 1);
    fs, t := WritesWord(s0, fs, t, p);
    assert t.procs == s.procs[p := Recv];
  }

  /** Three more of its steps are one `write_glb_data`. */
  lemma WritesWord(s0: State, es: seq<Event>, s: State, p: nat) returns (fs: seq<Event>, t: State)
    requires Exec(s0, es) == Some(s) && p < |s.procs| && s.procs[p].WriteWait?
    ensures Waited(s.sem).None? ==> Step(s, Run(p, true)) == None && t == s
    ensures Waited(s.sem).Some? ==>
              fs == es + [Run(p, true), Run(p, true), Run(p, true)] && View(t) == AfterWrite(View(s), s.procs[p].v)
    ensures Waited(s.sem).Some? ==>
              t == s.(procs := s.procs[p := Recv], clock := s.clock + 3, word := s.procs[p].v,
                      spans := s.spans + [Span(s.procs[p].at, s.clock + 1)])
    ensures Exec(s0, fs) == Some(t)
  {
    fs, t := es, s;
    if Waited(s.sem).Some? {
      var pc := s.procs[p];
      fs, t := Do(Step, s0, es, s, Run(p, true));
      assert t == s.(procs := s.procs[p := WriteHolding(pc.v, pc.at)], clock := s.clock + 1, sem := s.sem - 1);
      fs, t := Do(Step, s0, fs, t, Run(p, true));
      assert t.procs == s.procs[p := Written];
      fs, t := Do(Step, s0, fs, t, Run(p, true));
      assert t.procs == s.procs[p := Recv];
    }
  }

  /** Even here a single read or write is exclusive. */
  lemma SectionsExclude(n: nat, es: seq<Event>, s: State, p: nat, q: nat)
    requires Exec(Init(n), es) == Some(s) && p < |s.procs| && q < |s.procs|
    requires InSection(s.procs[p]) && InSection(s.procs[q])
    ensures p == q && s.sem == 0
  {
    RunKeeps(n, es);
  }
}
