/** The echo server that forks a slave when a request takes too long, and that lets slaves persist
    under a shared concurrency cap (tcp_delayed_allctn_ad_persist_shm.c over glb_shm_obj.c).

    The state machine interleaves one master and any number of slaves.  Process 0 is the master and
    process i > 0 the i-th forked slave.  The kernel's part (fork, accept, read, signals, the
    semaphore) is the choice of events.  Every C statement that another process can observe is a step
    of its own: taking the semaphore, copying the counter out, copying it back, releasing the
    semaphore, reading the counter, testing the value read. */
module DelayedAllocation {
  import opened Basics
  import opened Runs
  import opened SharedMemory

  const MAXCRTLVL := 2
  const BUFSIZE := 4096

  /** Where a process is inside a call on the shared memory object.  `Copied(v)` holds the private
      copy: the value read, or the value about to be stored. */
  datatype Phase = Waiting | Holding | Copied(v: int) | Stored

  /** The statement a process executes next.
      - `Top`: the head of the service loop; `Gate` and `Test`: the slave's read of the counter and
        its comparison; `Select`, `Accept`: waiting for a connection.
      - `Arm`: the connection is accepted and `alarm(5)` comes next; `Read`, `Write`: the echo loop;
        `Close`, `Clear`, `Disarm`: `close(ssock)`, `ssock = 0`, `alarm(0)`.
      - `Jump`: the master, in the handler, has forked and is about to jump.
      - `Counting`: a fresh slave, in the handler, is counting itself up; `resume` is the statement
        that the alarm interrupted. */
  datatype Pc =
    | Top | Gate(ph: Phase) | Test(n: int) | Select | Accept
    | Arm | Read | Write | Close | Clear | Disarm
    | Jump
    | Counting(ph: Phase, resume: Pc)
    | Exited

  /** `buf` holds the bytes read and not yet written.  `begun`: the write in progress has moved some
      bytes already.  `counted`, `uncounted`, `passed` and `reaped` record what has happened to the
      process: its increment was stored, its decrement was stored, it once passed the gate, the master
      waited for it. */
  datatype Proc = Proc(pc: Pc, ssock: int, buf: seq<byte>, begun: bool,
                       counted: bool, uncounted: bool, passed: bool, reaped: bool)

  /** The master's SIGCHLD handler, which runs on top of the master's own code. */
  datatype Reaper = Idle | Looping | Discounting(child: nat, ph: Phase)

  datatype Fate = Unfinished | Finished | Aborted

  /** An accepted connection: what has been read from it, what has been written back, the number of
      writes on it that came back short, and the number of bytes those writes left behind. */
  datatype Conn = Conn(received: seq<byte>, echoed: seq<byte>, shorts: nat, dropped: nat, fate: Fate)

  /** Connection number k is held by the descriptor value k + 1, so 0 keeps its meaning "none".
      `open` relates processes and connections whose descriptor they have open. */
  datatype State = State(
    procs: seq<Proc>, reaper: Reaper, alarm: bool,
    sem: int, word: int,
    conns: seq<Conn>, masterAccepts: nat, open: set<(nat, int)>)

  /** What the kernel answers to the call that a process makes.  `Moves(n)`: a write has moved n more
      bytes and goes on. */
  datatype Outcome = Ok | Data(bytes: seq<byte>) | Moves(n: nat) | Eof | Interrupted | TimedOut | Fail

  datatype Event =
    | Run(p: nat, o: Outcome)   // process p executes its next statement
    | Alarm(forked: bool)       // SIGALRM is delivered; did fork succeed?
    | ChildSignal               // SIGCHLD is delivered
    | Wait3(child: nat)         // wait3 returns the pid of a terminated slave
    | ReaperReturn              // wait3 finds no terminated slave
    | RunReaper                 // the reaper executes the next statement of its update

  const Master0 := Proc(Top, 0, [], false, false, false, false, false)
  const Init := State([Master0], Idle, false, Created.sem, Created.word, [], 0, {})

  /** The object that the processes share. */
  function View(s: State): Shm {
    Shm(s.sem, s.word)
  }

  // ----- Steps ------------------------------------------------------------------------------

  function SetProc(s: State, p: nat, q: Proc): State
    requires p < |s.procs|
  {
    s.(procs := s.procs[p := q])
  }

  function Goto(s: State, p: nat, pc: Pc): State
    requires p < |s.procs|
  {
    SetProc(s, p, s.procs[p].(pc := pc))
  }

  /** The statement at which a process is, or to which it returns from the alarm handler. */
  function Main(pc: Pc): Pc {
    if pc.Counting? then pc.resume else pc
  }

  predicate EchoPoint(pc: Pc) {
    pc == Arm || pc == Read || pc == Write
  }

  /** Process p is the one that echoes connection k. */
  predicate Serves(s: State, p: nat, k: int) {
    p < |s.procs| && s.procs[p].ssock == k + 1 && EchoPoint(Main(s.procs[p].pc))
  }

  function Descriptors(s: State, p: nat): (r: set<(nat, int)>) {
    set d | d in s.open && d.0 == p
  }

  /** Process termination: the kernel closes its descriptors and drops its alarm; a connection it was
      echoing is abandoned. */
  function Exit(s: State, p: nat): State
    requires p < |s.procs|
  {
    var k := s.procs[p].ssock - 1;
    var conns := if Serves(s, p, k) && 0 <= k < |s.conns|
                 then s.conns[k := s.conns[k].(fate := Aborted)] else s.conns;
    Goto(s, p, Exited).(conns := conns, open := s.open - Descriptors(s, p), alarm := s.alarm && p != 0)
  }

  /** `read_glb_data` as called by a slave at the gate. */
  function RunGate(s: State, p: nat, ph: Phase): Option<State>
    requires p < |s.procs|
  {
    match ph
    case Waiting => if Waited(s.sem).Some? then Some(Goto(s, p, Gate(Holding)).(sem := Waited(s.sem).value)) else None
    case Holding => Some(Goto(s, p, Gate(Copied(s.word))))
    case Copied(v) => Some(Goto(s, p, Test(v)).(sem := Signalled(s.sem)))
    case Stored => None
  }

  /** `update_glb_data` with `incGlbConcurryLvlCb`, called by a fresh slave in the alarm handler. */
  function RunCounting(s: State, p: nat, ph: Phase, resume: Pc): Option<State>
    requires p < |s.procs|
  {
    match ph
    case Waiting =>
      if Waited(s.sem).Some? then Some(Goto(s, p, Counting(Holding, resume)).(sem := Waited(s.sem).value)) else None
    case Holding => Some(Goto(s, p, Counting(Copied(Incremented(s.word)), resume)))
    case Copied(v) =>
      Some(SetProc(s, p, s.procs[p].(pc := Counting(Stored, resume), counted := true)).(word := v))
    case Stored => Some(Goto(s, p, resume).(sem := Signalled(s.sem)))
  }

  function RunAccept(s: State, p: nat, o: Outcome): Option<State>
    requires p < |s.procs|
  {
    match o
    case Ok =>
      var k := |s.conns|;
      Some(SetProc(s, p, s.procs[p].(pc := Arm, ssock := k + 1)).(
           conns := s.conns + [Conn([], [], 0, 0, Unfinished)],
           open := s.open + {(p, k)},
           masterAccepts := if p == 0 then s.masterAccepts + 1 else s.masterAccepts))
    case Interrupted => Some(SetProc(s, p, s.procs[p].(pc := Top, ssock := -1)))
    case Fail => Some(Exit(s, p))
    case _ => None
  }

  /** The read of the echo loop; an interrupted read is retried. */
  function RunRead(s: State, p: nat, o: Outcome): Option<State>
    requires p < |s.procs|
  {
    var q := s.procs[p];
    var k := q.ssock - 1;
    if !(0 <= k < |s.conns|) then None else
    match o
    case Data(bytes) =>
      if 0 < |bytes| <= BUFSIZE then
        Some(SetProc(s, p, q.(pc := Write, buf := bytes, begun := false)).(
             conns := s.conns[k := s.conns[k].(received := s.conns[k].received + bytes)]))
      else None
    case Eof =>
      Some(Goto(s, p, Close).(conns := s.conns[k := s.conns[k].(fate := Finished)]))
    case Interrupted => Some(s)
    case Fail => Some(Exit(s, p))
    case _ => None
  }

  /** A write that has moved bytes is interrupted or fails: its short count is not an error to the
      caller, which goes on to the next read and forgets the rest of the buffer. */
  function CutShort(s: State, p: nat): State
    requires p < |s.procs| && 0 <= s.procs[p].ssock - 1 < |s.conns|
  {
    var q := s.procs[p];
    var k := q.ssock - 1;
    var c := s.conns[k];
    SetProc(s, p, q.(pc := Read, buf := [], begun := false)).(
      conns := s.conns[k := c.(shorts := c.shorts + 1, dropped := c.dropped + |q.buf|)])
  }

  /** The write of the echo loop, which blocks while the peer does not read.  An interruption before
      any byte has moved is an error like any other. */
  function RunWrite(s: State, p: nat, o: Outcome): Option<State>
    requires p < |s.procs|
  {
    var q := s.procs[p];
    var k := q.ssock - 1;
    if !(0 <= k < |s.conns|) then None else
    match o
    case Ok =>
      Some(SetProc(s, p, q.(pc := Read, buf := [], begun := false)).(
           conns := s.conns[k := s.conns[k].(echoed := s.conns[k].echoed + q.buf)]))
    case Moves(n) =>
      if 0 < n < |q.buf| then
        Some(SetProc(s, p, q.(buf := q.buf[n..], begun := true)).(
             conns := s.conns[k := s.conns[k].(echoed := s.conns[k].echoed + q.buf[..n])]))
      else None
    case Interrupted => Some(if q.begun then CutShort(s, p) else Exit(s, p))
    case Fail => Some(if q.begun then CutShort(s, p) else Exit(s, p))
    case _ => None
  }

  function RunProc(s: State, p: nat, o: Outcome): Option<State>
    requires p < |s.procs|
  {
    var q := s.procs[p];
    match q.pc
    case Top => Some(Goto(s, p, if p == 0 then Accept else Gate(Waiting)))
    case Gate(ph) => RunGate(s, p, ph)
    case Test(n) =>
      if n > MAXCRTLVL then Some(Exit(s, p))
      else Some(SetProc(s, p, q.(pc := Select, passed := true)))
    case Select =>
      if o.Ok? then Some(Goto(s, p, Accept))
      else if o.TimedOut? || o.Fail? then Some(Exit(s, p)) else None
    case Accept => RunAccept(s, p, o)
    case Arm => Some(Goto(s, p, Read).(alarm := s.alarm || p == 0))
    case Read => RunRead(s, p, o)
    case Write => RunWrite(s, p, o)
    case Close => Some(Goto(s, p, Clear).(open := s.open - {(p, q.ssock - 1)}))
    case Clear => Some(SetProc(s, p, q.(pc := Disarm, ssock := 0)))
    case Disarm => Some(Goto(s, p, Top).(alarm := s.alarm && p != 0))
    case Jump =>
      Some(Goto(s, p, Top).(open := if q.ssock != 0 then s.open - {(p, q.ssock - 1)} else s.open))
    case Counting(ph, resume) => RunCounting(s, p, ph, resume)
    case Exited => None
  }

  /** The master is inside a write that has moved some bytes and has more to move. */
  predicate MidWrite(s: State) {
    |s.procs| > 0 && s.procs[0].pc == Write && s.procs[0].begun && 0 <= s.procs[0].ssock - 1 < |s.conns|
  }

  /** SIGALRM breaks off the write in progress.  The handler is installed without SA_RESTART, and bytes
      that have moved make the call return their number in any case. */
  function Interrupt(s: State): State {
    if MidWrite(s) then CutShort(s, 0) else s
  }

  /** The fork in the handler.  The slave inherits the whole memory of the master, the connection
      included. */
  function Fork(s: State): State
    requires |s.procs| > 0
  {
    var m, child := s.procs[0], |s.procs|;
    var slave := Proc(Counting(Waiting, m.pc), m.ssock, m.buf, m.begun, false, false, false, false);
    var inherited := set d | d in Descriptors(s, 0) :: (child, d.1);
    s.(procs := s.procs[0 := m.(pc := Jump)] + [slave], alarm := false, open := s.open + inherited)
  }

  /** SIGALRM is delivered. */
  function RunAlarm(s: State, forked: bool): Option<State>
    requires |s.procs| > 0
  {
    if !s.alarm || s.procs[0].pc == Exited || s.reaper != Idle then None
    else if !forked then Some(Exit(Interrupt(s), 0))
    else Some(Fork(Interrupt(s)))
  }

  /** `update_glb_data` with `decGlbConcurryLvlCb`, called by the master's reaper. */
  function RunDiscount(s: State): Option<State>
    requires s.reaper.Discounting? && s.reaper.child < |s.procs|
  {
    var child := s.reaper.child;
    match s.reaper.ph
    case Waiting =>
      if Waited(s.sem).Some? then Some(s.(reaper := Discounting(child, Holding), sem := Waited(s.sem).value)) else None
    case Holding => Some(s.(reaper := Discounting(child, Copied(Decremented(s.word)))))
    case Copied(v) =>
      Some(SetProc(s, child, s.procs[child].(uncounted := true)).(
           reaper := Discounting(child, Stored), word := v))
    case Stored => Some(s.(reaper := Looping, sem := Signalled(s.sem)))
  }

  function Step(s: State, e: Event): Option<State> {
    if |s.procs| == 0 then None else
    match e
    case Run(p, o) =>
      if p < |s.procs| && (p == 0 ==> s.reaper == Idle) then RunProc(s, p, o) else None
    case Alarm(forked) => RunAlarm(s, forked)
    case ChildSignal =>
      if s.reaper == Idle && s.procs[0].pc != Jump && s.procs[0].pc != Exited
      then Some(s.(reaper := Looping)) else None
    case Wait3(child) =>
      if s.reaper == Looping && 0 < child < |s.procs| && s.procs[child].pc == Exited && !s.procs[child].reaped
      then Some(SetProc(s, child, s.procs[child].(reaped := true)).(reaper := Discounting(child, Waiting)))
      else None
    case ReaperReturn => if s.reaper == Looping then Some(s.(reaper := Idle)) else None
    case RunReaper =>
      if s.reaper.Discounting? && s.reaper.child < |s.procs| then RunDiscount(s) else None
  }

  /** The state after a run, if the run is possible. */
  function Exec(s: State, es: seq<Event>): Option<State> {
    After(Step, s, es)
  }
}
