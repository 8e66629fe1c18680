/** The running slave pool (exc_15_6.c): the master's select loop, four slaves, and the two byte pipes
    between the master and each slave.  The kernel picks which descriptors are ready, which free
    descriptor number an accepted client gets, and how many bytes each read returns. */
module PoolServer {
  import opened Basics
  import opened Runs
  import opened SlavePool

  /** The pipes of one slot: bytes on their way to the slave, the transformed segment the slave has
      yet to write, and bytes on their way back.  `segments` lists what the slave has read since the
      slot was last given to a client. */
  datatype Pipe = Pipe(toSlave: seq<byte>, work: seq<byte>, fromSlave: seq<byte>, segments: seq<seq<byte>>)

  /** A client: the bytes received from it, the bytes sent to it, its slot (-1 if it was refused), and
      whether that slot held no bytes when the client got it. */
  datatype Client = Client(fd: int, sent: seq<byte>, delivered: seq<byte>, slot: int, clean: bool)

  /** Where the master's loop is.  `Refusing(fd, ready)`: a client has been accepted on descriptor fd,
      the table is full, and `close` comes next.  `Scanning(fd, ready)`: about to look at descriptor fd.
      `Lost` is the exit "client could not be found", or a call on a descriptor that is not open. */
  datatype Pc =
    | AtSelect
    | Accepting(ready: set<int>)
    | Refusing(fd: int, ready: set<int>)
    | Scanning(fd: int, ready: set<int>)
    | Lost
    | Exited

  /** `conn` maps the open descriptors of admitted clients to clients; `closed` counts closings. */
  datatype State = State(m: Master, pc: Pc, pipes: seq<Pipe>, clients: seq<Client>, conn: map<int, nat>, closed: nat)

  datatype Event =
    | Select(ready: set<int>)
    | Accept(fd: int)                      // a request is accepted and gets descriptor fd
    | CloseRefused
    | NoRequest
    | Look(n: nat, data: seq<byte>)        // the loop looks at its current descriptor
    | Fail                                 // a call of the master fails
    | SlaveRead(i: nat, n: nat)
    | SlaveWrite(i: nat)

  const EmptyPipe := Pipe([], [], [], [])

  function Start(msock: int, tbl: seq<Slot>): State {
    State(Started(msock, tbl), AtSelect, seq(|tbl|, i => EmptyPipe), [], map[], 0)
  }

  function Drained(p: Pipe): bool {
    p.toSlave == [] && p.work == [] && p.fromSlave == []
  }

  function WriteEnds(tbl: seq<Slot>): set<int> {
    if tbl == [] then {} else WriteEnds(tbl[..|tbl| - 1]) + {tbl[|tbl| - 1].wr}
  }

  /** accept returns a descriptor number that is free, and 0 never is. */
  predicate FreeDescriptor(s: State, fd: int) {
    fd > 0 && fd != s.m.msock && fd !in ReadEnds(s.m.tbl) && fd !in WriteEnds(s.m.tbl) && fd !in s.conn
  }

  function DoAccept(s: State, fd: int, ready: set<int>): State
    requires |s.pipes| == |s.m.tbl|
  {
    var i := FirstSock(s.m.tbl, 0);
    if i < 0 then
      s.(pc := Refusing(fd, ready), clients := s.clients + [Client(fd, [], [], -1, false)])
    else
      s.(m := Admit(s.m, fd), pc := Scanning(0, ready),
         clients := s.clients + [Client(fd, [], [], i, Drained(s.pipes[i]))],
         conn := s.conn[fd := |s.clients|],
         pipes := s.pipes[i := s.pipes[i].(segments := [])])
  }

  /** echoGetFrmThrd: read up to BUFSIZE bytes from slave i and pass them on to its client, if any. */
  function DoGet(s: State, i: nat, n: nat): Option<State>
    requires i < |s.m.tbl| == |s.pipes|
  {
    var p, ss := s.pipes[i], s.m.tbl[i].ssock;
    if !(0 < n <= BUFSIZE && n <= |p.fromSlave|) then None
    else
      var t := s.(pipes := s.pipes[i := p.(fromSlave := p.fromSlave[n..])]);
      if ss == 0 then Some(t)
      else if ss in s.conn && s.conn[ss] < |s.clients| then
        var c := s.clients[s.conn[ss]];
        Some(t.(clients := s.clients[s.conn[ss] := c.(delivered := c.delivered + p.fromSlave[..n])]))
      else Some(t.(pc := Lost))
  }

  /** echoPost2Thrd and what the loop does with its result: an empty read is the end of the client's
      stream; anything else goes to the slave of the client's slot. */
  function DoPost(s: State, fd: int, data: seq<byte>): Option<State>
    requires |s.pipes| == |s.m.tbl|
  {
    if |data| > BUFSIZE then None
    else if !(fd in s.conn && s.conn[fd] < |s.clients|) then Some(s.(pc := Lost))
    else if data == [] then Some(s.(m := Drop(s.m, fd), conn := s.conn - {fd}, closed := s.closed + 1))
    else
      var i := FirstSock(s.m.tbl, fd);
      if i < 0 then Some(s.(pc := Lost))
      else
        var c := s.clients[s.conn[fd]];
        Some(s.(pipes := s.pipes[i := s.pipes[i].(toSlave := s.pipes[i].toSlave + data)],
                clients := s.clients[s.conn[fd] := c.(sent := c.sent + data)]))
  }

  /** One iteration of the loop over the descriptors. */
  function DoLook(s: State, fd: int, ready: set<int>, n: nat, data: seq<byte>): Option<State>
    requires |s.pipes| == |s.m.tbl|
  {
    var next := s.(pc := Scanning(fd + 1, ready));
    if fd >= s.m.nfds then Some(s.(pc := AtSelect))
    else if fd !in ready then Some(next)
    else if FirstRd(s.m.tbl, fd) >= 0 then DoGet(next, FirstRd(s.m.tbl, fd), n)
    else if fd != s.m.msock then DoPost(next, fd, data)
    else Some(next)
  }

  function Step(s: State, e: Event): Option<State> {
    if |s.pipes| != |s.m.tbl| then None else
    match e
    case Select(ready) =>
      if s.pc == AtSelect && ready <= s.m.afds &&
         (forall i :: 0 <= i < |s.m.tbl| && s.m.tbl[i].rd in ready ==> s.pipes[i].fromSlave != [])
      then Some(s.(pc := Accepting(ready))) else None
    case Accept(fd) =>
      if s.pc.Accepting? && s.m.msock in s.pc.ready && FreeDescriptor(s, fd)
      then Some(DoAccept(s, fd, s.pc.ready)) else None
    case CloseRefused =>
      if s.pc.Refusing? then Some(s.(pc := Scanning(0, s.pc.ready), closed := s.closed + 1)) else None
    case NoRequest =>
      if s.pc.Accepting? && s.m.msock !in s.pc.ready then Some(s.(pc := Scanning(0, s.pc.ready))) else None
    case Look(n, data) => if s.pc.Scanning? then DoLook(s, s.pc.fd, s.pc.ready, n, data) else None
    case Fail => if s.pc != Lost && s.pc != Exited then Some(s.(pc := Exited)) else None
    case SlaveRead(i, n) =>
      if i < |s.pipes| && s.pipes[i].work == [] && 0 < n <= BUFSIZE && n <= |s.pipes[i].toSlave| then
        var p := s.pipes[i];
        Some(s.(pipes := s.pipes[i := p.(toSlave := p.toSlave[n..], work := ReverseBody(p.toSlave[..n]),
                                         segments := p.segments + [p.toSlave[..n]])]))
      else None
    case SlaveWrite(i) =>
      if i < |s.pipes| && s.pipes[i].work != [] then
        var p := s.pipes[i];
        Some(s.(pipes := s.pipes[i := p.(work := [], fromSlave := p.fromSlave + p.work)]))
      else None
  }

  function Exec(s: State, es: seq<Event>): Option<State> {
    After(Step, s, es)
  }

  /** The table as the forks leave it: four slots, free, on distinct descriptors. */
  predicate Forked(msock: int, tbl: seq<Slot>) {
    && |tbl| == MAX_CONCUR_LVL
    && msock > 0
    && (forall i :: 0 <= i < |tbl| ==> tbl[i].ssock == 0 && tbl[i].rd > 0 && tbl[i].wr > 0 && tbl[i].rd != msock && tbl[i].wr != msock)
    && (forall i, j :: 0 <= i < j < |tbl| ==> tbl[i].rd != tbl[j].rd)
  }
}
