/** Bytes through the slave pool: a client gets back its own bytes, segment by segment transformed,
    whenever it is given a slot that holds no leftovers; otherwise it can get foreign bytes. */
module PoolStreams {
  import opened Basics
  import opened SlavePool
  import opened PoolServer
  import opened PoolProofs

  /** The segments transformed one by one and joined. */
  function Turned(segs: seq<seq<byte>>): (r: seq<byte>)
    ensures |r| == |Flatten(segs)|
  {
    if segs == [] then [] else Turned(segs[..|segs| - 1]) + ReverseBody(segs[|segs| - 1])
  }

  lemma Appended(segs: seq<seq<byte>>, x: seq<byte>)
    ensures Flatten(segs + [x]) == Flatten(segs) + x
    ensures Turned(segs + [x]) == Turned(segs) + ReverseBody(x)
  {
    assert (segs + [x])[..|segs|] == segs;
  }

  /** What was sent to the client is a prefix of the transformed segments of some split of a prefix of
      what was received from it. */
  ghost predicate Faithful(c: Client) {
    exists segs :: Flatten(segs) <= c.sent && c.delivered <= Turned(segs)
  }

  /** The same in detail while the client holds a slot: nothing is lost and nothing is added. */
  ghost predicate SlotFaithful(c: Client, p: Pipe) {
    && Flatten(p.segments) + p.toSlave == c.sent
    && c.delivered + (p.fromSlave + p.work) == Turned(p.segments)
  }

  lemma SlotIsFaithful(c: Client, p: Pipe)
    requires SlotFaithful(c, p)
    ensures Faithful(c)
  {
    assert Flatten(p.segments) <= c.sent && c.delivered <= Turned(p.segments);
  }

  ghost predicate SlotsFaithful(s: State)
    requires ConnOk(s) && |s.pipes| == |s.m.tbl|
  {
    forall fd :: fd in s.conn ==>
      var c := s.clients[s.conn[fd]];
      c.clean ==> SlotFaithful(c, s.pipes[c.slot])
  }

  ghost predicate StreamInv(s: State) {
    && AgreeInv(s)
    && SlotsFaithful(s)
    && (forall c :: 0 <= c < |s.clients| && s.clients[c].clean ==> Faithful(s.clients[c]))
  }

  /** A change to the pipe of slot i and to its client, nothing else. */
  lemma SlotKeepsStreams(s: State, t: State, i: int)
    requires StreamInv(s) && AgreeInv(t) && 0 <= i < |s.m.tbl|
    requires t.m == s.m && t.conn == s.conn && |t.clients| == |s.clients|
    requires forall j :: 0 <= j < |s.pipes| && j != i ==> t.pipes[j] == s.pipes[j]
    requires forall c :: 0 <= c < |s.clients| && s.clients[c].slot != i ==> t.clients[c] == s.clients[c]
    requires forall c :: 0 <= c < |s.clients| ==>
               t.clients[c] == s.clients[c] || (s.m.tbl[i].ssock in s.conn && s.conn[s.m.tbl[i].ssock] == c)
    requires forall c :: 0 <= c < |s.clients| ==>
               t.clients[c].clean == s.clients[c].clean && t.clients[c].slot == s.clients[c].slot
    requires s.m.tbl[i].ssock in s.conn && s.clients[s.conn[s.m.tbl[i].ssock]].clean ==>
               SlotFaithful(t.clients[s.conn[s.m.tbl[i].ssock]], t.pipes[i])
    ensures StreamInv(t)
  {
    var ss := s.m.tbl[i].ssock;
    forall fd | fd in t.conn && t.clients[t.conn[fd]].clean
      ensures SlotFaithful(t.clients[t.conn[fd]], t.pipes[t.clients[t.conn[fd]].slot])
    {
      if t.clients[t.conn[fd]].slot == i {
        assert fd == ss;
      } else {
        assert s.clients[s.conn[fd]] == t.clients[t.conn[fd]];
      }
    }
    forall c | 0 <= c < |t.clients| && t.clients[c].clean ensures Faithful(t.clients[c]) {
      if t.clients[c] != s.clients[c] {
        SlotIsFaithful(t.clients[c], t.pipes[i]);
      }
    }
  }

  lemma SlaveReadsFaithfully(c: Client, p: Pipe, n: nat)
    requires SlotFaithful(c, p) && p.work == [] && n <= |p.toSlave|
    ensures SlotFaithful(c, p.(toSlave := p.toSlave[n..], work := ReverseBody(p.toSlave[..n]),
                               segments := p.segments + [p.toSlave[..n]]))
  {
    var a, b := p.toSlave[..n], p.toSlave[n..];
    Appended(p.segments, a);
    assert a + b == p.toSlave;
    Associative(Flatten(p.segments), a, b);
    assert p.fromSlave + p.work == p.fromSlave;
    Associative(c.delivered, p.fromSlave, ReverseBody(a));
  }

  lemma Associative(x: seq<byte>, y: seq<byte>, z: seq<byte>)
    ensures x + y + z == x + (y + z)
  {
  }

  /** Slave i moves: its pipe changes to q, whatever q is, as long as q is faithful to a client to
      whom the old pipe was. */
  lemma SlaveKeepsStreams(s: State, t: State, i: nat)
    requires StreamInv(s) && AgreeInv(t) && i < |s.pipes|
    requires t == s.(pipes := s.pipes[i := t.pipes[i]])
    requires forall c :: SlotFaithful(c, s.pipes[i]) ==> SlotFaithful(c, t.pipes[i])
    ensures StreamInv(t)
  {
    var ss := s.m.tbl[i].ssock;
    if ss in s.conn && s.clients[s.conn[ss]].clean {
      var c := s.clients[s.conn[ss]];
      OwnSlot(s, i);
      assert SlotFaithful(c, s.pipes[i]);
    }
    SlotKeepsStreams(s, t, i);
  }

  lemma SlaveReadKeepsStreams(s: State, i: nat, n: nat)
    requires StreamInv(s) && Step(s, SlaveRead(i, n)).Some?
    ensures StreamInv(Step(s, SlaveRead(i, n)).value)
  {
    StepKeepsAgreement(s, SlaveRead(i, n));
    forall c | SlotFaithful(c, s.pipes[i])
      ensures SlotFaithful(c, Step(s, SlaveRead(i, n)).value.pipes[i])
    {
      SlaveReadsFaithfully(c, s.pipes[i], n);
    }
    SlaveKeepsStreams(s, Step(s, SlaveRead(i, n)).value, i);
  }

  lemma SlaveWriteKeepsStreams(s: State, i: nat)
    requires StreamInv(s) && Step(s, SlaveWrite(i)).Some?
    ensures StreamInv(Step(s, SlaveWrite(i)).value)
  {
    StepKeepsAgreement(s, SlaveWrite(i));
    forall c | SlotFaithful(c, s.pipes[i])
      ensures SlotFaithful(c, Step(s, SlaveWrite(i)).value.pipes[i])
    {
      var p := s.pipes[i];
      assert p.fromSlave + p.work + [] == p.fromSlave + p.work;
    }
    SlaveKeepsStreams(s, Step(s, SlaveWrite(i)).value, i);
  }

  /** The first n bytes on their way back reach the client. */
  lemma DeliversFaithfully(c: Client, p: Pipe, n: nat)
    requires SlotFaithful(c, p) && n <= |p.fromSlave|
    ensures SlotFaithful(c.(delivered := c.delivered + p.fromSlave[..n]), p.(fromSlave := p.fromSlave[n..]))
  {
    var a, b := p.fromSlave[..n], p.fromSlave[n..];
    assert a + b == p.fromSlave;
    Associative(a, b, p.work);
    Associative(c.delivered, a, b + p.work);
  }

  /** The client in slot i is the one whose slot is i. */
  lemma OwnSlot(s: State, i: int)
    requires AgreeInv(s) && 0 <= i < |s.m.tbl| && s.m.tbl[i].ssock in s.conn
    ensures s.clients[s.conn[s.m.tbl[i].ssock]].slot == i
  {
    FoundAt(s.m, s.clients[s.conn[s.m.tbl[i].ssock]].slot);
    FoundAt(s.m, i);
  }

  lemma GetKeepsStreams(s: State, i: nat, n: nat, fd: int, ready: set<int>)
    requires StreamInv(s) && s.pc == Scanning(fd + 1, ready) && i < |s.m.tbl| && s.m.tbl[i].rd == fd
    requires DoGet(s, i, n).Some?
    ensures StreamInv(DoGet(s, i, n).value)
  {
    var t := DoGet(s, i, n).value;
    GetKeepsAgreement(s, i, n, fd, ready);
    var ss := s.m.tbl[i].ssock;
    if ss in s.conn {
      OwnSlot(s, i);
      if s.clients[s.conn[ss]].clean {
        DeliversFaithfully(s.clients[s.conn[ss]], s.pipes[i], n);
      }
    }
    SlotKeepsStreams(s, t, i);
  }

  lemma PostKeepsStreams(s: State, fd: int, ready: set<int>, data: seq<byte>)
    requires StreamInv(s) && s.pc == Scanning(fd + 1, ready) && fd in s.conn && DoPost(s, fd, data).Some?
    ensures StreamInv(DoPost(s, fd, data).value)
  {
    if data == [] {
      PostKeepsAgreement(s, fd, ready, data);
    } else {
      DataKeepsStreams(s, fd, ready, data);
    }
  }

  lemma DataKeepsStreams(s: State, fd: int, ready: set<int>, data: seq<byte>)
    requires StreamInv(s) && s.pc == Scanning(fd + 1, ready) && fd in s.conn && 0 < |data| <= BUFSIZE
    ensures DoPost(s, fd, data).Some? && StreamInv(DoPost(s, fd, data).value)
  {
    PostKeepsAgreement(s, fd, ready, data);
    var t := DoPost(s, fd, data).value;
    var k := s.clients[s.conn[fd]].slot;
    FoundAt(s.m, k);
    var p := s.pipes[k];
    assert Flatten(p.segments) + (p.toSlave + data) == Flatten(p.segments) + p.toSlave + data;
    SlotKeepsStreams(s, t, k);
  }

  lemma AcceptKeepsStreams(s: State, fd: int)
    requires StreamInv(s) && s.pc.Accepting? && FreeDescriptor(s, fd)
    ensures StreamInv(DoAccept(s, fd, s.pc.ready))
  {
    AcceptKeepsAgreement(s, fd);
    if FirstSock(s.m.tbl, 0) >= 0 {
      AdmitKeepsSlots(s, fd);
      NewClientIsFaithful(s, fd);
    }
  }

  /** The new client has got nothing yet, and its slot starts a new list of segments. */
  lemma NewClientIsFaithful(s: State, fd: int)
    requires |s.pipes| == |s.m.tbl| && s.pc.Accepting? && FirstSock(s.m.tbl, 0) >= 0
    ensures var t, n, i := DoAccept(s, fd, s.pc.ready), |s.clients|, FirstSock(s.m.tbl, 0);
            t.clients[n].clean ==> SlotFaithful(t.clients[n], t.pipes[i]) && Faithful(t.clients[n])
  {
    var t, n, i := DoAccept(s, fd, s.pc.ready), |s.clients|, FirstSock(s.m.tbl, 0);
    if t.clients[n].clean {
      assert Flatten([]) == [] && Turned([]) == [];
      SlotIsFaithful(t.clients[n], t.pipes[i]);
    }
  }

  lemma AdmitKeepsSlots(s: State, fd: int)
    requires StreamInv(s) && s.pc.Accepting? && FirstSock(s.m.tbl, 0) >= 0
    requires ConnOk(DoAccept(s, fd, s.pc.ready))
    ensures SlotsFaithful(DoAccept(s, fd, s.pc.ready))
  {
    var t := DoAccept(s, fd, s.pc.ready);
    NewClientIsFaithful(s, fd);
    forall f | f in t.conn && t.clients[t.conn[f]].clean
      ensures SlotFaithful(t.clients[t.conn[f]], t.pipes[t.clients[t.conn[f]].slot])
    {
      if f != fd {
        assert s.m.tbl[s.clients[s.conn[f]].slot].ssock == f != 0;
      }
    }
  }

  lemma PcKeepsStreams(s: State, pc: Pc)
    requires StreamInv(s) && AgreeInv(s.(pc := pc))
    ensures StreamInv(s.(pc := pc))
  {
  }

  lemma LookKeepsStreams(s: State, n: nat, data: seq<byte>)
    requires StreamInv(s) && s.pc.Scanning? && DoLook(s, s.pc.fd, s.pc.ready, n, data).Some?
    ensures StreamInv(DoLook(s, s.pc.fd, s.pc.ready, n, data).value)
  {
    var fd, ready := s.pc.fd, s.pc.ready;
    var next := s.(pc := Scanning(fd + 1, ready));
    SkipKeepsAgreement(s, s.pc.fd + 1);
    PcKeepsStreams(s, next.pc);
    var r := FirstRd(s.m.tbl, fd);
    if fd >= s.m.nfds {
      assert DoLook(s, fd, ready, n, data) == Some(s.(pc := AtSelect));
      StopKeepsAgreement(s);
      PcKeepsStreams(s, AtSelect);
    } else if fd in ready && r >= 0 {
      assert DoLook(s, fd, ready, n, data) == DoGet(next, r, n);
      GetKeepsStreams(next, r, n, fd, ready);
    } else if fd in ready && fd != s.m.msock {
      assert fd in s.conn by { NoReadEnd(s.m.tbl, fd); }
      assert DoLook(s, fd, ready, n, data) == DoPost(next, fd, data);
      PostKeepsStreams(next, fd, ready, data);
    } else {
      assert DoLook(s, fd, ready, n, data) == Some(next);
    }
  }

  lemma StepKeepsStreams(s: State, e: Event)
    requires StreamInv(s) && Step(s, e).Some?
    ensures StreamInv(Step(s, e).value)
  {
    StepKeepsAgreement(s, e);
    match e
    case Accept(fd) => AcceptKeepsStreams(s, fd);
    case Look(n, data) => LookKeepsStreams(s, n, data);
    case SlaveRead(i, n) => SlaveReadKeepsStreams(s, i, n);
    case SlaveWrite(i) => SlaveWriteKeepsStreams(s, i);
    case _ =>
  }

  lemma {:induction false} StartSets(tbl: seq<Slot>)
    requires forall i :: 0 <= i < |tbl| ==> tbl[i].ssock == 0
    ensures Clients(tbl) == {}
    ensures forall msock, x :: x in ReadEnds(tbl) ==> x < StartBound(msock, tbl)
    ensures (forall i :: 0 <= i < |tbl| ==> tbl[i].rd > 0) ==> forall x :: x in ReadEnds(tbl) ==> x > 0
  {
    if tbl != [] {
      StartSets(tbl[..|tbl| - 1]);
    }
  }

  lemma {:induction false} RunKeeps(msock: int, tbl: seq<Slot>, es: seq<Event>)
    requires Forked(msock, tbl) && Exec(Start(msock, tbl), es).Some?
    ensures StreamInv(Exec(Start(msock, tbl), es).value)
  {
    if es == [] {
      StartSets(tbl);
    } else {
      RunKeeps(msock, tbl, es[..|es| - 1]);
      StepKeepsStreams(Exec(Start(msock, tbl), es[..|es| - 1]).value, es[|es| - 1]);
    }
  }

  // ----- Main results -------------------------------------------------------------------------

  lemma {:induction false} AtMostOnePerSlot(tbl: seq<Slot>)
    ensures |Clients(tbl)| <= |tbl|
  {
    if tbl != [] {
      AtMostOnePerSlot(tbl[..|tbl| - 1]);
    }
  }

  /** In every reachable state: the nonzero `ssock` entries are distinct, `afds` is the master socket,
      the slaves' read ends and those entries, all of them are below `nfds`, the open client
      connections are exactly those entries and at most MAX_CONCUR_LVL, and the exit "client could not
      be found" has not been taken. */
  lemma PoolAgreement(msock: int, tbl: seq<Slot>, es: seq<Event>, s: State)
    requires Forked(msock, tbl) && Exec(Start(msock, tbl), es) == Some(s)
    ensures Distinct(s.m.tbl)
    ensures s.m.afds == {s.m.msock} + ReadEnds(s.m.tbl) + Clients(s.m.tbl)
    ensures forall fd :: fd in s.m.afds ==> 0 < fd < s.m.nfds
    ensures s.conn.Keys == Clients(s.m.tbl)
    ensures |s.conn| <= MAX_CONCUR_LVL
    ensures s.pc != Lost
  {
    RunKeeps(msock, tbl, es);
    AtMostOnePerSlot(s.m.tbl);
    assert |s.conn| == |s.conn.Keys|;
  }

  /** Client c has a descriptor that is open. */
  ghost predicate Connected(s: State, c: nat) {
    || (exists fd :: fd in s.conn && s.conn[fd] == c)
    || (s.pc.Refusing? && c == |s.clients| - 1)
  }

  /** A refused client is open between its accept and the close that is the master's next statement, and
      at no other time; an open client that was not refused sits in the slot it was given. */
  lemma RefusedAreClosed(msock: int, tbl: seq<Slot>, es: seq<Event>, s: State, c: nat)
    requires Forked(msock, tbl) && Exec(Start(msock, tbl), es) == Some(s) && c < |s.clients|
    ensures s.clients[c].slot == -1 ==> (Connected(s, c) <==> s.pc.Refusing? && c == |s.clients| - 1)
    ensures s.clients[c].slot != -1 && Connected(s, c) ==>
              0 <= s.clients[c].slot < |s.m.tbl| && s.m.tbl[s.clients[c].slot].ssock == s.clients[c].fd
  {
    RunKeeps(msock, tbl, es);
  }

  /** Over every run that goes on, an accepted client has been closed or is still open: as many were
      accepted as closings and open ones add up to. */
  lemma ClosedOrOpen(msock: int, tbl: seq<Slot>, es: seq<Event>, s: State)
    requires Forked(msock, tbl) && Exec(Start(msock, tbl), es) == Some(s) && s.pc != Exited
    ensures |s.clients| == s.closed + |s.conn| + if s.pc.Refusing? then 1 else 0
  {
    RunCounts(msock, tbl, es);
  }

  ghost predicate Counted(s: State) {
    s.pc != Exited ==> |s.clients| == s.closed + |s.conn| + if s.pc.Refusing? then 1 else 0
  }

  lemma KeySizes<V>(a: map<int, V>, b: map<int, V>, fd: int)
    requires fd !in a && b.Keys == a.Keys + {fd}
    ensures |b| == |a| + 1
  {
    assert |a| == |a.Keys| && |b| == |b.Keys|;
  }

  lemma PostCounts(s: State, fd: int, data: seq<byte>)
    requires Counted(s) && |s.pipes| == |s.m.tbl| && DoPost(s, fd, data).Some? && s.pc.Scanning?
    ensures Counted(DoPost(s, fd, data).value)
  {
    if fd in s.conn && data == [] {
      KeySizes(s.conn - {fd}, s.conn, fd);
    }
  }

  lemma LookCounts(s: State, n: nat, data: seq<byte>)
    requires Counted(s) && |s.pipes| == |s.m.tbl| && s.pc.Scanning?
    requires DoLook(s, s.pc.fd, s.pc.ready, n, data).Some?
    ensures Counted(DoLook(s, s.pc.fd, s.pc.ready, n, data).value)
  {
    var fd, ready := s.pc.fd, s.pc.ready;
    var next := s.(pc := Scanning(fd + 1, ready));
    var r := FirstRd(s.m.tbl, fd);
    if fd < s.m.nfds && fd in ready && r >= 0 {
      assert DoLook(s, fd, ready, n, data) == DoGet(next, r, n);
    } else if fd < s.m.nfds && fd in ready && fd != s.m.msock {
      assert DoLook(s, fd, ready, n, data) == DoPost(next, fd, data);
      PostCounts(next, fd, data);
    }
  }

  lemma AcceptCounts(s: State, fd: int, ready: set<int>)
    requires Counted(s) && |s.pipes| == |s.m.tbl| && s.pc == Accepting(ready) && fd !in s.conn
    ensures Counted(DoAccept(s, fd, ready))
  {
    if FirstSock(s.m.tbl, 0) >= 0 {
      KeySizes(s.conn, DoAccept(s, fd, ready).conn, fd);
    }
  }

  lemma StepCounts(s: State, e: Event)
    requires Counted(s) && Step(s, e).Some?
    ensures Counted(Step(s, e).value)
  {
    match e
    case Accept(fd) => AcceptCounts(s, fd, s.pc.ready);
    case Look(n, data) => LookCounts(s, n, data);
    case _ =>
  }

  lemma {:induction false} RunCounts(msock: int, tbl: seq<Slot>, es: seq<Event>)
    requires Exec(Start(msock, tbl), es).Some?
    ensures Counted(Exec(Start(msock, tbl), es).value)
  {
    if es != [] {
      RunCounts(msock, tbl, es[..|es| - 1]);
      StepCounts(Exec(Start(msock, tbl), es[..|es| - 1]).value, es[|es| - 1]);
    }
  }

  /** In every reachable state a client that got a drained slot has received only its own bytes,
      transformed segment by segment, in order and without repetition. */
  lemma StreamsReachTheirOwner(msock: int, tbl: seq<Slot>, es: seq<Event>, s: State, c: nat)
    requires Forked(msock, tbl) && Exec(Start(msock, tbl), es) == Some(s)
    requires c < |s.clients| && s.clients[c].clean
    ensures Faithful(s.clients[c])
  {
    RunKeeps(msock, tbl, es);
  }

  /** Once nothing is in transit for such a client, it has received the transformation of everything
      that was received from it. */
  lemma NothingIsLost(msock: int, tbl: seq<Slot>, es: seq<Event>, s: State, fd: int)
    requires Forked(msock, tbl) && Exec(Start(msock, tbl), es) == Some(s)
    requires fd in s.conn && s.conn[fd] < |s.clients| && s.clients[s.conn[fd]].clean
    requires 0 <= s.clients[s.conn[fd]].slot < |s.pipes| && Drained(s.pipes[s.clients[s.conn[fd]].slot])
    ensures var c := s.clients[s.conn[fd]];
            exists segs :: Flatten(segs) == c.sent && Turned(segs) == c.delivered
  {
    RunKeeps(msock, tbl, es);
    var c := s.clients[s.conn[fd]];
    var p := s.pipes[c.slot];
    assert SlotFaithful(c, p);
    assert Flatten(p.segments) == c.sent && Turned(p.segments) == c.delivered;
  }
}
