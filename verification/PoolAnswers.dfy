/** What the pool does for a client at each point: whom it admits, what it does with the bytes of a client
    and of a slave, and when a connection ends. */
module PoolAnswers {
  import opened Basics
  import opened Runs
  import opened SlavePool
  import opened PoolServer
  import opened PoolProofs
  import opened PoolStreams

  /** A request is refused exactly when every slot is taken; otherwise the client gets a free slot. */
  lemma RefusedExactlyWhenFull(s: State, fd: int, t: State)
    requires Step(s, Accept(fd)) == Some(t)
    ensures |t.clients| == |s.clients| + 1 && t.clients[..|s.clients|] == s.clients
    ensures var c := t.clients[|s.clients|];
            && c.fd == fd && c.sent == [] && c.delivered == []
            && (c.slot == -1 <==> forall i :: 0 <= i < |s.m.tbl| ==> s.m.tbl[i].ssock != 0)
            && (c.slot == -1 ==> t.pc == Refusing(fd, s.pc.ready) && t.m == s.m && t.conn == s.conn)
            && (c.slot != -1 ==>
                  && t.pc == Scanning(0, s.pc.ready)
                  && 0 <= c.slot < |s.m.tbl| && s.m.tbl[c.slot].ssock == 0
                  && t.m.tbl == s.m.tbl[c.slot := s.m.tbl[c.slot].(ssock := fd)]
                  && t.conn == s.conn[fd := |s.clients|])
  {
    assert t.clients[|s.clients|].slot == FirstSock(s.m.tbl, 0);
  }

  /** What a look at client c on descriptor fd does: an empty read closes it and frees its slot i; other
      bytes go to the slave of that slot, and to no other. */
  ghost predicate Passes(s: State, t: State, fd: int, c: nat, i: nat, data: seq<byte>)
    requires c < |s.clients| && i < |s.pipes| && i < |s.m.tbl|
  {
    if data == [] then
      && fd !in t.conn && t.conn == s.conn - {fd} && t.closed == s.closed + 1
      && t.clients == s.clients && t.pipes == s.pipes
      && t.m == s.m.(tbl := s.m.tbl[i := s.m.tbl[i].(ssock := 0)], afds := s.m.afds - {fd})
    else
      && t.conn == s.conn && t.closed == s.closed && t.m == s.m
      && t.clients == s.clients[c := s.clients[c].(sent := s.clients[c].sent + data)]
      && t.pipes == s.pipes[i := s.pipes[i].(toSlave := s.pipes[i].toSlave + data)]
  }

  lemma PostPasses(s: State, fd: int, data: seq<byte>)
    requires AgreeInv(s) && fd in s.conn && DoPost(s, fd, data).Some?
    ensures var t := DoPost(s, fd, data).value;
            Passes(s, t, fd, s.conn[fd], s.clients[s.conn[fd]].slot, data) && t.pc == s.pc
  {
    FoundAt(s.m, s.clients[s.conn[fd]].slot);
  }

  /** In every reachable state in which the scan is at a ready client. */
  lemma ClientIsServed(msock: int, tbl: seq<Slot>, es: seq<Event>, s: State, n: nat, data: seq<byte>, t: State)
    requires Forked(msock, tbl) && Exec(Start(msock, tbl), es) == Some(s)
    requires s.pc.Scanning? && s.pc.fd in s.pc.ready && s.pc.fd in s.conn && Step(s, Look(n, data)) == Some(t)
    ensures s.conn[s.pc.fd] < |s.clients| && 0 <= s.clients[s.conn[s.pc.fd]].slot < |s.pipes| == |s.m.tbl|
    ensures Passes(s, t, s.pc.fd, s.conn[s.pc.fd], s.clients[s.conn[s.pc.fd]].slot, data)
    ensures t.pc == Scanning(s.pc.fd + 1, s.pc.ready)
  {
    RunKeeps(msock, tbl, es);
    ClientLook(s, n, data);
  }

  lemma ClientLook(s: State, n: nat, data: seq<byte>)
    requires AgreeInv(s) && s.pc.Scanning? && s.pc.fd in s.pc.ready && s.pc.fd in s.conn
    requires DoLook(s, s.pc.fd, s.pc.ready, n, data).Some?
    ensures var t := DoLook(s, s.pc.fd, s.pc.ready, n, data).value;
            && Passes(s, t, s.pc.fd, s.conn[s.pc.fd], s.clients[s.conn[s.pc.fd]].slot, data)
            && t.pc == Scanning(s.pc.fd + 1, s.pc.ready)
  {
    var fd, ready := s.pc.fd, s.pc.ready;
    var next := s.(pc := Scanning(fd + 1, ready));
    SkipKeepsAgreement(s, fd + 1);
    NotARead(s, fd);
    assert DoLook(s, fd, ready, n, data) == DoPost(next, fd, data);
    PostPasses(next, fd, data);
  }

  /** An open client is neither a pipe nor the master socket. */
  lemma NotARead(s: State, fd: int)
    requires AgreeInv(s) && fd in s.conn
    ensures FirstRd(s.m.tbl, fd) < 0 && fd != s.m.msock
  {
    var r := FirstRd(s.m.tbl, fd);
    if r >= 0 {
      Members(s.m.tbl, r);
    }
  }

  /** What a look at slave i's pipe does: the first n bytes go to the client that holds the slot, and to
      nobody if the slot is free. */
  ghost predicate Returns(s: State, t: State, i: nat, n: nat)
    requires i < |s.pipes| && i < |s.m.tbl|
  {
    var p, ss := s.pipes[i], s.m.tbl[i].ssock;
    && 0 < n <= |p.fromSlave|
    && t.m == s.m && t.conn == s.conn && t.closed == s.closed
    && t.pipes == s.pipes[i := p.(fromSlave := p.fromSlave[n..])]
    && if ss == 0 then t.clients == s.clients
       else ss in s.conn && s.conn[ss] < |s.clients| &&
            var c := s.clients[s.conn[ss]];
            t.clients == s.clients[s.conn[ss] := c.(delivered := c.delivered + p.fromSlave[..n])]
  }

  lemma GetReturns(s: State, i: nat, n: nat)
    requires AgreeInv(s) && i < |s.m.tbl| && DoGet(s, i, n).Some?
    ensures Returns(s, DoGet(s, i, n).value, i, n) && DoGet(s, i, n).value.pc == s.pc
  {
    if s.m.tbl[i].ssock != 0 {
      Members(s.m.tbl, i);
    }
  }

  /** In every reachable state in which the scan is at the ready pipe of slave i. */
  lemma SlaveIsHeard(msock: int, tbl: seq<Slot>, es: seq<Event>, s: State, i: nat, n: nat, data: seq<byte>, t: State)
    requires Forked(msock, tbl) && Exec(Start(msock, tbl), es) == Some(s) && i < |s.m.tbl|
    requires s.pc.Scanning? && s.pc.fd in s.pc.ready && s.pc.fd == s.m.tbl[i].rd && Step(s, Look(n, data)) == Some(t)
    ensures |s.pipes| == |s.m.tbl|
    ensures Returns(s, t, i, n) && t.pc == Scanning(s.pc.fd + 1, s.pc.ready)
  {
    RunKeeps(msock, tbl, es);
    PipeLook(s, i, n, data);
  }

  lemma PipeLook(s: State, i: nat, n: nat, data: seq<byte>)
    requires AgreeInv(s) && s.pc.Scanning? && s.pc.fd in s.pc.ready && i < |s.m.tbl| && s.pc.fd == s.m.tbl[i].rd
    requires DoLook(s, s.pc.fd, s.pc.ready, n, data).Some?
    ensures var t := DoLook(s, s.pc.fd, s.pc.ready, n, data).value;
            Returns(s, t, i, n) && t.pc == Scanning(s.pc.fd + 1, s.pc.ready)
  {
    var fd, ready := s.pc.fd, s.pc.ready;
    var next := s.(pc := Scanning(fd + 1, ready));
    SkipKeepsAgreement(s, fd + 1);
    assert FirstRd(s.m.tbl, fd) == i;
    assert DoLook(s, fd, ready, n, data) == DoGet(next, i, n);
    GetReturns(next, i, n);
  }

  /** An open client stays open until the scan, at its descriptor, finds its stream at the end. */
  lemma OpenUntilTheEnd(msock: int, tbl: seq<Slot>, es: seq<Event>, s: State, e: Event, t: State, fd: int)
    requires Forked(msock, tbl) && Exec(Start(msock, tbl), es) == Some(s) && Step(s, e) == Some(t) && fd in s.conn
    ensures fd in t.conn <==> !(s.pc.Scanning? && s.pc.fd == fd && fd in s.pc.ready && e.Look? && e.data == [])
    ensures fd in t.conn ==> t.conn[fd] == s.conn[fd]
  {
    RunKeeps(msock, tbl, es);
    if e.Look? {
      LookKeepsOpen(s, e.n, e.data, fd);
    } else {
      OthersKeepOpen(s, e, fd);
    }
  }

  lemma OthersKeepOpen(s: State, e: Event, fd: int)
    requires Step(s, e).Some? && !e.Look? && fd in s.conn
    ensures fd in Step(s, e).value.conn && Step(s, e).value.conn[fd] == s.conn[fd]
  {
  }

  lemma LookKeepsOpen(s: State, n: nat, data: seq<byte>, fd: int)
    requires AgreeInv(s) && s.pc.Scanning? && fd in s.conn && DoLook(s, s.pc.fd, s.pc.ready, n, data).Some?
    ensures var t := DoLook(s, s.pc.fd, s.pc.ready, n, data).value;
            && (fd in t.conn <==> !(s.pc.fd == fd && fd in s.pc.ready && data == []))
            && (fd in t.conn ==> t.conn[fd] == s.conn[fd])
  {
    var at, ready := s.pc.fd, s.pc.ready;
    if at in s.conn && at in ready {
      ClientLook(s, n, data);
    } else if at in ready && FirstRd(s.m.tbl, at) >= 0 {
      PipeLook(s, FirstRd(s.m.tbl, at), n, data);
    } else if at in ready && at < s.m.nfds {
      NoReadEnd(s.m.tbl, at);
    }
  }
}
