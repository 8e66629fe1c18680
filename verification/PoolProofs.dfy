/** What holds in every run of the slave pool: the table, the descriptor set and the bound agree, and
    bytes reach their owner. */
module PoolProofs {
  import opened Basics
  import opened SlavePool
  import opened PoolServer

  // ----- Agreement of table, set, bound and open connections ------------------------------------

  ghost predicate SlotsOk(m: Master) {
    && |m.tbl| == MAX_CONCUR_LVL
    && m.msock > 0
    && (forall i :: 0 <= i < |m.tbl| ==> m.tbl[i].rd > 0 && m.tbl[i].rd != m.msock)
    && (forall i, j :: 0 <= i < j < |m.tbl| ==> m.tbl[i].rd != m.tbl[j].rd)
    && Distinct(m.tbl)
  }

  ghost predicate SetOk(m: Master) {
    && m.afds == {m.msock} + ReadEnds(m.tbl) + Clients(m.tbl)
    && (forall fd :: fd in m.afds ==> 0 < fd < m.nfds)
  }

  /** The open client connections are the ones in the table, and each client knows its slot. */
  ghost predicate ConnOk(s: State) {
    && s.conn.Keys == Clients(s.m.tbl)
    && (forall fd :: fd in s.conn ==>
          && fd > 0 && fd != s.m.msock && fd !in ReadEnds(s.m.tbl)
          && s.conn[fd] < |s.clients|
          && s.clients[s.conn[fd]].fd == fd
          && 0 <= s.clients[s.conn[fd]].slot < |s.m.tbl|
          && s.m.tbl[s.clients[s.conn[fd]].slot].ssock == fd)
  }

  /** The descriptors still to be looked at are open, and the pipes among them have data. */
  ghost predicate Fresh(s: State, fd: int, ready: set<int>) {
    && |s.pipes| == |s.m.tbl|
    && (forall f :: f in ready && f >= fd ==> f == s.m.msock || f in ReadEnds(s.m.tbl) || f in s.conn)
    && (forall i :: 0 <= i < |s.m.tbl| && s.m.tbl[i].rd in ready && s.m.tbl[i].rd >= fd ==>
          s.pipes[i].fromSlave != [])
    && (forall f :: f in ready ==> 0 < f < s.m.nfds)
  }

  ghost predicate ScanOk(s: State) {
    match s.pc
    case Accepting(ready) => Fresh(s, 0, ready)
    case Refusing(fd, ready) =>
      && Fresh(s, 0, ready) && fd !in s.conn && fd !in s.m.afds
      && s.clients != [] && s.clients[|s.clients| - 1] == Client(fd, [], [], -1, false)
    case Scanning(fd, ready) => fd >= 0 && Fresh(s, fd, ready)
    case Lost => false
    case _ => true
  }

  ghost predicate AgreeInv(s: State) {
    |s.pipes| == MAX_CONCUR_LVL && SlotsOk(s.m) && SetOk(s.m) && ConnOk(s) && ScanOk(s)
  }

  lemma {:induction false} Members(tbl: seq<Slot>, i: int)
    requires 0 <= i < |tbl|
    ensures tbl[i].rd in ReadEnds(tbl)
    ensures tbl[i].ssock != 0 ==> tbl[i].ssock in Clients(tbl)
  {
    if i < |tbl| - 1 {
      Members(tbl[..|tbl| - 1], i);
    }
  }

  lemma {:induction false} ClientAt(tbl: seq<Slot>, x: int) returns (i: nat)
    requires x in Clients(tbl)
    ensures i < |tbl| && tbl[i].ssock == x != 0
  {
    if tbl[|tbl| - 1].ssock == x != 0 {
      i := |tbl| - 1;
    } else {
      i := ClientAt(tbl[..|tbl| - 1], x);
    }
  }

  lemma {:induction false} ReadEndAt(tbl: seq<Slot>, x: int) returns (i: nat)
    requires x in ReadEnds(tbl)
    ensures i < |tbl| && tbl[i].rd == x
  {
    if tbl[|tbl| - 1].rd == x {
      i := |tbl| - 1;
    } else {
      i := ReadEndAt(tbl[..|tbl| - 1], x);
    }
  }

  ghost predicate Distinct(tbl: seq<Slot>) {
    forall i, j :: 0 <= i < j < |tbl| && tbl[i].ssock != 0 ==> tbl[i].ssock != tbl[j].ssock
  }

  /** Changing the client of slot k. */
  lemma {:induction false} SetSockSets(tbl: seq<Slot>, k: int, ss: int)
    requires 0 <= k < |tbl| && Distinct(tbl)
    ensures var t := SetSock(tbl, k, ss);
            && ReadEnds(t) == ReadEnds(tbl)
            && Clients(t) == Clients(tbl) - {tbl[k].ssock} + (if ss != 0 then {ss} else {})
  {
    var t, n := SetSock(tbl, k, ss), |tbl| - 1;
    if k < n {
      assert t[..n] == SetSock(tbl[..n], k, ss);
      SetSockSets(tbl[..n], k, ss);
    } else {
      assert t[..n] == tbl[..n];
      if tbl[n].ssock != 0 && tbl[n].ssock in Clients(tbl[..n]) {
        var i := ClientAt(tbl[..n], tbl[n].ssock);
      }
      if 0 in Clients(tbl[..n]) {
        var i := ClientAt(tbl[..n], 0);
      }
    }
  }

  /** Giving a free slot to a new client. */
  lemma AdmitKeeps(m: Master, ss: int)
    requires SlotsOk(m) && SetOk(m) && ss > 0 && ss !in m.afds && FirstSock(m.tbl, 0) >= 0
    ensures var t := Admit(m, ss);
            && SlotsOk(t) && SetOk(t)
            && ReadEnds(t.tbl) == ReadEnds(m.tbl) && Clients(t.tbl) == Clients(m.tbl) + {ss}
            && t.nfds >= m.nfds
  {
    var i := FirstSock(m.tbl, 0);
    SetSockSets(m.tbl, i, ss);
    if 0 in Clients(m.tbl) {
      var j := ClientAt(m.tbl, 0);
    }
    forall j | 0 <= j < |m.tbl| && m.tbl[j].ssock != 0 ensures m.tbl[j].ssock != ss {
      Members(m.tbl, j);
    }
  }

  lemma FoundAt(m: Master, k: int)
    requires SlotsOk(m) && 0 <= k < |m.tbl| && m.tbl[k].ssock != 0
    ensures FirstSock(m.tbl, m.tbl[k].ssock) == k
  {
  }

  /** Taking a slot away from its client. */
  lemma DropKeeps(m: Master, k: int)
    requires SlotsOk(m) && SetOk(m) && 0 <= k < |m.tbl| && m.tbl[k].ssock != 0
    requires m.tbl[k].ssock != m.msock && m.tbl[k].ssock !in ReadEnds(m.tbl)
    ensures var t := Drop(m, m.tbl[k].ssock);
            && t == m.(tbl := SetSock(m.tbl, k, 0), afds := m.afds - {m.tbl[k].ssock})
            && SlotsOk(t) && SetOk(t)
            && ReadEnds(t.tbl) == ReadEnds(m.tbl) && Clients(t.tbl) == Clients(m.tbl) - {m.tbl[k].ssock}
  {
    FoundAt(m, k);
    SetSockSets(m.tbl, k, 0);
  }

  lemma AcceptKeepsAgreement(s: State, fd: int)
    requires AgreeInv(s) && s.pc.Accepting? && FreeDescriptor(s, fd)
    ensures AgreeInv(DoAccept(s, fd, s.pc.ready))
  {
    var t := DoAccept(s, fd, s.pc.ready);
    if FirstSock(s.m.tbl, 0) >= 0 {
      AdmitKeeps(s.m, fd);
      AcceptKeepsConn(s, fd);
      assert Fresh(t, 0, s.pc.ready);
    }
  }

  lemma AcceptKeepsConn(s: State, fd: int)
    requires |s.pipes| == MAX_CONCUR_LVL && SlotsOk(s.m) && ConnOk(s) && s.pc.Accepting? && FreeDescriptor(s, fd)
    requires FirstSock(s.m.tbl, 0) >= 0
    requires ReadEnds(Admit(s.m, fd).tbl) == ReadEnds(s.m.tbl)
    requires Clients(Admit(s.m, fd).tbl) == Clients(s.m.tbl) + {fd}
    ensures ConnOk(DoAccept(s, fd, s.pc.ready))
  {
    var t := DoAccept(s, fd, s.pc.ready);
    assert t.conn.Keys == s.conn.Keys + {fd};
    assert forall f :: f in s.conn ==> t.clients[t.conn[f]] == s.clients[s.conn[f]];
  }

  lemma GetKeepsAgreement(s: State, i: nat, n: nat, fd: int, ready: set<int>)
    requires AgreeInv(s) && s.pc == Scanning(fd + 1, ready) && i < |s.m.tbl| && s.m.tbl[i].rd == fd
    requires DoGet(s, i, n).Some?
    ensures AgreeInv(DoGet(s, i, n).value)
  {
    var ss := s.m.tbl[i].ssock;
    if ss != 0 {
      Members(s.m.tbl, i);
    }
  }

  lemma PostKeepsAgreement(s: State, fd: int, ready: set<int>, data: seq<byte>)
    requires AgreeInv(s) && s.pc == Scanning(fd + 1, ready) && fd in s.conn && DoPost(s, fd, data).Some?
    ensures AgreeInv(DoPost(s, fd, data).value)
  {
    FoundAt(s.m, s.clients[s.conn[fd]].slot);
    if data == [] {
      LeaveKeepsAgreement(s, fd, ready);
    }
  }

  /** A client has reached the end of its stream. */
  lemma LeaveKeepsAgreement(s: State, fd: int, ready: set<int>)
    requires AgreeInv(s) && s.pc == Scanning(fd + 1, ready) && fd in s.conn
    ensures AgreeInv(s.(m := Drop(s.m, fd), conn := s.conn - {fd}, closed := s.closed + 1))
  {
    var k := s.clients[s.conn[fd]].slot;
    DropKeeps(s.m, k);
    LeaveKeepsConn(s, fd, k);
    LeaveKeepsScan(s, fd, ready, k);
  }

  lemma LeaveKeepsConn(s: State, fd: int, k: int)
    requires ConnOk(s) && fd in s.conn && k == s.clients[s.conn[fd]].slot
    requires Drop(s.m, fd) == s.m.(tbl := SetSock(s.m.tbl, k, 0), afds := s.m.afds - {fd})
    requires ReadEnds(SetSock(s.m.tbl, k, 0)) == ReadEnds(s.m.tbl)
    requires Clients(SetSock(s.m.tbl, k, 0)) == Clients(s.m.tbl) - {fd}
    ensures ConnOk(s.(m := Drop(s.m, fd), conn := s.conn - {fd}, closed := s.closed + 1))
  {
    var t := s.(m := Drop(s.m, fd), conn := s.conn - {fd}, closed := s.closed + 1);
    forall f | f in t.conn ensures t.m.tbl[t.clients[t.conn[f]].slot].ssock == f {
      assert f in s.conn && f != fd;
    }
  }

  lemma LeaveKeepsScan(s: State, fd: int, ready: set<int>, k: int)
    requires Fresh(s, fd + 1, ready) && 0 <= k < |s.m.tbl| && fd >= 0
    requires Drop(s.m, fd) == s.m.(tbl := SetSock(s.m.tbl, k, 0), afds := s.m.afds - {fd})
    requires ReadEnds(SetSock(s.m.tbl, k, 0)) == ReadEnds(s.m.tbl)
    ensures Fresh(s.(m := Drop(s.m, fd), conn := s.conn - {fd}, closed := s.closed + 1), fd + 1, ready)
  {
  }

  lemma NoReadEnd(tbl: seq<Slot>, fd: int)
    requires FirstRd(tbl, fd) < 0
    ensures fd !in ReadEnds(tbl)
  {
    if fd in ReadEnds(tbl) {
      var i := ReadEndAt(tbl, fd);
    }
  }

  lemma SkipKeepsAgreement(s: State, g: int)
    requires AgreeInv(s) && s.pc.Scanning? && g >= s.pc.fd
    ensures AgreeInv(s.(pc := Scanning(g, s.pc.ready)))
  {
    assert Fresh(s.(pc := Scanning(g, s.pc.ready)), g, s.pc.ready);
  }

  lemma LookKeepsAgreement(s: State, n: nat, data: seq<byte>)
    requires AgreeInv(s) && s.pc.Scanning? && DoLook(s, s.pc.fd, s.pc.ready, n, data).Some?
    ensures AgreeInv(DoLook(s, s.pc.fd, s.pc.ready, n, data).value)
  {
    var fd, ready := s.pc.fd, s.pc.ready;
    var next := s.(pc := Scanning(fd + 1, ready));
    SkipKeepsAgreement(s, s.pc.fd + 1);
    var r := FirstRd(s.m.tbl, fd);
    if fd >= s.m.nfds {
      StopKeepsAgreement(s);
    } else if fd in ready && r >= 0 {
      assert DoLook(s, fd, ready, n, data) == DoGet(next, r, n);
      GetKeepsAgreement(next, r, n, fd, ready);
    } else if fd in ready && fd != s.m.msock {
      NoReadEnd(s.m.tbl, fd);
      assert fd in s.conn;
      assert DoLook(s, fd, ready, n, data) == DoPost(next, fd, data);
      PostKeepsAgreement(next, fd, ready, data);
    } else {
      assert DoLook(s, fd, ready, n, data) == Some(next);
    }
  }

  lemma StopKeepsAgreement(s: State)
    requires AgreeInv(s)
    ensures AgreeInv(s.(pc := AtSelect))
  {
  }

  lemma SlaveKeepsAgreement(s: State, t: State)
    requires AgreeInv(s) && |t.pipes| == |s.pipes| && t == s.(pipes := t.pipes)
    requires forall i :: 0 <= i < |s.pipes| && s.pipes[i].fromSlave != [] ==> t.pipes[i].fromSlave != []
    ensures AgreeInv(t)
  {
  }

  lemma StepKeepsAgreement(s: State, e: Event)
    requires AgreeInv(s) && Step(s, e).Some?
    ensures AgreeInv(Step(s, e).value)
  {
    match e
    case Select(ready) =>
    case Accept(fd) => AcceptKeepsAgreement(s, fd);
    case Look(n, data) => LookKeepsAgreement(s, n, data);
    case SlaveRead(i, n) => SlaveKeepsAgreement(s, Step(s, e).value);
    case SlaveWrite(i) => SlaveKeepsAgreement(s, Step(s, e).value);
    case _ => 
  }
}
