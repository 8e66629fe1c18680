/** A slot is freed without draining its pipes.  A client that is given a slot with leftovers can be
    sent bytes that are not its own, so the stream property holds in every continuation exactly when
    the slot is drained at that moment. */
module PoolLeftovers {
  import opened Basics
  import opened Runs
  import opened SlavePool
  import opened PoolServer
  import opened PoolProofs
  import opened PoolStreams

  /** The client on descriptor fd holds slot i, and nothing has been received from it. */
  ghost predicate Silent(s: State, fd: int, c: nat, i: nat) {
    && AgreeInv(s)
    && fd in s.conn && s.conn[fd] == c && s.clients[c].slot == i
    && s.clients[c].sent == []
  }

  ghost predicate Clogged(s: State, fd: int, c: nat, i: nat) {
    && Silent(s, fd, c, i)
    && s.clients[c].delivered == []
    && !Drained(s.pipes[i])
  }

  /** The client has been sent something although nothing was received from it. */
  ghost predicate GotForeign(s: State, c: nat) {
    c < |s.clients| && s.clients[c].sent == [] && s.clients[c].delivered != []
  }

  lemma ForeignIsUnfaithful(s: State, c: nat)
    requires GotForeign(s, c)
    ensures !Faithful(s.clients[c])
  {
  }

  /** The master looks at slave i's pipe, which has data: the silent client is sent a byte. */
  lemma GetDelivers(s: State, fd: int, c: nat, i: nat)
    requires Clogged(s, fd, c, i) && s.pc.Scanning? && s.pc.fd == s.m.tbl[i].rd && s.pc.fd in s.pc.ready
    ensures Step(s, Look(1, [])).Some? && GotForeign(Step(s, Look(1, [])).value, c)
  {
    var at, ready := s.pc.fd, s.pc.ready;
    var next := s.(pc := Scanning(at + 1, ready));
    assert FirstRd(s.m.tbl, at) == i;
    assert s.pipes[i].fromSlave != [];
    assert DoLook(s, at, ready, 1, []) == DoGet(next, i, 1);
  }

  /** One look of the master at its current descriptor, chosen so that every other client that is
      ready is at the end of its stream. */
  lemma OneLook(s: State, fd: int, c: nat, i: nat)
    requires Clogged(s, fd, c, i) && s.pc.Scanning? && fd !in s.pc.ready
    requires !(s.pc.fd == s.m.tbl[i].rd && s.pc.fd in s.pc.ready)
    ensures Step(s, Look(1, [])).Some?
    ensures var t := Step(s, Look(1, [])).value;
            && Clogged(t, fd, c, i) && t.m.nfds == s.m.nfds
            && t.pc == if s.pc.fd >= s.m.nfds then AtSelect else Scanning(s.pc.fd + 1, s.pc.ready)
  {
    var at, ready := s.pc.fd, s.pc.ready;
    if at >= s.m.nfds {
      assert DoLook(s, at, ready, 1, []) == Some(s.(pc := AtSelect));
      StopKeepsAgreement(s);
    } else {
      SkipKeepsAgreement(s, s.pc.fd + 1);
      if at in ready {
        LookAtReady(s, fd, c, i);
      } else {
        assert DoLook(s, at, ready, 1, []) == Some(s.(pc := Scanning(at + 1, ready)));
      }
    }
  }

  /** The descriptor is ready: another slave's pipe, the master socket, or another client. */
  lemma LookAtReady(s: State, fd: int, c: nat, i: nat)
    requires Clogged(s, fd, c, i) && s.pc.Scanning? && fd !in s.pc.ready
    requires s.pc.fd in s.pc.ready && s.pc.fd != s.m.tbl[i].rd && s.pc.fd < s.m.nfds
    requires AgreeInv(s.(pc := Scanning(s.pc.fd + 1, s.pc.ready)))
    ensures DoLook(s, s.pc.fd, s.pc.ready, 1, []).Some?
    ensures var t := DoLook(s, s.pc.fd, s.pc.ready, 1, []).value;
            Clogged(t, fd, c, i) && t.m.nfds == s.m.nfds && t.pc == Scanning(s.pc.fd + 1, s.pc.ready)
  {
    var at, ready := s.pc.fd, s.pc.ready;
    var next := s.(pc := Scanning(at + 1, ready));
    var r := FirstRd(s.m.tbl, at);
    if r >= 0 {
      assert DoLook(s, at, ready, 1, []) == DoGet(next, r, 1);
      GetKeepsClogged(next, fd, c, i, r, at, ready);
    } else if at != s.m.msock {
      assert at in s.conn by { NoReadEnd(s.m.tbl, at); }
      assert DoLook(s, at, ready, 1, []) == DoPost(next, at, []);
      LeaveKeepsClogged(next, fd, c, i, at, ready);
    } else {
      assert DoLook(s, at, ready, 1, []) == Some(next);
    }
  }

  /** Bytes of another slave are passed on. */
  lemma GetKeepsClogged(s: State, fd: int, c: nat, i: nat, r: nat, at: int, ready: set<int>)
    requires Clogged(s, fd, c, i) && s.pc == Scanning(at + 1, ready)
    requires r < |s.m.tbl| && r != i && s.m.tbl[r].rd == at && s.pipes[r].fromSlave != []
    ensures DoGet(s, r, 1).Some?
    ensures var t := DoGet(s, r, 1).value; Clogged(t, fd, c, i) && t.m == s.m && t.pc == s.pc
  {
    OtherGet(s, fd, c, i, r);
    GetKeepsAgreement(s, r, 1, at, ready);
  }

  /** Another client leaves. */
  lemma LeaveKeepsClogged(s: State, fd: int, c: nat, i: nat, at: int, ready: set<int>)
    requires Clogged(s, fd, c, i) && s.pc == Scanning(at + 1, ready) && at in s.conn && at != fd
    ensures DoPost(s, at, []).Some?
    ensures var t := DoPost(s, at, []).value; Clogged(t, fd, c, i) && t.m.nfds == s.m.nfds && t.pc == s.pc
  {
    assert DoPost(s, at, []) == Some(s.(m := Drop(s.m, at), conn := s.conn - {at}, closed := s.closed + 1));
    PostKeepsAgreement(s, at, ready, []);
  }

  lemma OtherGet(s: State, fd: int, c: nat, i: nat, r: nat)
    requires Clogged(s, fd, c, i) && r < |s.m.tbl| && r != i && s.pipes[r].fromSlave != []
    ensures DoGet(s, r, 1).Some?
    ensures var t := DoGet(s, r, 1).value;
            t.m == s.m && t.pc == s.pc && t.conn == s.conn && |t.clients| == |s.clients| &&
            t.clients[c] == s.clients[c] && |t.pipes| == |s.pipes| && t.pipes[i] == s.pipes[i]
  {
    var ss := s.m.tbl[r].ssock;
    if ss != 0 {
      Members(s.m.tbl, r);
      assert s.conn[ss] != c by {
        FoundAt(s.m, i);
        FoundAt(s.m, r);
      }
    }
  }

  /** From a scan in which the silent client is not ready, the master either sends it a foreign byte or
      comes back to select with the slot still clogged. */
  lemma {:induction false} FinishScan(s0: State, es: seq<Event>, s: State, fd: int, c: nat, i: nat)
      returns (fs: seq<Event>, t: State)
    requires Exec(s0, es) == Some(s)
    requires Clogged(s, fd, c, i) && s.pc.Scanning? && fd !in s.pc.ready
    ensures Exec(s0, fs) == Some(t)
    ensures GotForeign(t, c) || (t.pc == AtSelect && Clogged(t, fd, c, i))
    decreases if s.m.nfds >= s.pc.fd then s.m.nfds - s.pc.fd + 1 else 0
  {
    t := if Step(s, Look(1, [])).Some? then Step(s, Look(1, [])).value else s;
    if s.pc.fd == s.m.tbl[i].rd && s.pc.fd in s.pc.ready {
      GetDelivers(s, fd, c, i);
      fs := Then(Step, s0, es, s, Look(1, []), t);
    } else {
      OneLook(s, fd, c, i);
      fs := Then(Step, s0, es, s, Look(1, []), t);
      if s.pc.fd < s.m.nfds {
        fs, t := FinishScan(s0, fs, t, fd, c, i);
      }
    }
  }

  /** The slave moves its leftovers into the pipe back to the master. */
  lemma SlaveMoves(s0: State, es: seq<Event>, s: State, fd: int, c: nat, i: nat)
      returns (fs: seq<Event>, t: State)
    requires Exec(s0, es) == Some(s) && s.pc == AtSelect && Clogged(s, fd, c, i)
    ensures Exec(s0, fs) == Some(t) && t.pc == AtSelect && Clogged(t, fd, c, i)
    ensures t.pipes[i].fromSlave != []
  {
    fs, t := es, s;
    if s.pipes[i].fromSlave == [] {
      if s.pipes[i].work == [] {
        fs, t := SlaveTakes(s0, es, s, fd, c, i);
      }
      fs, t := SlaveGives(s0, fs, t, fd, c, i);
    }
  }

  lemma SlaveTakes(s0: State, es: seq<Event>, s: State, fd: int, c: nat, i: nat)
      returns (fs: seq<Event>, t: State)
    requires Exec(s0, es) == Some(s) && s.pc == AtSelect && Clogged(s, fd, c, i)
    requires s.pipes[i].fromSlave == [] && s.pipes[i].work == []
    ensures Exec(s0, fs) == Some(t) && t.pc == AtSelect && Clogged(t, fd, c, i)
    ensures t.pipes[i].work != []
  {
    var p := s.pipes[i];
    t := s.(pipes := s.pipes[i := p.(toSlave := p.toSlave[1..], work := ReverseBody(p.toSlave[..1]),
                                     segments := p.segments + [p.toSlave[..1]])]);
    assert Step(s, SlaveRead(i, 1)) == Some(t);
    SlaveKeepsAgreement(s, t);
    fs := Then(Step, s0, es, s, SlaveRead(i, 1), t);
  }

  lemma SlaveGives(s0: State, es: seq<Event>, s: State, fd: int, c: nat, i: nat)
      returns (fs: seq<Event>, t: State)
    requires Exec(s0, es) == Some(s) && s.pc == AtSelect && Clogged(s, fd, c, i)
    requires s.pipes[i].work != []
    ensures Exec(s0, fs) == Some(t) && t.pc == AtSelect && Clogged(t, fd, c, i)
    ensures t.pipes[i].fromSlave != []
  {
    var p := s.pipes[i];
    t := s.(pipes := s.pipes[i := p.(work := [], fromSlave := p.fromSlave + p.work)]);
    assert Step(s, SlaveWrite(i)) == Some(t);
    SlaveKeepsAgreement(s, t);
    fs := Then(Step, s0, es, s, SlaveWrite(i), t);
  }

  /** A silent client in a clogged slot can be sent a byte that is not its own. */
  lemma LeftoversReachTheClient(s0: State, es: seq<Event>, s: State, fd: int, c: nat, i: nat)
      returns (fs: seq<Event>, t: State)
    requires Exec(s0, es) == Some(s)
    requires Clogged(s, fd, c, i) && s.pc.Scanning? && fd !in s.pc.ready
    ensures Exec(s0, fs) == Some(t) && GotForeign(t, c)
  {
    fs, t := FinishScan(s0, es, s, fd, c, i);
    if !GotForeign(t, c) {
      fs, t := SlaveMoves(s0, fs, t, fd, c, i);
      fs, t := SelectSlot(s0, fs, t, fd, c, i);
      fs, t := FinishOwnScan(s0, fs, t, fd, c, i);
    }
  }

  /** select reports the slot's pipe and nothing else. */
  lemma SelectSlot(s0: State, es: seq<Event>, s: State, fd: int, c: nat, i: nat)
      returns (fs: seq<Event>, t: State)
    requires Exec(s0, es) == Some(s) && s.pc == AtSelect && Clogged(s, fd, c, i) && s.pipes[i].fromSlave != []
    ensures Exec(s0, fs) == Some(t) && Clogged(t, fd, c, i)
    ensures t.pc == Scanning(0, {s.m.tbl[i].rd}) && t.m == s.m
  {
    var ready := {s.m.tbl[i].rd};
    Members(s.m.tbl, i);
    forall j | 0 <= j < |s.m.tbl| && s.m.tbl[j].rd in ready ensures s.pipes[j].fromSlave != [] {
      assert j == i;
    }
    var u := s.(pc := Accepting(ready));
    StepKeepsAgreement(s, Select(ready));
    fs := Then(Step, s0, es, s, Select(ready), u);
    t := u.(pc := Scanning(0, ready));
    StepKeepsAgreement(u, NoRequest);
    fs := Then(Step, s0, fs, u, NoRequest, t);
  }

  /** The scan passes over descriptors that are not ready. */
  lemma {:induction false} QuietScan(s0: State, es: seq<Event>, s: State, g: int) returns (fs: seq<Event>, t: State)
    requires Exec(s0, es) == Some(s) && s.pc.Scanning? && |s.pipes| == |s.m.tbl|
    requires s.pc.fd <= g <= s.m.nfds
    requires forall f :: f in s.pc.ready ==> f < s.pc.fd || f >= g
    ensures Exec(s0, fs) == Some(t) && t == s.(pc := Scanning(g, s.pc.ready))
    decreases g - s.pc.fd
  {
    fs, t := es, s;
    if s.pc.fd < g {
      t := s.(pc := Scanning(s.pc.fd + 1, s.pc.ready));
      fs := Then(Step, s0, es, s, Look(0, []), t);
      fs, t := QuietScan(s0, fs, t, g);
    }
  }

  /** The scan that follows reaches the slot's pipe. */
  lemma FinishOwnScan(s0: State, es: seq<Event>, s: State, fd: int, c: nat, i: nat)
      returns (fs: seq<Event>, t: State)
    requires Exec(s0, es) == Some(s) && Clogged(s, fd, c, i)
    requires s.pc.Scanning? && s.pc.ready == {s.m.tbl[i].rd} && s.pc.fd <= s.m.tbl[i].rd
    ensures Exec(s0, fs) == Some(t) && GotForeign(t, c)
  {
    var g := s.m.tbl[i].rd;
    assert g <= s.m.nfds by { Members(s.m.tbl, i); }
    fs, t := QuietScan(s0, es, s, g);
    SkipKeepsAgreement(s, g);
    GetDelivers(t, fd, c, i);
    var u := Step(t, Look(1, [])).value;
    fs := Then(Step, s0, fs, t, Look(1, []), u);
    t := u;
  }

  /** At the moment a client is given a slot: its stream stays faithful in every continuation of the
      run exactly when the slot holds no bytes, in either pipe or in the slave's buffer. */
  lemma FaithfulExactlyWhenDrained(msock: int, tbl: seq<Slot>, es: seq<Event>, s: State, fd: int, t: State)
    requires Forked(msock, tbl) && Exec(Start(msock, tbl), es) == Some(s)
    requires Step(s, Accept(fd)) == Some(t) && FirstSock(s.m.tbl, 0) >= 0
    ensures (forall fs, u :: Exec(t, fs) == Some(u) ==>
               |s.clients| < |u.clients| && Faithful(u.clients[|s.clients|]))
            <==> 0 <= FirstSock(s.m.tbl, 0) < |s.pipes| && Drained(s.pipes[FirstSock(s.m.tbl, 0)])
  {
    var start, c, i := Start(msock, tbl), |s.clients|, FirstSock(s.m.tbl, 0);
    RunKeeps(msock, tbl, es);
    StepKeepsStreams(s, Accept(fd));
    var all := Then(Step, start, es, s, Accept(fd), t);
    if Drained(s.pipes[i]) {
      forall fs, u | Exec(t, fs) == Some(u) ensures c < |u.clients| && Faithful(u.clients[c]) {
        Joined(Step, start, all, t, fs);
        RunKeeps(msock, tbl, all + fs);
        ClientsStay(t, fs, u, c);
      }
    } else {
      assert fd !in s.m.afds;
      assert fd !in s.pc.ready by {
        assert fd !in s.conn && fd !in ReadEnds(s.m.tbl);
      }
      assert Clogged(t, fd, c, i);
      assert Exec(t, []) == Some(t);
      var fs, u := LeftoversReachTheClient(t, [], t, fd, c, i);
      ForeignIsUnfaithful(u, c);
    }
  }

  /** Clients are only ever added, and how a client came by its slot does not change. */
  lemma {:induction false} ClientsStay(s: State, es: seq<Event>, t: State, c: nat)
    requires Exec(s, es) == Some(t) && c < |s.clients|
    ensures c < |t.clients| && t.clients[c].clean == s.clients[c].clean
  {
    if es != [] {
      var u := Exec(s, es[..|es| - 1]).value;
      ClientsStay(s, es[..|es| - 1], u, c);
    }
  }
}
