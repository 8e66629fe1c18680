/** A run of the slave pool that breaks the stream property: a client leaves while its bytes are still
    on their way, and the next client is given the same slot. */
module PoolLeftoverRun {
  import opened Basics
  import opened Runs
  import opened SlavePool
  import opened PoolServer
  import opened PoolProofs
  import opened PoolStreams
  import opened PoolLeftovers

  /** One turn of the master's loop in which exactly the client on descriptor k is ready. */
  lemma TurnFor(s0: State, es: seq<Event>, s: State, k: int, data: seq<byte>) returns (fs: seq<Event>, t: State)
    requires Exec(s0, es) == Some(s) && AgreeInv(s) && s.pc == AtSelect
    requires k in s.conn && s.m.nfds == k + 1 && |data| <= BUFSIZE
    requires DoPost(s.(pc := Scanning(k + 1, {k})), k, data).Some?
    ensures Exec(s0, fs) == Some(t)
    ensures t == DoPost(s.(pc := Scanning(k + 1, {k})), k, data).value.(pc := AtSelect)
  {
    var ready := {k};
    var s1 := s.(pc := Accepting(ready));
    forall i | 0 <= i < |s.m.tbl| ensures s.m.tbl[i].rd !in ready {
      Members(s.m.tbl, i);
    }
    assert Step(s, Select(ready)) == Some(s1);
    fs := Then(Step, s0, es, s, Select(ready), s1);
    var s2 := s.(pc := Scanning(0, ready));
    fs := Then(Step, s0, fs, s1, NoRequest, s2);
    fs, t := QuietScan(s0, fs, s2, k);
    var s3 := t;
    t := DoPost(s.(pc := Scanning(k + 1, ready)), k, data).value;
    if FirstRd(s.m.tbl, k) >= 0 {
      Members(s.m.tbl, FirstRd(s.m.tbl, k));
    }
    assert DoLook(s3, k, ready, 0, data) == DoPost(s.(pc := Scanning(k + 1, ready)), k, data);
    fs := Then(Step, s0, fs, s3, Look(0, data), t);
    PostKeepsAgreement(s.(pc := Scanning(k + 1, ready)), k, ready, data);
    fs := Then(Step, s0, fs, t, Look(0, []), t.(pc := AtSelect));
    t := t.(pc := AtSelect);
  }

  /** The scan passes over the master socket. */
  lemma PassMaster(s0: State, es: seq<Event>, s: State) returns (fs: seq<Event>, t: State)
    requires Exec(s0, es) == Some(s) && |s.pipes| == |s.m.tbl|
    requires s.pc == Scanning(s.m.msock, {s.m.msock}) && s.m.msock < s.m.nfds && FirstRd(s.m.tbl, s.m.msock) < 0
    ensures Exec(s0, fs) == Some(t) && t == s.(pc := Scanning(s.m.msock + 1, s.pc.ready))
  {
    t := s.(pc := Scanning(s.m.msock + 1, s.pc.ready));
    assert DoLook(s, s.m.msock, s.pc.ready, 0, []) == Some(t);
    fs := Then(Step, s0, es, s, Look(0, []), t);
  }

  /** The scan ends at the bound. */
  lemma ScanEnds(s0: State, es: seq<Event>, s: State) returns (fs: seq<Event>, t: State)
    requires Exec(s0, es) == Some(s) && |s.pipes| == |s.m.tbl|
    requires s.pc.Scanning? && s.pc.fd >= s.m.nfds
    ensures Exec(s0, fs) == Some(t) && t == s.(pc := AtSelect)
  {
    t := s.(pc := AtSelect);
    assert DoLook(s, s.pc.fd, s.pc.ready, 0, []) == Some(t);
    fs := Then(Step, s0, es, s, Look(0, []), t);
  }

  /** A turn in which only the master socket was ready comes to its end. */
  lemma MasterTurnEnds(s0: State, es: seq<Event>, s: State) returns (fs: seq<Event>, t: State)
    requires Exec(s0, es) == Some(s) && |s.pipes| == |s.m.tbl| && s.pc == Scanning(0, {s.m.msock})
    requires 0 <= s.m.msock < s.m.nfds && FirstRd(s.m.tbl, s.m.msock) < 0
    ensures Exec(s0, fs) == Some(t) && t == s.(pc := AtSelect)
  {
    fs, t := QuietScan(s0, es, s, s.m.msock);
    fs, t := PassMaster(s0, fs, t);
    fs, t := QuietScan(s0, fs, t, s.m.nfds);
    fs, t := ScanEnds(s0, fs, t);
  }

  /** One turn in which a request is accepted on a descriptor above all others. */
  lemma AcceptTurn(s0: State, es: seq<Event>, s: State, k: int) returns (fs: seq<Event>, t: State)
    requires Exec(s0, es) == Some(s) && AgreeInv(s) && s.pc == AtSelect
    requires FreeDescriptor(s, k) && k >= s.m.nfds && FirstSock(s.m.tbl, 0) >= 0
    ensures Exec(s0, fs) == Some(t) && AgreeInv(t)
    ensures t == DoAccept(s, k, {}).(pc := AtSelect)
  {
    var ready := {s.m.msock};
    assert s.m.msock in s.m.afds;
    var s1 := s.(pc := Accepting(ready));
    assert Step(s, Select(ready)) == Some(s1);
    StepKeepsAgreement(s, Select(ready));
    fs := Then(Step, s0, es, s, Select(ready), s1);
    var s2 := DoAccept(s1, k, ready);
    AcceptKeepsAgreement(s1, k);
    fs := Then(Step, s0, fs, s1, Accept(k), s2);
    fs, t := MasterTurnEnds(s0, fs, s2);
    StopKeepsAgreement(s2);
  }

  lemma {:induction false} AboveWriteEnds(tbl: seq<Slot>, low: int) returns (k: int)
    ensures k >= low && forall x :: x in WriteEnds(tbl) ==> x < k
  {
    if tbl == [] {
      k := low;
    } else {
      k := AboveWriteEnds(tbl[..|tbl| - 1], Max(tbl[|tbl| - 1].wr + 1, low));
    }
  }

  /** For any descriptors of the master socket and the pipes there is a run after which a client has been
      sent a byte although nothing was received from it. */
  lemma StreamsCanMix(msock: int, tbl: seq<Slot>)
    requires Forked(msock, tbl)
    ensures exists es: seq<Event>, s: State, c: nat ::
              Exec(Start(msock, tbl), es) == Some(s) && c < |s.clients| && !Faithful(s.clients[c])
  {
    var s0 := Start(msock, tbl);
    RunKeeps(msock, tbl, []);
    var k := AboveWriteEnds(tbl, s0.m.nfds);
    assert FreeDescriptor(s0, k);
    var es, s := AcceptTurn(s0, [], s0, k);
    es, s := Sends(s0, es, s, k);
    es, s := LeavesEarly(s0, es, s, k);
    es, s := NextClient(s0, es, s, k);
    ForeignIsUnfaithful(s, 1);
  }

  /** The first client sends a byte ... */
  lemma Sends(s0: State, es: seq<Event>, s: State, k: int) returns (fs: seq<Event>, t: State)
    requires Exec(s0, es) == Some(s) && AgreeInv(s) && s.pc == AtSelect && k in s.conn && s.m.nfds == k + 1
    requires s.m.tbl[0].ssock == k
    ensures Exec(s0, fs) == Some(t) && AgreeInv(t) && t.pc == AtSelect && t.m == s.m && t.conn == s.conn
    ensures |t.clients| == |s.clients| && t.pipes[0].toSlave != []
  {
    FoundAt(s.m, 0);
    fs, t := TurnFor(s0, es, s, k, [65]);
    PostKeepsAgreement(s.(pc := Scanning(k + 1, {k})), k, {k}, [65]);
  }

  /** ... and leaves at once. */
  lemma LeavesEarly(s0: State, es: seq<Event>, s: State, k: int) returns (fs: seq<Event>, t: State)
    requires Exec(s0, es) == Some(s) && AgreeInv(s) && s.pc == AtSelect && k in s.conn && s.m.nfds == k + 1
    requires s.m.tbl[0].ssock == k && s.pipes[0].toSlave != []
    ensures Exec(s0, fs) == Some(t) && AgreeInv(t) && t.pc == AtSelect && t.m.nfds == k + 1
    ensures t.m.tbl[0].ssock == 0 && t.clients == s.clients && t.pipes == s.pipes && t.conn == s.conn - {k}
  {
    fs, t := TurnFor(s0, es, s, k, []);
    PostKeepsAgreement(s.(pc := Scanning(k + 1, {k})), k, {k}, []);
    DropKeeps(s.m, 0);
  }

  /** The next client gets the slot, and the byte. */
  lemma NextClient(s0: State, es: seq<Event>, s: State, k: int) returns (fs: seq<Event>, t: State)
    requires Exec(s0, es) == Some(s) && AgreeInv(s) && s.pc == AtSelect && s.m.nfds == k + 1
    requires s.m.tbl[0].ssock == 0 && |s.clients| == 1 && !Drained(s.pipes[0])
    requires s.conn == map[]
    ensures Exec(s0, fs) == Some(t) && GotForeign(t, 1)
  {
    var j := AboveWriteEnds(s.m.tbl, s.m.nfds);
    assert FreeDescriptor(s, j);
    var u;
    fs, u := AcceptTurn(s0, es, s, j);
    fs, t := SlaveMoves(s0, fs, u, j, 1, 0);
    fs, t := SelectSlot(s0, fs, t, j, 1, 0);
    fs, t := FinishOwnScan(s0, fs, t, j, 1, 0);
  }
}
