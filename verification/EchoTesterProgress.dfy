/** The main results about the echo tester: conservation, freedom from deadlock, and termination. */
module EchoTesterProgress {
  import opened Basics
  import opened Runs
  import opened EchoTester
  import opened EchoTesterProofs

  /** A server can move a byte at fd. */
  ghost predicate ServerReady(s: State, fd: int) {
    fd in s.links &&
    ((s.links[fd].server == [] && s.links[fd].up != []) ||
     (s.links[fd].server != [] && |s.links[fd].down| < s.downCap))
  }

  lemma ServerMoves(s0: State, es: seq<Event>, s: State, fd: int, ccount: int) returns (fs: seq<Event>, t: State)
    requires Exec(s0, es) == Some(s) && Inv(s, ccount) && ServerReady(s, fd)
    ensures Exec(s0, fs) == Some(t) && t.moved > s.moved
  {
    var e := if s.links[fd].server == [] then ServerRead(fd, 1) else ServerWrite(fd, 1);
    t := Step(s, e).value;
    fs := Then(Step, s0, es, s, e, t);
  }

  /** The client takes the next step of its scan; it moves a byte if it calls send or recv. */
  lemma ClientSteps(s: State, ccount: int)
    requires Inv(s, ccount) && (s.pc.Writing? || s.pc.Reading?)
    ensures DoClient(s, 1).Some?
    ensures var t := DoClient(s, 1).value;
            || t.moved > s.moved
            || t == s.(pc := if s.pc.Reading? then Writing(s.pc.fd + 1, s.pc.w, s.pc.r)
                             else if s.pc.fd >= s.nfds then AtSelect
                             else Reading(s.pc.fd, s.pc.w, s.pc.r))
    ensures s.pc.Writing? && s.pc.fd in s.pc.w && s.pc.fd < s.nfds && s.v.wc[s.pc.fd] > 0 ==> DoClient(s, 1).value.moved > s.moved
    ensures s.pc.Reading? && s.pc.fd in s.pc.r && s.v.rc[s.pc.fd] > 0 ==> DoClient(s, 1).value.moved > s.moved
  {
    var fd := s.pc.fd;
    if s.pc.Writing? && fd < s.nfds && fd in s.pc.w {
      assert Writable(s, fd);
      var next := s.(pc := Reading(fd, s.pc.w, s.pc.r));
      assert DoClient(s, 1) == DoWrite(next, fd, 1);
    } else if s.pc.Reading? && fd in s.pc.r {
      assert Readable(s, fd);
      var next := s.(pc := Writing(fd + 1, s.pc.w, s.pc.r));
      assert DoClient(s, 1) == DoRead(next, fd, 1);
      var l := s.links[fd];
      if l.down == [] {
        assert |l.sent| == |l.received| + |l.down| + |l.server| + |l.up|;
      }
    }
  }

  /** Where a scan is, as a number that falls with each of its steps. */
  ghost function Left(s: State): int {
    match s.pc
    case Writing(fd, w, r) => if fd >= s.nfds then 1 else 2 * (s.nfds - fd) + 1
    case Reading(fd, w, r) => if fd >= s.nfds then 2 else 2 * (s.nfds - fd)
    case _ => 0
  }

  /** The scan goes on until it moves a byte or comes back to select with nothing changed. */
  lemma {:induction false} FinishScan(s0: State, es: seq<Event>, s: State, ccount: int) returns (fs: seq<Event>, t: State)
    requires Exec(s0, es) == Some(s) && Inv(s, ccount) && (s.pc.Writing? || s.pc.Reading?)
    ensures Exec(s0, fs) == Some(t)
    ensures t.moved > s.moved || t == s.(pc := AtSelect)
    decreases Left(s)
  {
    ClientSteps(s, ccount);
    t := DoClient(s, 1).value;
    fs := Then(Step, s0, es, s, Client(1), t);
    if t.moved == s.moved && t.pc != AtSelect {
      StepKeeps(s, Client(1), ccount);
      fs, t := FinishScan(s0, fs, t, ccount);
    }
  }

  /** The scan goes on until it moves a byte, which it does at fd at the latest. */
  lemma {:induction false} ScanTo(s0: State, es: seq<Event>, s: State, fd: int, ccount: int) returns (fs: seq<Event>, t: State)
    requires Exec(s0, es) == Some(s) && Inv(s, ccount) && (s.pc.Writing? || s.pc.Reading?)
    requires fd in s.links
    requires (fd in s.pc.w && s.v.wc[fd] > 0 && (s.pc.fd < fd || s.pc == Writing(fd, s.pc.w, s.pc.r)))
          || (fd in s.pc.r && s.v.rc[fd] > 0 && s.pc.fd <= fd)
    ensures Exec(s0, fs) == Some(t) && t.moved > s.moved
    decreases Left(s)
  {
    ClientSteps(s, ccount);
    t := DoClient(s, 1).value;
    fs := Then(Step, s0, es, s, Client(1), t);
    if t.moved == s.moved {
      StepKeeps(s, Client(1), ccount);
      fs, t := ScanTo(s0, fs, t, fd, ccount);
    }
  }

  /** With no server able to move, an unfinished host is readable, or all it misses has yet to be sent
      and there is room for it. */
  lemma SomethingReady(s: State, fd: int, ccount: int)
    requires Inv(s, ccount) && fd in s.v.afds && !ServerReady(s, fd)
    ensures fd in s.links
    ensures Readable(s, fd) || (Writable(s, fd) && s.v.wc[fd] > 0)
    ensures s.v.rc[fd] > 0
  {
    var l := s.links[fd];
    assert LinkOk(l, s.v.rc[fd], s.v.wc[fd], ccount, s.upCap, s.downCap);
    if l.down == [] {
      assert l.server == [] && l.up == [];
      assert |l.sent| == |l.received| + |l.down| + |l.server| + |l.up|;
    }
  }

  lemma Member<T>(a: set<T>) returns (x: T)
    requires a != {}
    ensures x in a
  {
    x :| x in a;
  }

  /** From any state with an unfinished host, unless the client has failed, a run exists that moves
      another byte. */
  lemma ByteCanMove(s0: State, es: seq<Event>, s: State, ccount: int) returns (fs: seq<Event>, t: State)
    requires Exec(s0, es) == Some(s) && Inv(s, ccount) && s.v.hcount > 0 && s.pc != Exited
    ensures Exec(s0, fs) == Some(t) && t.moved > s.moved
  {
    fs, t := es, s;
    if s.pc != AtSelect {
      fs, t := FinishScan(s0, es, s, ccount);
    }
    if t.moved == s.moved {
      assert Inv(t, ccount);
      var fd := Member(t.v.afds);
      if ServerReady(t, fd) {
        fs, t := ServerMoves(s0, fs, t, fd, ccount);
      } else {
        fs, t := SelectOne(s0, fs, t, fd, ccount);
      }
    }
  }

  lemma SelectOne(s0: State, es: seq<Event>, s: State, fd: int, ccount: int) returns (fs: seq<Event>, t: State)
    requires Exec(s0, es) == Some(s) && Inv(s, ccount) && s.v.hcount > 0 && s.pc == AtSelect
    requires fd in s.v.afds && !ServerReady(s, fd)
    ensures Exec(s0, fs) == Some(t) && t.moved > s.moved
  {
    SomethingReady(s, fd, ccount);
    var none: set<int> := {};
    var e := if Readable(s, fd) then Select(none, {fd}) else Select({fd}, none);
    t := s.(pc := Writing(0, e.w, e.r));
    assert Step(s, e) == Some(t);
    StepKeeps(s, e, ccount);
    fs := Then(Step, s0, es, s, e, t);
    fs, t := ScanTo(s0, fs, t, fd, ccount);
  }

  // ----- Main results -------------------------------------------------------------------------

  /** In every reachable state and for every host: bytes sent and not yet read back are exactly the
      bytes in the two channels and the server's buffer; the received stream is a prefix of the sent
      stream; `hcount` is the number of watched descriptors, which are the hosts still to read from. */
  lemma BytesConserved(fds: seq<int>, ccount: int, buf: seq<byte>, nfds: int, upCap: nat, downCap: nat,
                       es: seq<Event>, s: State, fd: int)
    requires Connects(fds, ccount, buf, nfds, upCap, downCap)
    requires Exec(Start(fds, ccount, buf, nfds, upCap, downCap), es) == Some(s) && fd in s.links
    ensures 0 <= fd < |s.v.rc| == |s.v.wc|
    ensures s.v.rc[fd] - s.v.wc[fd] == |s.links[fd].up| + |s.links[fd].server| + |s.links[fd].down|
    ensures s.links[fd].received <= s.links[fd].sent
    ensures |s.links[fd].sent| == ccount - s.v.wc[fd] && |s.links[fd].received| == ccount - s.v.rc[fd]
    ensures s.v.hcount == |s.v.afds|
    ensures fd in s.v.afds <==> s.v.rc[fd] > 0
  {
    RunKeeps(fds, ccount, buf, nfds, upCap, downCap, es);
    var l := s.links[fd];
    assert l.sent == l.received + l.down + l.server + l.up;
    assert l.sent == l.received + (l.down + l.server + l.up);
  }

  /** shutdown is called exactly once, when the last byte has been sent, and close exactly once, when
      the last byte has been read. */
  lemma ShutAndClosedOnce(fds: seq<int>, ccount: int, buf: seq<byte>, nfds: int, upCap: nat, downCap: nat,
                          es: seq<Event>, s: State, fd: int)
    requires Connects(fds, ccount, buf, nfds, upCap, downCap)
    requires Exec(Start(fds, ccount, buf, nfds, upCap, downCap), es) == Some(s) && fd in s.links
    ensures s.links[fd].shuts == (if |s.links[fd].sent| == ccount then 1 else 0)
    ensures s.links[fd].closes == (if |s.links[fd].received| == ccount then 1 else 0)
    ensures s.links[fd].closes == 1 <==> fd !in s.v.afds
  {
    RunKeeps(fds, ccount, buf, nfds, upCap, downCap, es);
  }

  /** No deadlock, whatever the positive capacities: as long as a host is unfinished and the client has
      not failed, the run can be continued by one that moves another byte. */
  lemma NoDeadlock(fds: seq<int>, ccount: int, buf: seq<byte>, nfds: int, upCap: nat, downCap: nat,
                   es: seq<Event>, s: State)
    requires Connects(fds, ccount, buf, nfds, upCap, downCap)
    requires Exec(Start(fds, ccount, buf, nfds, upCap, downCap), es) == Some(s)
    requires s.v.hcount != 0 && s.pc != Exited
    ensures exists fs: seq<Event>, t: State :: Exec(s, fs) == Some(t) && t.moved > s.moved
  {
    RunKeeps(fds, ccount, buf, nfds, upCap, downCap, es);
    assert Exec(s, []) == Some(s);
    var fs, t := ByteCanMove(s, [], s, ccount);
  }

  /** The weight of a state and the bytes moved so far always add up to four times the bytes to be
      echoed, so no run moves more than that many bytes. */
  lemma MovesAreBounded(fds: seq<int>, ccount: int, buf: seq<byte>, nfds: int, upCap: nat, downCap: nat,
                        es: seq<Event>, s: State)
    requires Connects(fds, ccount, buf, nfds, upCap, downCap)
    requires Exec(Start(fds, ccount, buf, nfds, upCap, downCap), es) == Some(s)
    ensures |s.v.wc| == NOFILE && Weight(s, NOFILE) + s.moved == 4 * |fds| * ccount
    ensures s.moved <= 4 * |fds| * ccount
  {
    RunKeeps(fds, ccount, buf, nfds, upCap, downCap, es);
    WeightNatural(s, ccount, NOFILE);
  }

  lemma {:induction false} WeightNatural(s: State, ccount: int, n: nat)
    requires Inv(s, ccount) && n <= NOFILE
    ensures Weight(s, n) >= 0
  {
    if n > 0 {
      WeightNatural(s, ccount, n - 1);
      assert n - 1 in s.links ==> LinkOk(s.links[n - 1], s.v.rc[n - 1], s.v.wc[n - 1], ccount, s.upCap, s.downCap);
    }
  }

  /** A run that cannot be continued so as to move another byte has finished every host, and each host
      has received all it sent; and from there on no byte can move. */
  lemma EndsWithAllHostsFinished(fds: seq<int>, ccount: int, buf: seq<byte>, nfds: int, upCap: nat, downCap: nat,
                                 es: seq<Event>, s: State)
    requires Connects(fds, ccount, buf, nfds, upCap, downCap)
    requires Exec(Start(fds, ccount, buf, nfds, upCap, downCap), es) == Some(s) && s.pc != Exited
    ensures (forall fs, t :: Exec(s, fs) == Some(t) ==> t.moved == s.moved) <==> s.v.hcount == 0
    ensures s.v.hcount == 0 ==>
              forall fd :: fd in s.links ==> s.links[fd].received == s.links[fd].sent && |s.links[fd].received| == ccount
  {
    var s0 := Start(fds, ccount, buf, nfds, upCap, downCap);
    RunKeeps(fds, ccount, buf, nfds, upCap, downCap, es);
    if s.v.hcount != 0 {
      NoDeadlock(fds, ccount, buf, nfds, upCap, downCap, es, s);
    } else {
      forall fd | fd in s.links
        ensures s.links[fd].received == s.links[fd].sent && |s.links[fd].received| == ccount
      {
        BytesConserved(fds, ccount, buf, nfds, upCap, downCap, es, s, fd);
        assert fd !in s.v.afds;
      }
      WeightZero(s, ccount, NOFILE);
      forall fs, t | Exec(s, fs) == Some(t) ensures t.moved == s.moved {
        Joined(Step, s0, es, s, fs);
        MovesAreBounded(fds, ccount, buf, nfds, upCap, downCap, es + fs, t);
        MovedGrows(s, fs, t, ccount);
      }
    }
  }

  lemma {:induction false} WeightZero(s: State, ccount: int, n: nat)
    requires Inv(s, ccount) && s.v.hcount == 0 && n <= NOFILE
    ensures Weight(s, n) == 0
  {
    if n > 0 {
      WeightZero(s, ccount, n - 1);
      assert n - 1 !in s.v.afds;
      if n - 1 in s.links {
        var l := s.links[n - 1];
        assert |l.sent| == |l.received| + |l.down| + |l.server| + |l.up|;
      }
    }
  }

  lemma {:induction false} MovedGrows(s: State, es: seq<Event>, t: State, ccount: int)
    requires Inv(s, ccount) && Exec(s, es) == Some(t)
    ensures Inv(t, ccount) && t.moved >= s.moved
  {
    if es != [] {
      var u := Exec(s, es[..|es| - 1]).value;
      MovedGrows(s, es[..|es| - 1], u, ccount);
      StepKeeps(u, es[|es| - 1], ccount);
      StepWeight(u, es[|es| - 1], ccount);
    }
  }
}
