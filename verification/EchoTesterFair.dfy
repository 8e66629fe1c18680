/** Progress of the echo tester under a kernel that favours nobody: select reports every ready
    descriptor, the servers are stuck, and then the scan moves a byte whatever counts the calls
    return. */
module EchoTesterFair {
  import opened Basics
  import opened EchoTester
  import opened EchoTesterProofs
  import opened EchoTesterProgress

  /** The scan has fd ahead of it, and will call send or recv on it. */
  ghost predicate Coming(s: State, fd: int) {
    && fd in s.links && 0 <= fd < |s.v.rc| == |s.v.wc|
    && (|| (s.pc.Writing? && s.pc.fd <= fd && fd in s.pc.w && s.v.wc[fd] > 0)
        || (s.pc.Writing? && s.pc.fd <= fd && fd in s.pc.r && s.v.rc[fd] > 0)
        || (s.pc.Reading? && s.pc.fd < fd && fd in s.pc.w && s.v.wc[fd] > 0)
        || (s.pc.Reading? && s.pc.fd <= fd && fd in s.pc.r && s.v.rc[fd] > 0))
  }

  /** A send or recv that is reached moves a byte, whatever count it returns; any other step of the scan
      changes nothing but its position. */
  lemma AnyCount(s: State, n: nat, ccount: int)
    requires Inv(s, ccount) && (s.pc.Writing? || s.pc.Reading?) && DoClient(s, n).Some?
    ensures var t := DoClient(s, n).value;
            || t.moved > s.moved
            || (&& t == s.(pc := if s.pc.Reading? then Writing(s.pc.fd + 1, s.pc.w, s.pc.r)
                                 else if s.pc.fd >= s.nfds then AtSelect
                                 else Reading(s.pc.fd, s.pc.w, s.pc.r))
                && (s.pc.Writing? && s.pc.fd in s.pc.w && s.pc.fd in s.links ==> s.v.wc[s.pc.fd] == 0)
                && (s.pc.Reading? && s.pc.fd in s.pc.r && s.pc.fd in s.links ==> s.v.rc[s.pc.fd] == 0))
  {
    var fd := s.pc.fd;
    if s.pc.Writing? && fd < s.nfds && fd in s.pc.w {
      var next := s.(pc := Reading(fd, s.pc.w, s.pc.r));
      assert DoClient(s, n) == DoWrite(next, fd, n);
    } else if s.pc.Reading? && fd in s.pc.r {
      var next := s.(pc := Writing(fd + 1, s.pc.w, s.pc.r));
      assert DoClient(s, n) == DoRead(next, fd, n);
      if n == 0 && fd in s.links && s.v.rc[fd] != 0 {
        EndMeansAllRead(s, fd, ccount);
      }
    }
  }

  /** A host with bytes still to come back is not at the end of its stream. */
  lemma EndMeansAllRead(s: State, fd: int, ccount: int)
    requires Inv(s, ccount) && fd in s.links && s.v.rc[fd] != 0
    ensures !(s.links[fd].down == [] && s.links[fd].eof)
  {
    var l := s.links[fd];
    assert LinkOk(l, s.v.rc[fd], s.v.wc[fd], ccount, s.upCap, s.downCap);
    assert |l.sent| == |l.received| + |l.down| + |l.server| + |l.up|;
  }

  /** Until a byte moves, fd stays ahead. */
  ghost predicate Hunting(s: State, moved: nat, fd: int) {
    s.moved > moved || s.pc == Exited || (s.moved == moved && Coming(s, fd))
  }

  lemma HuntStep(s: State, e: Event, moved: nat, fd: int, ccount: int)
    requires Inv(s, ccount) && Hunting(s, moved, fd) && Step(s, e).Some?
    ensures Hunting(Step(s, e).value, moved, fd)
  {
    var t := Step(s, e).value;
    StepWeight(s, e, ccount);
    if s.moved == moved && s.pc != Exited && e.Client? {
      AnyCount(s, e.n, ccount);
    }
  }

  lemma {:induction false} Hunt(s: State, fs: seq<Event>, fd: int, ccount: int)
    requires Inv(s, ccount) && Coming(s, fd) && Exec(s, fs).Some?
    ensures Inv(Exec(s, fs).value, ccount) && Hunting(Exec(s, fs).value, s.moved, fd)
  {
    if fs != [] {
      Hunt(s, fs[..|fs| - 1], fd, ccount);
      var u := Exec(s, fs[..|fs| - 1]).value;
      HuntStep(u, fs[|fs| - 1], s.moved, fd, ccount);
      StepKeeps(u, fs[|fs| - 1], ccount);
    }
  }

  /** Exactly the ready descriptors. */
  ghost predicate AllReady(s: State, w: set<int>, r: set<int>) {
    && (forall fd :: fd in w <==> fd in s.v.afds && Writable(s, fd))
    && (forall fd :: fd in r <==> fd in s.v.afds && Readable(s, fd))
  }

  /** As long as a host is unfinished: when no server can move a byte and select reports every ready
      descriptor, every way to go on from there that comes back to select has moved a byte, whatever
      counts send and recv return and whatever the servers do meanwhile. */
  lemma EveryScanMoves(fds: seq<int>, ccount: int, buf: seq<byte>, nfds: int, upCap: nat, downCap: nat,
                       es: seq<Event>, s: State, w: set<int>, r: set<int>, u: State, fs: seq<Event>, t: State)
    requires Connects(fds, ccount, buf, nfds, upCap, downCap)
    requires Exec(Start(fds, ccount, buf, nfds, upCap, downCap), es) == Some(s)
    requires s.v.hcount != 0 && (forall fd :: !ServerReady(s, fd)) && AllReady(s, w, r)
    requires Step(s, Select(w, r)) == Some(u) && Exec(u, fs) == Some(t) && t.pc == AtSelect
    ensures t.moved > s.moved
  {
    RunKeeps(fds, ccount, buf, nfds, upCap, downCap, es);
    StepKeeps(s, Select(w, r), ccount);
    var fd := Member(s.v.afds);
    SomethingReady(s, fd, ccount);
    Hunt(u, fs, fd, ccount);
  }

  /** Such a scan does come back to select, or moves a byte before that: it is never stuck. */
  lemma ScanGoesOn(fds: seq<int>, ccount: int, buf: seq<byte>, nfds: int, upCap: nat, downCap: nat,
                   es: seq<Event>, s: State)
    requires Connects(fds, ccount, buf, nfds, upCap, downCap)
    requires Exec(Start(fds, ccount, buf, nfds, upCap, downCap), es) == Some(s)
    requires s.pc.Writing? || s.pc.Reading?
    ensures exists n :: Step(s, Client(n)).Some?
    ensures forall n :: Step(s, Client(n)).Some? ==>
              var t := Step(s, Client(n)).value; t.moved > s.moved || 0 <= Left(t) < Left(s)
  {
    RunKeeps(fds, ccount, buf, nfds, upCap, downCap, es);
    ClientSteps(s, ccount);
    assert Step(s, Client(1)).Some?;
    forall n | Step(s, Client(n)).Some?
      ensures var t := Step(s, Client(n)).value; t.moved > s.moved || 0 <= Left(t) < Left(s)
    {
      AnyCount(s, n, ccount);
    }
  }
}
