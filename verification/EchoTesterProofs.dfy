/** What holds in every run of the echo tester: bytes are conserved, and the run can always move another
    byte until every host is finished. */
module EchoTesterProofs {
  import opened Basics
  import opened EchoTester

  /** One host, seen from the client's counters. */
  ghost predicate LinkOk(l: Link, rc: int, wc: int, ccount: int, upCap: nat, downCap: nat) {
    && 0 <= wc <= rc <= ccount
    && l.sent == l.received + l.down + l.server + l.up
    && |l.sent| == ccount - wc && |l.received| == ccount - rc
    && l.shuts == (if wc == 0 then 1 else 0)
    && l.closes == (if rc == 0 then 1 else 0)
    && (l.eof ==> wc == 0 && l.up == [] && l.server == [])
    && |l.up| <= upCap && |l.down| <= downCap
  }

  ghost predicate Inv(s: State, ccount: int) {
    && |s.v.rc| == |s.v.wc| == NOFILE && |s.v.buf| == BUFSIZE && ccount > 0
    && s.upCap > 0 && s.downCap > 0 && s.nfds <= NOFILE
    && (forall fd :: fd in s.links ==> 0 <= fd < s.nfds)
    && (forall fd :: fd in s.links ==> LinkOk(s.links[fd], s.v.rc[fd], s.v.wc[fd], ccount, s.upCap, s.downCap))
    && (forall fd :: fd in s.v.afds <==> fd in s.links && s.v.rc[fd] > 0)
    && s.v.hcount == |s.v.afds|
    && ScanOk(s)
  }

  /** Descriptors that were reported and not looked at yet still are ready. */
  ghost predicate ScanOk(s: State) {
    match s.pc
    case Writing(fd, w, r) =>
      0 <= fd && (forall f :: f in w && f >= fd ==> Writable(s, f)) && (forall f :: f in r && f >= fd ==> Readable(s, f))
    case Reading(fd, w, r) =>
      0 <= fd < s.nfds && (forall f :: f in w && f > fd ==> Writable(s, f)) && (forall f :: f in r && f >= fd ==> Readable(s, f))
    case _ => true
  }

  /** A step at descriptor fd alone. */
  ghost predicate OnlyAt(s: State, t: State, fd: int) {
    && fd in s.links && t.links.Keys == s.links.Keys
    && t.nfds == s.nfds && t.upCap == s.upCap && t.downCap == s.downCap
    && |t.v.rc| == |s.v.rc| && |t.v.wc| == |s.v.wc| && |t.v.buf| == |s.v.buf|
    && (forall f :: f in s.links && f != fd ==> t.links[f] == s.links[f])
    && (forall f :: 0 <= f < |s.v.rc| && f != fd ==> t.v.rc[f] == s.v.rc[f])
    && (forall f :: 0 <= f < |s.v.wc| && f != fd ==> t.v.wc[f] == s.v.wc[f])
  }

  lemma KeepsAt(s: State, t: State, fd: int, ccount: int)
    requires Inv(s, ccount) && OnlyAt(s, t, fd)
    requires LinkOk(t.links[fd], t.v.rc[fd], t.v.wc[fd], ccount, t.upCap, t.downCap)
    requires t.v.rc[fd] > 0 ==> s.v.rc[fd] > 0
    requires t.v.afds == (if t.v.rc[fd] == 0 then s.v.afds - {fd} else s.v.afds)
    requires t.v.hcount == (if t.v.rc[fd] == 0 && s.v.rc[fd] > 0 then s.v.hcount - 1 else s.v.hcount)
    requires ScanOk(t)
    ensures Inv(t, ccount)
  {
  }

  /** Readiness elsewhere survives a step at fd; at fd it may only be lost when the scan has passed it. */
  lemma ScanSurvives(s: State, t: State, fd: int)
    requires OnlyAt(s, t, fd) && ScanOk(s) && t.pc == s.pc
    requires Writable(s, fd) ==> Writable(t, fd)
    requires Readable(s, fd) ==> Readable(t, fd)
    ensures ScanOk(t)
  {
    assert forall f :: f != fd ==> Writable(t, f) == Writable(s, f) && Readable(t, f) == Readable(s, f);
  }

  lemma ServerReadKeeps(s: State, fd: int, n: nat, ccount: int)
    requires Inv(s, ccount) && Step(s, ServerRead(fd, n)).Some?
    ensures Inv(Step(s, ServerRead(fd, n)).value, ccount)
  {
    var t := Step(s, ServerRead(fd, n)).value;
    var l := s.links[fd];
    assert l.up == l.up[..n] + l.up[n..];
    ScanSurvives(s, t, fd);
    KeepsAt(s, t, fd, ccount);
  }

  lemma ServerWriteKeeps(s: State, fd: int, n: nat, ccount: int)
    requires Inv(s, ccount) && Step(s, ServerWrite(fd, n)).Some?
    ensures Inv(Step(s, ServerWrite(fd, n)).value, ccount)
  {
    var t := Step(s, ServerWrite(fd, n)).value;
    var l := s.links[fd];
    assert l.server == l.server[..n] + l.server[n..];
    ScanSurvives(s, t, fd);
    KeepsAt(s, t, fd, ccount);
  }

  lemma ServerEofKeeps(s: State, fd: int, ccount: int)
    requires Inv(s, ccount) && Step(s, ServerEof(fd)).Some?
    ensures Inv(Step(s, ServerEof(fd)).value, ccount)
  {
    var t := Step(s, ServerEof(fd)).value;
    ScanSurvives(s, t, fd);
    KeepsAt(s, t, fd, ccount);
  }

  lemma WriteKeeps(s: State, fd: int, n: nat, ccount: int)
    requires Inv(s, ccount) && s.pc.Reading? && s.pc.fd == fd && fd in s.links && DoWrite(s, fd, n).Some?
    ensures Inv(DoWrite(s, fd, n).value, ccount)
  {
    var t := DoWrite(s, fd, n).value;
    if s.v.wc[fd] != 0 {
      assert forall f :: f != fd ==> Writable(t, f) == Writable(s, f) && Readable(t, f) == Readable(s, f);
      assert Readable(t, fd) == Readable(s, fd);
      KeepsAt(s, t, fd, ccount);
    }
  }

  lemma ReadKeeps(s: State, fd: int, n: nat, ccount: int)
    requires Inv(s, ccount) && s.pc.Writing? && s.pc.fd == fd + 1 && fd in s.links && DoRead(s, fd, n).Some?
    ensures Inv(DoRead(s, fd, n).value, ccount)
  {
    var t := DoRead(s, fd, n).value;
    if s.v.rc[fd] != 0 && n > 0 {
      var l := s.links[fd];
      assert l.down == l.down[..n] + l.down[n..];
      assert forall f :: f != fd ==> Writable(t, f) == Writable(s, f) && Readable(t, f) == Readable(s, f);
      KeepsAt(s, t, fd, ccount);
    }
  }

  lemma ClientKeeps(s: State, n: nat, ccount: int)
    requires Inv(s, ccount) && DoClient(s, n).Some?
    ensures Inv(DoClient(s, n).value, ccount)
  {
    match s.pc
    case Writing(fd, w, r) =>
      var next := s.(pc := Reading(fd, w, r));
      if fd < s.nfds {
        assert Inv(next, ccount);
        if fd in w {
          assert DoClient(s, n) == DoWrite(next, fd, n);
          WriteKeeps(next, fd, n, ccount);
        }
      }
    case Reading(fd, w, r) =>
      var next := s.(pc := Writing(fd + 1, w, r));
      assert Inv(next, ccount);
      if fd in r {
        assert DoClient(s, n) == DoRead(next, fd, n);
        ReadKeeps(next, fd, n, ccount);
      }
    case _ =>
  }

  lemma StepKeeps(s: State, e: Event, ccount: int)
    requires Inv(s, ccount) && Step(s, e).Some?
    ensures Inv(Step(s, e).value, ccount)
  {
    match e
    case Select(w, r) =>
    case Client(n) => ClientKeeps(s, n, ccount);
    case ServerRead(fd, n) => ServerReadKeeps(s, fd, n, ccount);
    case ServerWrite(fd, n) => ServerWriteKeeps(s, fd, n, ccount);
    case ServerEof(fd) => ServerEofKeeps(s, fd, ccount);
    case Fail =>
  }

  // ----- The measure --------------------------------------------------------------------------

  /** How many byte movements lie ahead for the host on fd: each byte moves four times. */
  ghost function Ahead(s: State, fd: int): int
    requires |s.v.wc| == NOFILE
  {
    if fd in s.links && 0 <= fd < NOFILE then
      4 * s.v.wc[fd] + 3 * |s.links[fd].up| + 2 * |s.links[fd].server| + |s.links[fd].down|
    else 0
  }

  ghost function Weight(s: State, n: nat): int
    requires |s.v.wc| == NOFILE
  {
    if n == 0 then 0 else Weight(s, n - 1) + Ahead(s, n - 1)
  }

  lemma {:induction false} WeightChanges(s: State, t: State, fd: int, n: nat)
    requires |s.v.wc| == |t.v.wc| == NOFILE
    requires forall f :: 0 <= f < n && f != fd ==> Ahead(t, f) == Ahead(s, f)
    ensures Weight(t, n) - Weight(s, n) == if 0 <= fd < n then Ahead(t, fd) - Ahead(s, fd) else 0
  {
    if n > 0 {
      WeightChanges(s, t, fd, n - 1);
    }
  }

  /** What a step must do for the weight to fall by the bytes it moves: it changes one host only. */
  lemma WeightAt(s: State, t: State, fd: int)
    requires |s.v.wc| == |t.v.wc| == NOFILE && 0 <= fd < NOFILE
    requires forall f :: f != fd ==> Ahead(t, f) == Ahead(s, f)
    requires Ahead(t, fd) + t.moved == Ahead(s, fd) + s.moved
    ensures Weight(t, NOFILE) + t.moved == Weight(s, NOFILE) + s.moved
  {
    WeightChanges(s, t, fd, NOFILE);
  }

  lemma WeightFrame(s: State, t: State, n: nat)
    requires t.v == s.v && t.links == s.links && |s.v.wc| == NOFILE
    ensures Weight(t, n) == Weight(s, n)
  {
    WeightChanges(s, t, 0, n);
  }

  lemma ClientWeight(s: State, n: nat, ccount: int)
    requires Inv(s, ccount) && DoClient(s, n).Some?
    ensures var t := DoClient(s, n).value;
            |t.v.wc| == NOFILE && t.moved >= s.moved &&
            Weight(t, NOFILE) + t.moved == Weight(s, NOFILE) + s.moved
  {
    var t := DoClient(s, n).value;
    match s.pc
    case Writing(fd, w, r) =>
      var next := s.(pc := Reading(fd, w, r));
      if fd < s.nfds && fd in w {
        WeightFrame(s, next, NOFILE);
        assert DoClient(s, n) == DoWrite(next, fd, n);
        WeightAt(next, t, fd);
      } else {
        WeightFrame(s, t, NOFILE);
      }
    case Reading(fd, w, r) =>
      var next := s.(pc := Writing(fd + 1, w, r));
      WeightFrame(s, next, NOFILE);
      if fd in r {
        assert DoClient(s, n) == DoRead(next, fd, n);
        WeightAt(next, t, fd);
      }
    case _ =>
  }

  /** Every step lowers the weight by exactly the number of bytes it moves. */
  lemma StepWeight(s: State, e: Event, ccount: int)
    requires Inv(s, ccount) && Step(s, e).Some?
    ensures var t := Step(s, e).value;
            |t.v.wc| == NOFILE && t.moved >= s.moved &&
            Weight(t, NOFILE) + t.moved == Weight(s, NOFILE) + s.moved
  {
    match e
    case Client(n) => ClientWeight(s, n, ccount);
    case ServerRead(fd, _) => WeightAt(s, Step(s, e).value, fd);
    case ServerWrite(fd, _) => WeightAt(s, Step(s, e).value, fd);
    case ServerEof(fd) => WeightAt(s, Step(s, e).value, fd);
    case _ => WeightFrame(s, Step(s, e).value, NOFILE);
  }

  // ----- Whole runs ---------------------------------------------------------------------------

  ghost predicate Distinct(fds: seq<int>) {
    && (forall i :: 0 <= i < |fds| ==> 0 <= fds[i] < NOFILE)
    && (forall i, j :: 0 <= i < j < |fds| ==> fds[i] != fds[j])
  }

  lemma {:induction false} ConnectedFacts(fds: seq<int>, ccount: int, buf: seq<byte>)
    requires Distinct(fds)
    ensures var v := Connected(fds, ccount, buf);
            && |v.afds| == |fds| && v.buf == buf
            && (forall fd :: fd in v.afds ==> 0 <= fd < NOFILE && v.rc[fd] == ccount && v.wc[fd] == ccount)
            && (forall fd :: fd in v.afds ==> fd in fds)
  {
    if fds != [] {
      ConnectedFacts(fds[..|fds| - 1], ccount, buf);
    }
  }

  lemma {:induction false} StartWeight(fds: seq<int>, ccount: int, buf: seq<byte>, nfds: int, upCap: nat, downCap: nat)
    requires Distinct(fds)
    ensures Weight(Start(fds, ccount, buf, nfds, upCap, downCap), NOFILE) == 4 * |fds| * ccount
  {
    if fds == [] {
      NoWeight(Start(fds, ccount, buf, nfds, upCap, downCap), NOFILE);
    } else {
      var rest := fds[..|fds| - 1];
      StartWeight(rest, ccount, buf, nfds, upCap, downCap);
      OneMoreHost(fds, ccount, buf, nfds, upCap, downCap);
      Distributes(|rest|, ccount);
    }
  }

  /** Connecting to one more host adds four times the count. */
  lemma OneMoreHost(fds: seq<int>, ccount: int, buf: seq<byte>, nfds: int, upCap: nat, downCap: nat)
    requires Distinct(fds) && fds != []
    ensures var rest := Start(fds[..|fds| - 1], ccount, buf, nfds, upCap, downCap);
            Weight(Start(fds, ccount, buf, nfds, upCap, downCap), NOFILE) == Weight(rest, NOFILE) + 4 * ccount
  {
    var last := fds[|fds| - 1];
    var s := Start(fds, ccount, buf, nfds, upCap, downCap);
    var r := Start(fds[..|fds| - 1], ccount, buf, nfds, upCap, downCap);
    ConnectedFacts(fds[..|fds| - 1], ccount, buf);
    assert last !in r.links;
    assert s.links == r.links[last := Fresh] && s.v.wc == r.v.wc[last := ccount];
    assert Ahead(r, last) == 0 && Ahead(s, last) == 4 * ccount;
    WeightChanges(r, s, last, NOFILE);
  }

  lemma Distributes(n: int, c: int)
    ensures 4 * n * c + 4 * c == 4 * (n + 1) * c
  {
  }

  lemma {:induction false} NoWeight(s: State, n: nat)
    requires |s.v.wc| == NOFILE && s.links == map[]
    ensures Weight(s, n) == 0
  {
    if n > 0 {
      NoWeight(s, n - 1);
    }
  }

  ghost predicate Total(s: State, fds: seq<int>, ccount: int) {
    |s.v.wc| == NOFILE && Weight(s, NOFILE) + s.moved == 4 * |fds| * ccount
  }

  lemma StartInv(fds: seq<int>, ccount: int, buf: seq<byte>, nfds: int, upCap: nat, downCap: nat)
    requires Connects(fds, ccount, buf, nfds, upCap, downCap)
    ensures Inv(Start(fds, ccount, buf, nfds, upCap, downCap), ccount)
  {
    var s := Start(fds, ccount, buf, nfds, upCap, downCap);
    ConnectedFacts(fds, ccount, buf);
    forall fd | fd in s.links
      ensures 0 <= fd < nfds && LinkOk(s.links[fd], s.v.rc[fd], s.v.wc[fd], ccount, upCap, downCap)
    {
      assert fd in fds;
    }
  }

  lemma {:induction false} RunKeeps(fds: seq<int>, ccount: int, buf: seq<byte>, nfds: int, upCap: nat, downCap: nat, es: seq<Event>)
    requires Connects(fds, ccount, buf, nfds, upCap, downCap)
    requires Exec(Start(fds, ccount, buf, nfds, upCap, downCap), es).Some?
    ensures var s := Exec(Start(fds, ccount, buf, nfds, upCap, downCap), es).value;
            Inv(s, ccount) && Total(s, fds, ccount)
  {
    var s0 := Start(fds, ccount, buf, nfds, upCap, downCap);
    if es == [] {
      StartInv(fds, ccount, buf, nfds, upCap, downCap);
      StartWeight(fds, ccount, buf, nfds, upCap, downCap);
    } else {
      RunKeeps(fds, ccount, buf, nfds, upCap, downCap, es[..|es| - 1]);
      var s, e := Exec(s0, es[..|es| - 1]).value, es[|es| - 1];
      StepKeeps(s, e, ccount);
      StepWeight(s, e, ccount);
    }
  }
}
