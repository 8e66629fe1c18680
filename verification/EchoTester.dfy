/** The client that tests the echo service of several hosts at once (TCPtecho.c) against one echo
    server process per host (TCPechod.c), over channels of finite capacity. */
module EchoTester {
  import opened Basics
  import opened Runs

  const NOFILE := 256
  const BUFSIZE := 4096

  /** The client's variables: bytes still to read and to write per descriptor, the one buffer that
      both sending and receiving use, the descriptors to watch, and the number of unfinished hosts. */
  datatype Tester = Tester(rc: seq<int>, wc: seq<int>, buf: seq<byte>, afds: set<int>, hcount: int)

  function Min(x: int, y: int): int {
    if x < y then x else y
  }

  /** `send` on fd took cc bytes. */
  function Wrote(v: Tester, fd: int, cc: int): Tester
    requires 0 <= fd < |v.wc|
  {
    v.(wc := v.wc[fd := v.wc[fd] - cc])
  }

  /** `recv` on fd delivered data into the buffer; the last byte closes the host. */
  function Got(v: Tester, fd: int, data: seq<byte>): Tester
    requires 0 <= fd < |v.rc| && |data| <= |v.buf|
  {
    var left := v.rc[fd] - |data|;
    var u := v.(rc := v.rc[fd := left], buf := data + v.buf[|data|..]);
    if left == 0 then u.(afds := v.afds - {fd}, hcount := v.hcount - 1) else u
  }

  /** The variables once every host in `fds` is connected. */
  function Connected(fds: seq<int>, ccount: int, buf: seq<byte>): (v: Tester)
    requires forall i :: 0 <= i < |fds| ==> 0 <= fds[i] < NOFILE
    ensures |v.rc| == |v.wc| == NOFILE && v.hcount == |fds|
  {
    if fds == [] then Tester(seq(NOFILE, i => 0), seq(NOFILE, i => 0), buf, {}, 0)
    else
      var fd, v := fds[|fds| - 1], Connected(fds[..|fds| - 1], ccount, buf);
      v.(rc := v.rc[fd := ccount], wc := v.wc[fd := ccount], afds := v.afds + {fd}, hcount := v.hcount + 1)
  }

  class EchoClient {
    const rc: array<int>
    const wc: array<int>
    const buf: array<byte>
    var afds: set<int>
    var hcount: int

    ghost predicate Valid()
      reads this
    {
      rc != wc && rc.Length == wc.Length == NOFILE && buf.Length == BUFSIZE
    }

    ghost function View(): Tester
      reads this, rc, wc, buf
    {
      Tester(rc[..], wc[..], buf[..], afds, hcount)
    }

    /** The argument loop of main: connect to each host. */
    constructor (fds: seq<int>, ccount: int, buf: array<byte>)
      requires buf.Length == BUFSIZE
      requires forall i :: 0 <= i < |fds| ==> 0 <= fds[i] < NOFILE
      ensures Valid() && this.buf == buf && fresh(rc) && fresh(wc)
      ensures View() == Connected(fds, ccount, buf[..])
    {
      rc := new int[NOFILE](i => 0);
      wc := new int[NOFILE](i => 0);
      this.buf := buf;
      afds, hcount := {}, 0;
      new;
      assert rc[..] == seq(NOFILE, i => 0);
      assert wc[..] == seq(NOFILE, i => 0);
      for i := 0 to |fds|
        modifies this, rc, wc
        invariant Valid()
        invariant View() == Connected(fds[..i], ccount, buf[..])
      {
        assert fds[..i + 1][..i] == fds[..i];
        rc[fds[i]], wc[fds[i]] := ccount, ccount;
        afds := afds + {fds[i]};
        hcount := hcount + 1;
      }
      assert fds[..|fds|] == fds;
    }

    /** What the loop does with a writable descriptor: `writer`, and shutdown when it returns 0.  cc is
        what send returns if it is called. */
    method VisitWritable(fd: int, cc: int) returns (shut: bool)
      requires Valid() && 0 <= fd < NOFILE
      modifies wc
      ensures View() == if old(wc[fd]) == 0 then old(View()) else Wrote(old(View()), fd, cc)
      ensures shut <==> old(wc[fd]) != 0 && old(wc[fd]) == cc
    {
      var r := -1;
      if wc[fd] != 0 {
        wc[fd] := wc[fd] - cc;
        r := wc[fd];
      }
      shut := r == 0;
    }

    /** recv leaves the bytes it delivers at the start of the buffer. */
    method Store(data: seq<byte>)
      requires |data| <= buf.Length
      modifies buf
      ensures buf[..] == data + old(buf[..])[|data|..]
    {
      for i := 0 to |data|
        invariant forall j :: 0 <= j < buf.Length ==> buf[j] == if j < i then data[j] else old(buf[j])
      {
        buf[i] := data[i];
      }
    }

    /** What the loop does with a readable descriptor: `reader`, and the end of the test for this host
        when it returns 0.  data is what recv delivers if it is called. */
    method VisitReadable(fd: int, data: seq<byte>) returns (closed: bool)
      requires Valid() && 0 <= fd < NOFILE && |data| <= BUFSIZE
      modifies this`afds, this`hcount, rc, buf
      ensures View() == if old(rc[fd]) == 0 then old(View()) else Got(old(View()), fd, data)
      ensures closed <==> old(rc[fd]) != 0 && old(rc[fd]) == |data|
    {
      if rc[fd] == 0 {
        return false;
      }
      Store(data);
      rc[fd] := rc[fd] - |data|;
      if rc[fd] == 0 {
        afds := afds - {fd};
        hcount := hcount - 1;
        return true;
      }
      return false;
    }
  }

  // ----- Client, servers and channels together --------------------------------------------------

  /** One host: the bytes in the channel to the server, in the server's buffer and in the channel back;
      whether the server has ended its stream; how often the client called shutdown and close; and the
      two byte streams as the client sees them. */
  datatype Link = Link(up: seq<byte>, server: seq<byte>, down: seq<byte>, eof: bool,
                       shuts: nat, closes: nat, sent: seq<byte>, received: seq<byte>)

  /** Where the client's loop is: in select, or about to look at fd for writing or for reading. */
  datatype Pc = AtSelect | Writing(fd: int, w: set<int>, r: set<int>) | Reading(fd: int, w: set<int>, r: set<int>) | Exited

  /** `nfds`, `upCap` and `downCap` are constants of a run; `moved` counts byte movements: into the
      channel, into the server, out of the server, out of the channel. */
  datatype State = State(v: Tester, pc: Pc, links: map<int, Link>, nfds: int, upCap: nat, downCap: nat, moved: nat)

  datatype Event =
    | Select(w: set<int>, r: set<int>)
    | Client(n: nat)                // the client's next statement; n is the byte count of its call
    | ServerRead(fd: int, n: nat)
    | ServerWrite(fd: int, n: nat)
    | ServerEof(fd: int)
    | Fail

  const Fresh := Link([], [], [], false, 0, 0, [], [])

  function Start(fds: seq<int>, ccount: int, buf: seq<byte>, nfds: int, upCap: nat, downCap: nat): State
    requires forall i :: 0 <= i < |fds| ==> 0 <= fds[i] < NOFILE
  {
    var v := Connected(fds, ccount, buf);
    State(v, AtSelect, map fd | fd in v.afds :: Fresh, nfds, upCap, downCap, 0)
  }

  /** select may report these. */
  predicate Writable(s: State, fd: int) {
    fd in s.links && (|s.links[fd].up| < s.upCap || s.links[fd].shuts > 0)
  }

  predicate Readable(s: State, fd: int) {
    fd in s.links && (s.links[fd].down != [] || s.links[fd].eof)
  }

  function DoWrite(s: State, fd: int, n: nat): Option<State> {
    if fd !in s.links || !(0 <= fd < |s.v.wc|) then None
    else if s.v.wc[fd] == 0 then Some(s)
    else
      var l := s.links[fd];
      if !(0 < n <= Min(BUFSIZE, s.v.wc[fd]) && n <= |s.v.buf| && |l.up| + n <= s.upCap) then None
      else
        var data := s.v.buf[..n];
        Some(s.(v := Wrote(s.v, fd, n),
                links := s.links[fd := l.(up := l.up + data, sent := l.sent + data,
                                          shuts := if s.v.wc[fd] == n then l.shuts + 1 else l.shuts)],
                moved := s.moved + n))
  }

  function DoRead(s: State, fd: int, n: nat): Option<State> {
    if fd !in s.links || !(0 <= fd < |s.v.rc|) then None
    else if s.v.rc[fd] == 0 then Some(s)
    else
      var l := s.links[fd];
      if n == 0 then (if l.down == [] && l.eof then Some(s) else None)
      else if !(n <= BUFSIZE && n <= |s.v.buf| && n <= |l.down|) then None
      else
        var data := l.down[..n];
        Some(s.(v := Got(s.v, fd, data),
                links := s.links[fd := l.(down := l.down[n..], received := l.received + data,
                                          closes := if s.v.rc[fd] == n then l.closes + 1 else l.closes)],
                moved := s.moved + n))
  }

  function DoClient(s: State, n: nat): Option<State> {
    match s.pc
    case Writing(fd, w, r) =>
      var next := s.(pc := Reading(fd, w, r));
      if fd >= s.nfds then Some(s.(pc := AtSelect))
      else if fd !in w then Some(next)
      else DoWrite(next, fd, n)
    case Reading(fd, w, r) =>
      var next := s.(pc := Writing(fd + 1, w, r));
      if fd !in r then Some(next)
      else DoRead(next, fd, n)
    case _ => None
  }

  function Step(s: State, e: Event): Option<State> {
    match e
    case Select(w, r) =>
      if s.pc == AtSelect && s.v.hcount != 0 && w <= s.v.afds && r <= s.v.afds &&
         (forall fd :: fd in w ==> Writable(s, fd)) && (forall fd :: fd in r ==> Readable(s, fd))
      then Some(s.(pc := Writing(0, w, r))) else None
    case Client(n) => DoClient(s, n)
    case ServerRead(fd, n) =>
      if fd in s.links && s.links[fd].server == [] && 0 < n <= BUFSIZE && n <= |s.links[fd].up| then
        var l := s.links[fd];
        Some(s.(links := s.links[fd := l.(up := l.up[n..], server := l.up[..n])], moved := s.moved + n))
      else None
    case ServerWrite(fd, n) =>
      if fd in s.links && 0 < n <= |s.links[fd].server| && |s.links[fd].down| + n <= s.downCap then
        var l := s.links[fd];
        Some(s.(links := s.links[fd := l.(server := l.server[n..], down := l.down + l.server[..n])], moved := s.moved + n))
      else None
    case ServerEof(fd) =>
      if fd in s.links && s.links[fd].server == [] && s.links[fd].up == [] && s.links[fd].shuts > 0
      then Some(s.(links := s.links[fd := s.links[fd].(eof := true)])) else None
    case Fail => if s.pc != Exited then Some(s.(pc := Exited)) else None
  }

  function Exec(s: State, es: seq<Event>): Option<State> {
    After(Step, s, es)
  }

  /** The descriptors connected to: distinct, below nfds, which is at most NOFILE. */
  predicate Connects(fds: seq<int>, ccount: int, buf: seq<byte>, nfds: int, upCap: nat, downCap: nat) {
    && (forall i :: 0 <= i < |fds| ==> 0 <= fds[i] < nfds)
    && (forall i, j :: 0 <= i < j < |fds| ==> fds[i] != fds[j])
    && nfds <= NOFILE && ccount > 0 && |buf| == BUFSIZE && upCap > 0 && downCap > 0
  }
}
