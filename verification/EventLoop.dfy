/** The single-process super-server (exc_14_3.c): one select loop over the master sockets of several
    services and over all their clients, with accept and close inside the scan. */
module EventLoop {
  import opened Basics
  import opened Runs

  const FD_SETSIZE := 1024
  const NONE := -1

  datatype Service = Echo | Chargen | Daytime | Time

  /** The service table; its entry k is the service whose master socket is entry k of `socks`. */
  const SVENT: seq<Service> := [Echo, Chargen, Daytime, Time]

  /** What `main` keeps: the master sockets, the map from descriptors to services, the descriptors to
      watch, and a bound above them. */
  datatype Loop = Loop(socks: seq<int>, fd2svc: seq<int>, afds: set<int>, nfds: int)

  /** What a handler can return; an error ends the process instead. */
  predicate MayReturn(svc: Service, ret: int) {
    match svc
    case Echo => 0 <= ret <= 4096
    case Chargen => 0 <= ret <= 74
    case Daytime => ret == 0
    case Time => ret == 0
  }

  /** A client of service k is accepted on descriptor ssock.  A daytime client is served and closed at
      once.  No result: the descriptor is too large and the process exits. */
  function Accepted(l: Loop, k: int, ssock: int): Option<Loop>
    requires 0 <= k < |SVENT| && ssock >= 0 && |l.fd2svc| == FD_SETSIZE
  {
    var nfds := Max(ssock + 1, l.nfds);
    if nfds > FD_SETSIZE then None
    else if SVENT[k] == Daytime then
      Some(l.(nfds := nfds, fd2svc := l.fd2svc[ssock := NONE], afds := l.afds + {ssock} - {ssock}))
    else
      Some(l.(nfds := nfds, fd2svc := l.fd2svc[ssock := k], afds := l.afds + {ssock}))
  }

  /** A client's handler returned 0: its descriptor is closed. */
  function Closed(l: Loop, fd: int): Loop
    requires 0 <= fd < |l.fd2svc|
  {
    l.(fd2svc := l.fd2svc[fd := NONE], afds := l.afds - {fd})
  }

  function MaxBound(socks: seq<int>): (n: int)
    ensures n >= 0 && forall k :: 0 <= k < |socks| ==> n > socks[k]
  {
    if socks == [] then 0 else Max(socks[|socks| - 1] + 1, MaxBound(socks[..|socks| - 1]))
  }

  lemma {:induction false} BoundGrows(socks: seq<int>, k: nat)
    requires k <= |socks|
    ensures MaxBound(socks[..k]) <= MaxBound(socks)
  {
    if k == |socks| {
      assert socks[..k] == socks;
    } else {
      BoundGrows(socks[..|socks| - 1], k);
      assert socks[..|socks| - 1][..k] == socks[..k];
    }
  }

  function Started(socks: seq<int>): Loop {
    Loop(socks, seq(FD_SETSIZE, i => NONE), (set x | x in socks), MaxBound(socks))
  }

  // ----- The loop's data in place -------------------------------------------------------------

  class SuperServer {
    const socks: array<int>
    const fd2svc: array<int>
    var afds: set<int>
    var nfds: int

    ghost function View(): Loop
      reads this, socks, fd2svc
    {
      Loop(socks[..], fd2svc[..], afds, nfds)
    }

    constructor (socks: array<int>, fd2svc: array<int>)
      ensures this.socks == socks && this.fd2svc == fd2svc && afds == {} && nfds == 0
    {
      this.socks := socks;
      this.fd2svc := fd2svc;
      nfds := 0;
      afds := {};
    }

    /** Registers the master sockets; false when the process exits because one is too large. */
    method Register() returns (alive: bool)
      requires fd2svc.Length == FD_SETSIZE && forall i :: 0 <= i < FD_SETSIZE ==> fd2svc[i] == NONE
      requires afds == {} && nfds == 0
      modifies this
      ensures alive <==> MaxBound(socks[..]) <= FD_SETSIZE
      ensures alive ==> View() == Started(socks[..])
    {
      for k := 0 to socks.Length
        invariant afds == set x | x in socks[..k]
        invariant nfds == MaxBound(socks[..k]) <= FD_SETSIZE
      {
        assert socks[..k + 1][..k] == socks[..k];
        assert socks[..k + 1] == socks[..k] + [socks[k]];
        nfds := Max(socks[k] + 1, nfds);
        if nfds > FD_SETSIZE {
          BoundGrows(socks[..], k + 1);
          return false;
        }
        afds := afds + {socks[k]};
      }
      assert socks[..socks.Length] == socks[..];
      return true;
    }

    /** The part of the loop body for a ready descriptor fd.  `ssock` is what accept returns if it is
        called, `ret` what the handler returns if it is called.  The result is false when the process
        exits; `called` tells which service's handler ran on fd itself, if any. */
    method Visit(fd: int, ssock: int, ret: int) returns (alive: bool, called: int)
      requires socks.Length == |SVENT| && fd2svc.Length == FD_SETSIZE
      requires 0 <= fd < FD_SETSIZE && ssock >= 0
      requires forall i :: 0 <= i < FD_SETSIZE ==> NONE <= fd2svc[i] < |SVENT|
      modifies this, fd2svc
      ensures var k := IndexOf(socks[..], fd);
              if k >= 0 then
                called == NONE && alive == old(Accepted(View(), k, ssock)).Some? &&
                (alive ==> View() == old(Accepted(View(), k, ssock)).value)
              else
                alive && called == old(fd2svc[fd]) &&
                View() == if called != NONE && ret == 0 then old(Closed(View(), fd)) else old(View())
    {
      for k := 0 to socks.Length
        invariant View() == old(View())
        invariant forall j :: 0 <= j < k ==> socks[j] != fd
      {
        if socks[k] == fd {
          assert IndexOf(socks[..], fd) == k;
          afds := afds + {ssock};
          nfds := Max(ssock + 1, nfds);
          if nfds > FD_SETSIZE {
            return false, NONE;
          }
          fd2svc[ssock] := k;
          if SVENT[k] == Daytime {
            fd2svc[ssock] := NONE;
            afds := afds - {ssock};
          }
          return true, NONE;
        }
      }
      alive, called := true, fd2svc[fd];
      if called != NONE && ret == 0 {
        fd2svc[fd] := NONE;
        afds := afds - {fd};
      }
    }
  }

  // ----- The running server -------------------------------------------------------------------

  /** An accepted connection: its descriptor and the service whose master accepted it. */
  datatype Client = Client(fd: int, svc: int)

  /** `seen` is what the open descriptors were when select returned `ready`. */
  datatype Pc = AtSelect | Scanning(fd: int, ready: set<int>, seen: map<int, nat>) | Exited

  /** `open` maps the open client descriptors to accepted connections; `closed` counts closings. */
  datatype State = State(l: Loop, pc: Pc, clients: seq<Client>, open: map<int, nat>, closed: nat)

  datatype Event =
    | Select(ready: set<int>)
    | Look(ssock: int, ret: int)   // the loop looks at its current descriptor
    | Fail                         // a call fails and the process exits

  function Start(socks: seq<int>): State {
    State(Started(socks), AtSelect, [], map[], 0)
  }

  function DoAccept(s: State, k: int, ssock: int): Option<State>
    requires 0 <= k < |SVENT| && |s.l.fd2svc| == FD_SETSIZE
  {
    if ssock < 0 || ssock in s.open || ssock in s.l.socks then None
    else
      var l := Accepted(s.l, k, ssock);
      if l.None? then Some(s.(pc := Exited))
      else if SVENT[k] == Daytime then
        Some(s.(l := l.value, clients := s.clients + [Client(ssock, k)], closed := s.closed + 1))
      else
        Some(s.(l := l.value, clients := s.clients + [Client(ssock, k)], open := s.open[ssock := |s.clients|]))
  }

  function DoServe(s: State, fd: int, ret: int): Option<State>
    requires 0 <= fd < |s.l.fd2svc|
  {
    var k := s.l.fd2svc[fd];
    if k == NONE then Some(s)
    else if !(0 <= k < |SVENT| && MayReturn(SVENT[k], ret)) then None
    else if ret == 0 then Some(s.(l := Closed(s.l, fd), open := s.open - {fd}, closed := s.closed + 1))
    else Some(s)
  }

  function DoLook(s: State, ssock: int, ret: int): Option<State>
    requires s.pc.Scanning? && s.pc.fd >= 0 && |s.l.socks| == |SVENT| && |s.l.fd2svc| == FD_SETSIZE
  {
    var fd := s.pc.fd;
    var next := s.(pc := Scanning(fd + 1, s.pc.ready, s.pc.seen));
    if fd >= s.l.nfds then Some(s.(pc := AtSelect))
    else if fd !in s.pc.ready then Some(next)
    else if IndexOf(s.l.socks, fd) >= 0 then DoAccept(next, IndexOf(s.l.socks, fd), ssock)
    else if fd < FD_SETSIZE then DoServe(next, fd, ret)
    else None
  }

  function Step(s: State, e: Event): Option<State> {
    if |s.l.socks| != |SVENT| || |s.l.fd2svc| != FD_SETSIZE then None else
    match e
    case Select(ready) =>
      if s.pc == AtSelect && ready <= s.l.afds then Some(s.(pc := Scanning(0, ready, s.open))) else None
    case Look(ssock, ret) => if s.pc.Scanning? && s.pc.fd >= 0 then DoLook(s, ssock, ret) else None
    case Fail => if s.pc != Exited then Some(s.(pc := Exited)) else None
  }

  function Exec(s: State, es: seq<Event>): Option<State> {
    After(Step, s, es)
  }

  /** The master sockets as start-up leaves them: one per service, distinct, below FD_SETSIZE. */
  predicate Listening(socks: seq<int>) {
    && |socks| == |SVENT|
    && (forall k :: 0 <= k < |socks| ==> 0 <= socks[k] < FD_SETSIZE)
    && (forall j, k :: 0 <= j < k < |socks| ==> socks[j] != socks[k])
  }

  // ----- Invariant ----------------------------------------------------------------------------

  ghost predicate LoopOk(l: Loop) {
    && |l.socks| == |SVENT| && |l.fd2svc| == FD_SETSIZE
    && l.nfds <= FD_SETSIZE
    && (forall fd :: fd in l.afds <==> fd in l.socks || (0 <= fd < FD_SETSIZE && l.fd2svc[fd] != NONE))
    && (forall fd :: fd in l.afds ==> 0 <= fd < l.nfds)
    && (forall fd :: fd in l.socks ==> 0 <= fd < FD_SETSIZE && l.fd2svc[fd] == NONE)
  }

  ghost predicate OpenOk(s: State)
    requires |s.l.fd2svc| == FD_SETSIZE
  {
    && (forall fd :: fd in s.open <==> 0 <= fd < FD_SETSIZE && s.l.fd2svc[fd] != NONE)
    && (forall fd :: fd in s.open ==>
          && s.open[fd] < |s.clients|
          && s.clients[s.open[fd]] == Client(fd, s.l.fd2svc[fd])
          && 0 <= s.l.fd2svc[fd] < |SVENT|)
    && |s.clients| == s.closed + |s.open|
  }

  /** Every ready descriptor the scan has not reached yet still is what select saw. */
  ghost predicate ScanOk(s: State) {
    s.pc.Scanning? ==>
      && s.pc.fd >= 0
      && (forall fd :: fd in s.pc.ready ==> 0 <= fd < s.l.nfds)
      && (forall fd :: fd in s.pc.ready && fd >= s.pc.fd && fd !in s.l.socks ==>
            fd in s.open && fd in s.pc.seen && s.pc.seen[fd] == s.open[fd])
  }

  ghost predicate Inv(s: State) {
    LoopOk(s.l) && OpenOk(s) && ScanOk(s)
  }

  lemma AdvanceKeeps(s: State)
    requires Inv(s) && s.pc.Scanning?
    ensures Inv(s.(pc := Scanning(s.pc.fd + 1, s.pc.ready, s.pc.seen)))
  {
  }

  lemma AcceptedKeepsLoop(l: Loop, k: int, ssock: int)
    requires LoopOk(l) && 0 <= k < |SVENT| && ssock >= 0 && ssock !in l.socks
    requires ssock < FD_SETSIZE ==> l.fd2svc[ssock] == NONE
    requires Accepted(l, k, ssock).Some?
    ensures LoopOk(Accepted(l, k, ssock).value)
  {
  }

  lemma AcceptKeeps(s: State, k: int, ssock: int)
    requires Inv(s) && 0 <= k < |SVENT| && s.pc.Scanning? && DoAccept(s, k, ssock).Some?
    ensures Inv(DoAccept(s, k, ssock).value)
  {
    var t := DoAccept(s, k, ssock).value;
    if t.pc != Exited {
      AcceptedKeepsLoop(s.l, k, ssock);
      if SVENT[k] != Daytime {
        AdmitKeeps(s, t, k, ssock);
      }
    }
  }

  /** A client that stays open. */
  lemma AdmitKeeps(s: State, t: State, k: int, ssock: int)
    requires Inv(s) && 0 <= k < |SVENT| && 0 <= ssock < FD_SETSIZE && ssock !in s.open && ssock !in s.l.socks
    requires s.pc.Scanning? && LoopOk(t.l) && t.l.nfds >= s.l.nfds && t.l.fd2svc == s.l.fd2svc[ssock := k]
    requires t == s.(l := t.l, clients := s.clients + [Client(ssock, k)], open := s.open[ssock := |s.clients|])
    requires t.l.socks == s.l.socks
    ensures Inv(t)
  {
    assert t.open.Keys == s.open.Keys + {ssock};
    assert |t.open.Keys| == |s.open.Keys| + 1;
    assert |t.open| == |t.open.Keys| && |s.open| == |s.open.Keys|;
  }

  lemma ServeKeeps(s: State, fd: int, ret: int)
    requires Inv(s) && s.pc.Scanning? && 0 <= fd < s.pc.fd && fd < FD_SETSIZE && fd !in s.l.socks
    requires DoServe(s, fd, ret).Some?
    ensures Inv(DoServe(s, fd, ret).value)
  {
    var t := DoServe(s, fd, ret).value;
    if s.l.fd2svc[fd] != NONE && ret == 0 {
      assert t.open.Keys == s.open.Keys - {fd};
      assert |t.open| == |t.open.Keys| && |s.open| == |s.open.Keys|;
    }
  }

  /** What a step keeps. */
  ghost predicate Keeps(s: State, t: State) {
    Inv(t) && t.l.nfds >= s.l.nfds && t.l.socks == s.l.socks
  }

  lemma LookKeeps(s: State, ssock: int, ret: int)
    requires Inv(s) && s.pc.Scanning? && DoLook(s, ssock, ret).Some?
    ensures Keeps(s, DoLook(s, ssock, ret).value)
  {
    AdvanceKeeps(s);
    var fd := s.pc.fd;
    var next := s.(pc := Scanning(fd + 1, s.pc.ready, s.pc.seen));
    var k := IndexOf(s.l.socks, fd);
    if fd >= s.l.nfds {
      assert DoLook(s, ssock, ret) == Some(s.(pc := AtSelect));
    } else if fd in s.pc.ready && k >= 0 {
      assert DoLook(s, ssock, ret) == DoAccept(next, k, ssock);
      AcceptKeeps(next, k, ssock);
    } else if fd in s.pc.ready {
      assert DoLook(s, ssock, ret) == DoServe(next, fd, ret);
      ServeKeeps(next, fd, ret);
    }
  }

  lemma StepKeeps(s: State, e: Event)
    requires Inv(s) && Step(s, e).Some?
    ensures Keeps(s, Step(s, e).value)
  {
    match e
    case Select(ready) =>
    case Look(ssock, ret) => LookKeeps(s, ssock, ret);
    case Fail =>
  }

  lemma {:induction false} RunKeeps(socks: seq<int>, es: seq<Event>)
    requires Listening(socks) && Exec(Start(socks), es).Some?
    ensures Inv(Exec(Start(socks), es).value)
    ensures Exec(Start(socks), es).value.l.socks == socks
  {
    if es == [] {
      BoundFits(socks);
    } else {
      RunKeeps(socks, es[..|es| - 1]);
      StepKeeps(Exec(Start(socks), es[..|es| - 1]).value, es[|es| - 1]);
    }
  }

  lemma {:induction false} BoundFits(socks: seq<int>)
    requires forall k :: 0 <= k < |socks| ==> 0 <= socks[k] < FD_SETSIZE
    ensures MaxBound(socks) <= FD_SETSIZE
  {
    if socks != [] {
      BoundFits(socks[..|socks| - 1]);
    }
  }

  // ----- Main results -------------------------------------------------------------------------

  /** At every point of every run: a descriptor is watched iff it is a master socket or has a service;
      the descriptors with a service are the open client connections; all watched descriptors are
      below the bound, which never exceeds FD_SETSIZE; and accepted = closed + live. */
  lemma Bookkeeping(socks: seq<int>, es: seq<Event>, s: State)
    requires Listening(socks) && Exec(Start(socks), es) == Some(s)
    ensures |s.l.fd2svc| == FD_SETSIZE
    ensures forall fd :: fd in s.l.afds <==> fd in socks || (0 <= fd < FD_SETSIZE && s.l.fd2svc[fd] != NONE)
    ensures forall fd :: fd in s.open <==> 0 <= fd < FD_SETSIZE && s.l.fd2svc[fd] != NONE
    ensures forall fd :: fd in s.l.afds ==> 0 <= fd < s.l.nfds
    ensures s.l.nfds <= FD_SETSIZE
    ensures |s.clients| == s.closed + |s.open|
  {
    RunKeeps(socks, es);
  }

  /** Whenever the loop finds a ready descriptor that is not a master socket, it is open, it is the very
      connection that select reported, although descriptors are closed and reused during the scan, and
      the service about to be called is the one whose master socket accepted it. */
  lemma NoStaleReadiness(socks: seq<int>, es: seq<Event>, s: State)
    requires Listening(socks) && Exec(Start(socks), es) == Some(s)
    requires s.pc.Scanning? && s.pc.fd in s.pc.ready && s.pc.fd !in socks
    ensures 0 <= s.pc.fd < FD_SETSIZE == |s.l.fd2svc|
    ensures s.pc.fd in s.open && s.pc.fd in s.pc.seen && s.open[s.pc.fd] == s.pc.seen[s.pc.fd]
    ensures s.open[s.pc.fd] < |s.clients|
    ensures s.clients[s.open[s.pc.fd]] == Client(s.pc.fd, s.l.fd2svc[s.pc.fd])
  {
    RunKeeps(socks, es);
  }

  /** No step lowers the bound. */
  lemma BoundNeverFalls(socks: seq<int>, es: seq<Event>, s: State, e: Event, t: State)
    requires Listening(socks) && Exec(Start(socks), es) == Some(s) && Step(s, e) == Some(t)
    ensures t.l.nfds >= s.l.nfds
  {
    RunKeeps(socks, es);
    StepKeeps(s, e);
  }

  /** Descriptor f is in t as it was in s. */
  ghost predicate SameAt(s: State, t: State, f: int)
    requires |s.l.fd2svc| == |t.l.fd2svc| == FD_SETSIZE
  {
    && (f in t.l.afds <==> f in s.l.afds)
    && (f in t.open <==> f in s.open)
    && (f in s.open && f in t.open ==> t.open[f] == s.open[f])
    && (0 <= f < FD_SETSIZE ==> t.l.fd2svc[f] == s.l.fd2svc[f])
  }

  /** A client on descriptor fd has been served: it stays exactly if its handler does not return 0, and
      otherwise is closed and forgotten. */
  ghost predicate Serves(s: State, t: State, fd: int, ret: int)
    requires |s.l.fd2svc| == |t.l.fd2svc| == FD_SETSIZE
  {
    && (fd in t.open <==> ret != 0) && (fd in t.l.afds <==> ret != 0)
    && t.closed == s.closed + (if ret == 0 then 1 else 0)
    && (forall f :: f != fd || ret != 0 ==> SameAt(s, t, f))
    && t.clients == s.clients && t.l.nfds == s.l.nfds
  }

  lemma LookServes(s: State, x: int, ret: int)
    requires Inv(s) && s.pc.Scanning? && s.pc.fd in s.pc.ready && s.pc.fd !in s.l.socks
    requires DoLook(s, x, ret).Some?
    ensures var t := DoLook(s, x, ret).value;
            |t.l.fd2svc| == FD_SETSIZE && t.pc == s.pc.(fd := s.pc.fd + 1) && Serves(s, t, s.pc.fd, ret)
  {
    var next := s.(pc := Scanning(s.pc.fd + 1, s.pc.ready, s.pc.seen));
    assert DoLook(s, x, ret) == DoServe(next, s.pc.fd, ret);
  }

  /** When the loop comes to a ready client, it serves that client, and nothing else changes. */
  lemma ClientStaysUnlessZero(socks: seq<int>, es: seq<Event>, s: State, x: int, ret: int, t: State)
    requires Listening(socks) && Exec(Start(socks), es) == Some(s)
    requires s.pc.Scanning? && s.pc.fd in s.pc.ready && s.pc.fd !in socks && Step(s, Look(x, ret)) == Some(t)
    ensures |s.l.fd2svc| == |t.l.fd2svc| == FD_SETSIZE
    ensures t.pc == s.pc.(fd := s.pc.fd + 1) && Serves(s, t, s.pc.fd, ret)
  {
    RunKeeps(socks, es);
    LookServes(s, x, ret);
  }

  /** What an accept for service k on descriptor x makes of the state: the new client is left open exactly
      if the service is not daytime. */
  ghost predicate Accepts(s: State, t: State, k: int, x: int)
    requires 0 <= k < |SVENT| && |s.l.fd2svc| == |t.l.fd2svc| == FD_SETSIZE
  {
    var stays := SVENT[k] != Daytime;
    && t.clients == s.clients + [Client(x, k)]
    && (x in t.open <==> stays) && (x in t.l.afds <==> stays)
    && (x in t.open ==> 0 <= x < FD_SETSIZE && t.open[x] == |s.clients| && t.l.fd2svc[x] == k)
    && t.closed == s.closed + (if stays then 0 else 1)
    && t.l.nfds == Max(x + 1, s.l.nfds)
  }

  lemma AcceptAccepts(s: State, k: int, x: int)
    requires Inv(s) && s.pc.Scanning? && 0 <= k < |SVENT| && DoAccept(s, k, x).Some?
    ensures var t := DoAccept(s, k, x).value;
            && |t.l.fd2svc| == FD_SETSIZE
            && (t.pc == Exited <==> x >= FD_SETSIZE)
            && (t.pc != Exited ==> t.pc == s.pc && Accepts(s, t, k, x))
            && (forall f :: f != x ==> SameAt(s, t, f))
  {
  }

  lemma LookAccepts(s: State, k: int, x: int, ret: int)
    requires Inv(s) && s.pc.Scanning? && s.pc.fd in s.pc.ready && 0 <= k < |SVENT|
    requires IndexOf(s.l.socks, s.pc.fd) == k && DoLook(s, x, ret).Some?
    ensures var t := DoLook(s, x, ret).value;
            && |t.l.fd2svc| == FD_SETSIZE
            && (t.pc == Exited <==> x >= FD_SETSIZE)
            && (t.pc != Exited ==> t.pc == s.pc.(fd := s.pc.fd + 1) && Accepts(s, t, k, x))
            && (forall f :: f != x ==> SameAt(s, t, f))
  {
    var next := s.(pc := Scanning(s.pc.fd + 1, s.pc.ready, s.pc.seen));
    AdvanceKeeps(s);
    assert DoLook(s, x, ret) == DoAccept(next, k, x);
    AcceptAccepts(next, k, x);
  }

  /** When it comes to a ready master socket, one client is accepted for that service.  The process exits
      instead if the descriptor is too large.  Nothing else changes. */
  lemma MasterAccepts(socks: seq<int>, es: seq<Event>, s: State, k: int, x: int, ret: int, t: State)
    requires Listening(socks) && Exec(Start(socks), es) == Some(s) && 0 <= k < |socks|
    requires s.pc.Scanning? && s.pc.fd in s.pc.ready && s.pc.fd == socks[k] && Step(s, Look(x, ret)) == Some(t)
    ensures |s.l.fd2svc| == |t.l.fd2svc| == FD_SETSIZE
    ensures t.pc == Exited <==> x >= FD_SETSIZE
    ensures t.pc != Exited ==> t.pc == s.pc.(fd := s.pc.fd + 1) && Accepts(s, t, k, x)
    ensures forall f :: f != x ==> SameAt(s, t, f)
  {
    RunKeeps(socks, es);
    assert IndexOf(socks, s.pc.fd) == k;
    LookAccepts(s, k, x, ret);
  }

  /** A descriptor that is not ready is passed over, and the scan ends at the bound. */
  lemma OthersArePassedOver(s: State, x: int, ret: int, t: State)
    requires s.pc.Scanning? && s.pc.fd !in s.pc.ready && Step(s, Look(x, ret)) == Some(t)
    ensures t == s.(pc := if s.pc.fd >= s.l.nfds then AtSelect else s.pc.(fd := s.pc.fd + 1))
  {
  }
}
