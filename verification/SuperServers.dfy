/** The super-servers that fork a child per connection: one finds the service of a ready descriptor by
    searching the table (exc_14_1.c), one by an index from descriptors to services (superd.c), and one
    rebuilds table, index, set and bound when it is told to (exc_14_6.c). */
module SuperServers {
  import opened Basics
  import opened Runs

  const NOFILE := 256
  const NOSOCK := -1
  const NULL := -1

  /** The sockets of the services in table order; the index from descriptors to services; the
      descriptors to watch; a bound above them. */
  datatype Server = Server(socks: seq<int>, fd2sv: seq<int>, afds: set<int>, nfds: int)

  predicate Descriptor(fd: int) {
    0 <= fd < NOFILE
  }

  // ----- Reconfiguration as a value -------------------------------------------------------------

  /** The first phase, for one service: forget its socket if it has one. */
  function ClearOne(v: Server, sock: int): Server {
    if sock != NOSOCK && Descriptor(sock) && |v.fd2sv| == NOFILE
    then v.(fd2sv := v.fd2sv[sock := NULL], afds := v.afds - {sock}) else v
  }

  /** The first phase for the first k services. */
  function Clear(v: Server, k: nat): (r: Server)
    requires k <= |v.socks|
    ensures r.socks == v.socks && |r.fd2sv| == |v.fd2sv| && r.nfds == v.nfds
  {
    if k == 0 then v else ClearOne(Clear(v, k - 1), v.socks[k - 1])
  }

  /** The second phase, for service k: it listens on sock from now on. */
  function OpenOne(v: Server, k: nat, sock: int): Server {
    if k < |v.socks| && Descriptor(sock) && |v.fd2sv| == NOFILE
    then v.(socks := v.socks[k := sock], fd2sv := v.fd2sv[sock := k],
            nfds := Max(sock + 1, v.nfds), afds := v.afds + {sock})
    else v
  }

  /** The second phase for the first k services. */
  function Open(v: Server, given: seq<int>, k: nat): (r: Server)
    requires k <= |v.socks| == |given|
    ensures |r.socks| == |v.socks| && |r.fd2sv| == |v.fd2sv|
  {
    if k == 0 then v else OpenOne(Open(v, given, k - 1), k - 1, given[k - 1])
  }

  /** resetServerFrmCfg, with the sockets that the kernel hands out. */
  function Reset(v: Server, given: seq<int>): Server
    requires |v.socks| == |given|
  {
    Open(Clear(v, |v.socks|), given, |given|)
  }

  // ----- Reconfiguration in place ---------------------------------------------------------------

  class SuperServer {
    const svSock: array<int>
    const fd2sv: array<int>
    var afds: set<int>
    var nfds: int

    ghost function View(): Server
      reads this, svSock, fd2sv
    {
      Server(svSock[..], fd2sv[..], afds, nfds)
    }

    /** Before the first configuration no service has a socket; the index holds anything. */
    constructor (services: nat, fd2sv: array<int>)
      requires fd2sv.Length == NOFILE
      ensures this.fd2sv == fd2sv && fresh(svSock)
      ensures View() == Server(seq(services, i => NOSOCK), fd2sv[..], {}, 0)
    {
      svSock := new int[services](i => NOSOCK);
      this.fd2sv := fd2sv;
      afds, nfds := {}, 0;
    }

    method ResetServerFrmCfg(given: seq<int>)
      requires svSock != fd2sv && fd2sv.Length == NOFILE && |given| == svSock.Length
      requires forall k :: 0 <= k < |given| ==> Descriptor(given[k])
      requires forall k :: 0 <= k < svSock.Length ==> svSock[k] == NOSOCK || Descriptor(svSock[k])
      modifies this, svSock, fd2sv
      ensures View() == Reset(old(View()), given)
    {
      ghost var was := View();
      for k := 0 to svSock.Length
        invariant View() == Clear(was, k)
      {
        if svSock[k] != NOSOCK {
          fd2sv[svSock[k]] := NULL;
          afds := afds - {svSock[k]};
        }
      }
      ghost var cleared := View();
      for k := 0 to svSock.Length
        invariant View() == Open(cleared, given, k)
      {
        svSock[k] := given[k];
        fd2sv[svSock[k]] := k;
        nfds := Max(svSock[k] + 1, nfds);
        afds := afds + {svSock[k]};
      }
    }

    /** The loop of exc_14_1.c over the table; -1 is the exit "service map entry not found". */
    method FindService(fd: int) returns (k: int)
      ensures k == IndexOf(svSock[..], fd)
    {
      for i := 0 to svSock.Length
        invariant forall j :: 0 <= j < i ==> svSock[j] != fd
      {
        if svSock[i] == fd {
          return i;
        }
      }
      return -1;
    }
  }

  // ----- The running servers --------------------------------------------------------------------

  /** `Resetting`: the reconfiguration is done and `readCfg = 0` comes next. */
  datatype Pc = Top | Resetting | AtSelect | Scanning(fd: int, ready: set<int>) | Exited

  /** `served` lists the services dispatched so far. */
  datatype State = State(v: Server, readCfg: bool, pc: Pc, served: seq<int>)

  datatype Event =
    | Signal                       // SIGHUP: readCfg = 1
    | Test(given: seq<int>)        // the test of readCfg, and the reconfiguration if it is set
    | ClearFlag
    | Select(ready: set<int>)
    | Interrupted
    | Look
    | Fail

  datatype Mode = Indexed | Searching

  /** How the server finds the service of a ready descriptor; -1 if it does not. */
  function Dispatch(mode: Mode, v: Server, fd: int): int {
    match mode
    case Indexed => if 0 <= fd < |v.fd2sv| then v.fd2sv[fd] else -1
    case Searching => IndexOf(v.socks, fd)
  }

  /** Sockets just created: one per service, all different. */
  predicate FreshSockets(n: nat, given: seq<int>) {
    && |given| == n
    && (forall k :: 0 <= k < |given| ==> Descriptor(given[k]))
    && (forall j, k :: 0 <= j < k < |given| ==> given[j] != given[k])
  }

  function DoLook(mode: Mode, s: State, fd: int, ready: set<int>): State {
    if fd >= s.v.nfds then s.(pc := Top)
    else if fd !in ready then s.(pc := Scanning(fd + 1, ready))
    else
      var k := Dispatch(mode, s.v, fd);
      if k < 0 then s.(pc := Exited)
      else s.(pc := Scanning(fd + 1, ready), served := s.served + [k])
  }

  function Step(mode: Mode, s: State, e: Event): Option<State> {
    match e
    case Signal => Some(s.(readCfg := true))
    case Test(given) =>
      if s.pc != Top then None
      else if !s.readCfg then Some(s.(pc := AtSelect))
      else if FreshSockets(|s.v.socks|, given) then Some(s.(v := Reset(s.v, given), pc := Resetting)) else None
    case ClearFlag => if s.pc == Resetting then Some(s.(readCfg := false, pc := AtSelect)) else None
    case Select(ready) => if s.pc == AtSelect && ready <= s.v.afds then Some(s.(pc := Scanning(0, ready))) else None
    case Interrupted => if s.pc == AtSelect then Some(s.(pc := Top)) else None
    case Look => if s.pc.Scanning? then Some(DoLook(mode, s, s.pc.fd, s.pc.ready)) else None
    case Fail => Some(s.(pc := Exited))
  }

  function IndexedStep(s: State, e: Event): Option<State> {
    Step(Indexed, s, e)
  }

  function SearchingStep(s: State, e: Event): Option<State> {
    Step(Searching, s, e)
  }

  function Exec(mode: Mode, s: State, es: seq<Event>): Option<State> {
    match mode
    case Indexed => After(IndexedStep, s, es)
    case Searching => After(SearchingStep, s, es)
  }

  /** After the first configuration. */
  function Started(n: nat, garbage: seq<int>, given: seq<int>): State
    requires |given| == n
  {
    State(Reset(Server(seq(n, i => NOSOCK), garbage, {}, 0), given), false, Top, [])
  }

  // ----- Invariant ------------------------------------------------------------------------------

  /** The set is exactly the sockets, the bound is above them, and the index is right on them. */
  ghost predicate ServerOk(v: Server) {
    && |v.fd2sv| == NOFILE
    && FreshSockets(|v.socks|, v.socks)
    && (forall fd :: fd in v.afds <==> fd in v.socks)
    && (forall k :: 0 <= k < |v.socks| ==> v.socks[k] < v.nfds && v.fd2sv[v.socks[k]] == k)
  }

  /** What the first phase leaves: nothing watched. */
  lemma {:induction false} ClearForgets(v: Server, k: nat)
    requires k <= |v.socks| && |v.fd2sv| == NOFILE
    requires forall j :: 0 <= j < |v.socks| ==> v.socks[j] == NOSOCK || Descriptor(v.socks[j])
    ensures forall fd :: fd in Clear(v, k).afds <==> fd in v.afds && (fd == NOSOCK || fd !in v.socks[..k])
  {
    if k > 0 {
      ClearForgets(v, k - 1);
      assert v.socks[..k] == v.socks[..k - 1] + [v.socks[k - 1]];
    }
  }

  /** The second phase has done the first k services. */
  ghost predicate Built(r: Server, given: seq<int>, k: nat)
    requires k <= |given|
  {
    && |r.socks| == |given| && |r.fd2sv| == NOFILE
    && (forall j :: 0 <= j < k ==> r.socks[j] == given[j])
    && (forall fd :: fd in r.afds <==> fd in given[..k])
    && (forall j :: 0 <= j < k ==> Descriptor(given[j]) && given[j] < r.nfds && r.fd2sv[given[j]] == j)
  }

  lemma OneMoreBuilt(v: Server, given: seq<int>, k: nat)
    requires k < |given| && FreshSockets(|given|, given) && Built(v, given, k)
    ensures Built(OpenOne(v, k, given[k]), given, k + 1)
  {
    assert given[..k + 1] == given[..k] + [given[k]];
  }

  lemma {:induction false} OpenBuilds(v: Server, given: seq<int>, k: nat)
    requires k <= |v.socks| == |given| && |v.fd2sv| == NOFILE && FreshSockets(|given|, given) && v.afds == {}
    ensures Built(Open(v, given, k), given, k)
  {
    if k == 0 {
      assert given[..0] == [];
    } else {
      OpenBuilds(v, given, k - 1);
      OneMoreBuilt(Open(v, given, k - 1), given, k - 1);
      assert Open(v, given, k) == OpenOne(Open(v, given, k - 1), k - 1, given[k - 1]);
    }
  }

  lemma {:induction false} OpenRaises(v: Server, given: seq<int>, k: nat)
    requires k <= |v.socks| == |given|
    ensures Open(v, given, k).nfds >= v.nfds
  {
    if k > 0 {
      OpenRaises(v, given, k - 1);
    }
  }

  lemma ResetBuilds(v: Server, given: seq<int>)
    requires |v.fd2sv| == NOFILE && FreshSockets(|v.socks|, given)
    requires forall fd :: fd in v.afds ==> fd in v.socks && fd != NOSOCK
    requires forall j :: 0 <= j < |v.socks| ==> v.socks[j] == NOSOCK || Descriptor(v.socks[j])
    ensures ServerOk(Reset(v, given)) && Reset(v, given).socks == given && Reset(v, given).nfds >= v.nfds
  {
    var cleared := Clear(v, |v.socks|);
    ClearForgets(v, |v.socks|);
    assert v.socks[..|v.socks|] == v.socks;
    assert forall fd :: fd !in cleared.afds;
    assert cleared.afds == {};
    OpenBuilds(cleared, given, |given|);
    OpenRaises(cleared, given, |given|);
    assert given[..|given|] == given;
    assert Reset(v, given).socks == given;
  }

  lemma IndexIsSearch(v: Server, fd: int)
    requires ServerOk(v) && fd in v.afds
    ensures Dispatch(Indexed, v, fd) == Dispatch(Searching, v, fd)
    ensures 0 <= Dispatch(Indexed, v, fd) < |v.socks|
  {
    var k := IndexOf(v.socks, fd);
    assert k >= 0;
  }

  ghost predicate Inv(s: State, n: nat) {
    ServerOk(s.v) && |s.v.socks| == n && (s.pc.Scanning? ==> s.pc.fd >= 0 && s.pc.ready <= s.v.afds)
  }

  lemma StepAgrees(s: State, e: Event, n: nat)
    requires Inv(s, n)
    ensures Step(Indexed, s, e) == Step(Searching, s, e)
    ensures Step(Indexed, s, e).Some? ==> Inv(Step(Indexed, s, e).value, n)
  {
    if e.Test? && s.pc == Top && s.readCfg && FreshSockets(|s.v.socks|, e.given) {
      ResetBuilds(s.v, e.given);
    } else if e.Look? && s.pc.Scanning? && s.pc.fd in s.pc.ready {
      IndexIsSearch(s.v, s.pc.fd);
    }
  }

  lemma {:induction false} RunAgrees(n: nat, garbage: seq<int>, given: seq<int>, es: seq<Event>)
    requires |garbage| == NOFILE && FreshSockets(n, given)
    ensures Exec(Indexed, Started(n, garbage, given), es) == Exec(Searching, Started(n, garbage, given), es)
    ensures Exec(Indexed, Started(n, garbage, given), es).Some? ==>
              Inv(Exec(Indexed, Started(n, garbage, given), es).value, n)
  {
    var s0 := Started(n, garbage, given);
    if es == [] {
      ResetBuilds(Server(seq(n, i => NOSOCK), garbage, {}, 0), given);
    } else {
      RunAgrees(n, garbage, given, es[..|es| - 1]);
      var r := Exec(Indexed, s0, es[..|es| - 1]);
      if r.Some? {
        StepAgrees(r.value, es[|es| - 1], n);
      }
    }
  }

  // ----- Main results ---------------------------------------------------------------------------

  /** Whatever the index holds before start-up and whatever descriptors each reconfiguration gets: the
      server with the index and the one with the search go through the same states and dispatch the
      same services, on every sequence of events. */
  lemma IndexRefinesSearch(n: nat, garbage: seq<int>, given: seq<int>, es: seq<Event>)
    requires |garbage| == NOFILE && FreshSockets(n, given)
    ensures Exec(Indexed, Started(n, garbage, given), es) == Exec(Searching, Started(n, garbage, given), es)
  {
    RunAgrees(n, garbage, given, es);
  }

  /** After start-up and any number of reconfigurations the set is exactly the sockets of the table, all
      below the bound, and for each of them the index holds what the search finds. */
  lemma IndexIsRight(n: nat, garbage: seq<int>, given: seq<int>, es: seq<Event>, s: State, fd: int)
    requires |garbage| == NOFILE && FreshSockets(n, given)
    requires Exec(Indexed, Started(n, garbage, given), es) == Some(s)
    ensures fd in s.v.afds <==> fd in s.v.socks
    ensures fd in s.v.afds ==> 0 <= fd < |s.v.fd2sv| && fd < s.v.nfds
    ensures fd in s.v.afds ==> s.v.fd2sv[fd] == IndexOf(s.v.socks, fd) && s.v.fd2sv[fd] >= 0
  {
    RunAgrees(n, garbage, given, es);
    if fd in s.v.afds {
      IndexIsSearch(s.v, fd);
    }
  }

  /** The searching server never takes its exit "service map entry not found": only a failing call ends
      a run. */
  lemma SearchNeverFails(n: nat, garbage: seq<int>, given: seq<int>, es: seq<Event>, s: State, t: State)
    requires |garbage| == NOFILE && FreshSockets(n, given)
    requires Exec(Searching, Started(n, garbage, given), es) == Some(s)
    requires s.pc != Exited && Step(Searching, s, Look) == Some(t)
    ensures t.pc != Exited
  {
    RunAgrees(n, garbage, given, es);
    if s.pc.fd in s.pc.ready {
      IndexIsSearch(s.v, s.pc.fd);
    }
  }

  /** In either mode a look at a ready descriptor runs the service whose socket it is, and nothing else
      runs a service. */
  lemma RunsTheOwner(mode: Mode, n: nat, garbage: seq<int>, given: seq<int>, es: seq<Event>, s: State, e: Event, t: State)
    requires |garbage| == NOFILE && FreshSockets(n, given)
    requires Exec(mode, Started(n, garbage, given), es) == Some(s) && Step(mode, s, e) == Some(t)
    ensures if e.Look? && s.pc.fd < s.v.nfds && s.pc.fd in s.pc.ready
            then exists k :: 0 <= k < n && |s.v.socks| == n && s.v.socks[k] == s.pc.fd && t.served == s.served + [k]
            else t.served == s.served
  {
    RunAgrees(n, garbage, given, es);
    if e.Look? && s.pc.fd in s.pc.ready {
      IndexIsSearch(s.v, s.pc.fd);
      assert s.v.socks[Dispatch(mode, s.v, s.pc.fd)] == s.pc.fd;
    }
  }

  /** The services of the ready descriptors below fd, by ascending descriptor. */
  ghost function Owners(v: Server, ready: set<int>, fd: int): (r: seq<int>)
    decreases if fd > 0 then fd else 0
  {
    if fd <= 0 then [] else Owners(v, ready, fd - 1) + if fd - 1 in ready then [IndexOf(v.socks, fd - 1)] else []
  }

  /** How far the scan that began in state u has come in state t. */
  ghost predicate ScanSoFar(u: State, ready: set<int>, t: State) {
    && t.v == u.v
    && match t.pc
       case Scanning(fd, r) => r == ready && 0 <= fd && (fd <= u.v.nfds || fd == 0) && t.served == u.served + Owners(u.v, ready, fd)
       case Top => t.served == u.served + Owners(u.v, ready, u.v.nfds)
       case Exited => true
       case _ => false
  }

  lemma ScanStep(mode: Mode, u: State, ready: set<int>, s: State, e: Event, n: nat)
    requires Inv(s, n) && ScanSoFar(u, ready, s) && !e.Test? && Step(mode, s, e).Some?
    ensures ScanSoFar(u, ready, Step(mode, s, e).value)
  {
    if e.Look? && s.pc.Scanning? {
      var fd := s.pc.fd;
      if fd < s.v.nfds && fd in ready {
        IndexIsSearch(s.v, fd);
      }
    }
  }

  /** After select has reported `ready`, a scan that comes to its end has run the service of each ready
      descriptor exactly once, in ascending order of the descriptors, in either mode. */
  lemma {:induction false} ScanRunsEachOnce(mode: Mode, n: nat, garbage: seq<int>, given: seq<int>, es: seq<Event>,
                                            u: State, ready: set<int>, fs: seq<Event>, t: State)
    requires |garbage| == NOFILE && FreshSockets(n, given)
    requires Exec(mode, Started(n, garbage, given), es) == Some(u) && u.pc == Scanning(0, ready)
    requires (forall e :: e in fs ==> !e.Test?) && Exec(mode, u, fs) == Some(t)
    ensures ScanSoFar(u, ready, t)
    ensures t.pc == Top ==> t.served == u.served + Owners(u.v, ready, u.v.nfds)
  {
    if fs == [] {
      assert Owners(u.v, ready, 0) == [];
    } else {
      var gs, e := fs[..|fs| - 1], fs[|fs| - 1];
      var s := Exec(mode, u, gs).value;
      ScanRunsEachOnce(mode, n, garbage, given, es, u, ready, gs, s);
      RunGoesOn(mode, n, garbage, given, es, u, gs, s);
      ScanStep(mode, u, ready, s, e, n);
    }
  }

  lemma RunGoesOn(mode: Mode, n: nat, garbage: seq<int>, given: seq<int>, es: seq<Event>, u: State, fs: seq<Event>, t: State)
    requires |garbage| == NOFILE && FreshSockets(n, given)
    requires Exec(mode, Started(n, garbage, given), es) == Some(u) && Exec(mode, u, fs) == Some(t)
    ensures Inv(t, n)
  {
    var s0 := Started(n, garbage, given);
    match mode {
      case Indexed => Joined(IndexedStep, s0, es, u, fs);
      case Searching => Joined(SearchingStep, s0, es, u, fs);
    }
    RunAgrees(n, garbage, given, es + fs);
  }

  /** A reconfiguration happens exactly at a test that finds the flag set, and then every service listens
      on its new socket; the flag is set by the signal and by nothing else, and cleared only after
      a reconfiguration. */
  lemma ReconfiguresWhenAsked(mode: Mode, s: State, e: Event, t: State)
    requires Step(mode, s, e) == Some(t)
    ensures e.Test? && s.readCfg ==> t.v == Reset(s.v, e.given) && t.pc == Resetting
    ensures !(e.Test? && s.readCfg) ==> t.v == s.v
    ensures t.readCfg <==> e.Signal? || (s.readCfg && !(e.ClearFlag? && s.pc == Resetting))
  {
  }
}
