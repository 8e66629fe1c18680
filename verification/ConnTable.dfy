/** The daytime server that holds a table slot for 240 seconds after each connection it served
    (exc_10_7.c): a limit on the distinct peers served in any 240-second window. */
module ConnTable {
  import opened Basics
  import opened Runs

  const TABLE_LEN := 100
  const HOLD := 240

  /** struct SlotItem */
  datatype Slot = Slot(isActive: bool, port: int, closeTm: int)

  const Empty := Slot(false, 0, 0)

  // ----- The table as a value -----------------------------------------------------------------

  /** A slot after the sweep has looked at it at time now. */
  function Kept(slot: Slot, now: int): Slot {
    if slot.isActive && now - slot.closeTm > HOLD then Empty else slot
  }

  /** Clears the slots whose hold is over; slot i is looked at when the clock shows times[i]. */
  function Swept(tbl: seq<Slot>, times: seq<int>): (r: seq<Slot>)
    requires |times| == |tbl|
    ensures |r| == |tbl|
    ensures forall i :: 0 <= i < |tbl| ==> r[i] == Kept(tbl[i], times[i])
  {
    if tbl == [] then [] else [Kept(tbl[0], times[0])] + Swept(tbl[1..], times[1..])
  }

  /** The first slot that is not active, or -1. */
  function FirstFree(tbl: seq<Slot>): (i: int)
    ensures -1 <= i < |tbl|
    ensures i >= 0 ==> !tbl[i].isActive
    ensures forall j :: 0 <= j < (if i >= 0 then i else |tbl|) ==> tbl[j].isActive
  {
    if tbl == [] then -1
    else if !tbl[0].isActive then 0
    else
      var r := FirstFree(tbl[1..]);
      if r < 0 then -1 else r + 1
  }

  predicate Holds(slot: Slot, port: int) {
    slot.isActive && slot.port == port
  }

  /** The first active slot with this port, or -1. */
  function FirstHolding(tbl: seq<Slot>, port: int): (i: int)
    ensures -1 <= i < |tbl|
    ensures i >= 0 ==> Holds(tbl[i], port)
    ensures forall j :: 0 <= j < (if i >= 0 then i else |tbl|) ==> !Holds(tbl[j], port)
  {
    if tbl == [] then -1
    else if Holds(tbl[0], port) then 0
    else
      var r := FirstHolding(tbl[1..], port);
      if r < 0 then -1 else r + 1
  }

  /** preprocessingRequest's second loop. */
  function Taken(tbl: seq<Slot>, port: int): seq<Slot> {
    var i := FirstFree(tbl);
    if i < 0 then tbl else tbl[i := tbl[i].(port := port, isActive := true)]
  }

  /** postprocessingReply at time now. */
  function Stamped(tbl: seq<Slot>, port: int, now: int): seq<Slot> {
    var i := FirstHolding(tbl, port);
    if i < 0 then tbl else tbl[i := tbl[i].(closeTm := now)]
  }

  // ----- The table in place -------------------------------------------------------------------

  class Server {
    const connTable: array<Slot>

    constructor ()
      ensures connTable.Length == TABLE_LEN && fresh(connTable)
      ensures connTable[..] == seq(TABLE_LEN, i => Empty)
    {
      connTable := new Slot[TABLE_LEN](i => Empty);
    }

    method Sweep(times: seq<int>)
      requires |times| == connTable.Length
      modifies connTable
      ensures connTable[..] == Swept(old(connTable[..]), times)
    {
      for i := 0 to connTable.Length
        invariant forall j :: 0 <= j < i ==> connTable[j] == Kept(old(connTable[j]), times[j])
        invariant forall j :: i <= j < connTable.Length ==> connTable[j] == old(connTable[j])
      {
        if connTable[i].isActive {
          var now := times[i];
          if now - connTable[i].closeTm > HOLD {
            connTable[i] := Empty;
          }
        }
      }
    }

    method TakeSlot(port: int) returns (r: int)
      modifies connTable
      ensures connTable[..] == Taken(old(connTable[..]), port)
      ensures r == if FirstFree(old(connTable[..])) >= 0 then 0 else -1
    {
      for i := 0 to connTable.Length
        invariant connTable[..] == old(connTable[..])
        invariant forall j :: 0 <= j < i ==> connTable[j].isActive
      {
        if !connTable[i].isActive {
          assert FirstFree(connTable[..]) == i;
          connTable[i] := connTable[i].(port := port, isActive := true);
          return 0;
        }
      }
      return -1;
    }

    /** 0 when the request got a slot and -1 when the table is full. */
    method PreprocessingRequest(port: int, times: seq<int>) returns (r: int)
      requires |times| == connTable.Length
      modifies connTable
      ensures connTable[..] == Taken(Swept(old(connTable[..]), times), port)
      ensures r == if FirstFree(Swept(old(connTable[..]), times)) >= 0 then 0 else -1
    {
      Sweep(times);
      r := TakeSlot(port);
    }

    /** `closed` tells whether the connection was closed. */
    method PostprocessingReply(port: int, now: int) returns (closed: bool)
      modifies connTable
      ensures connTable[..] == Stamped(old(connTable[..]), port, now)
      ensures closed <==> FirstHolding(old(connTable[..]), port) >= 0
    {
      for i := 0 to connTable.Length
        invariant connTable[..] == old(connTable[..])
        invariant forall j :: 0 <= j < i ==> !Holds(connTable[j], port)
      {
        if connTable[i].isActive && connTable[i].port == port {
          assert FirstHolding(connTable[..], port) == i;
          connTable[i] := connTable[i].(closeTm := now);
          return true;
        }
      }
      return false;
    }
  }

  // ----- The running server -------------------------------------------------------------------

  /** A connection that was served and closed: its peer port at the close, the time, and the slot stamped. */
  datatype Close = Close(port: int, time: int, slot: int)

  /** A request: the peer's port when it is accepted and the one that is found after it has been served
      (another one if the peer has reset the connection), the clock readings of the sweep, and the clock
      at the close. */
  datatype Request = Request(port: int, closePort: int, times: seq<int>, closeTm: int)

  /** `closes` lists the served connections in order; `accepted`, `refused` and `unclosed` count
      accepted connections, refused (and closed) ones, and served ones left open. */
  datatype State = State(tbl: seq<Slot>, clock: int, closes: seq<Close>, accepted: nat, refused: nat, unclosed: nat)

  /** The clock never goes back. */
  predicate Timely(clock: int, q: Request) {
    && |q.times| == TABLE_LEN
    && clock <= q.times[0]
    && (forall i, j :: 0 <= i < j < TABLE_LEN ==> q.times[i] <= q.times[j])
    && q.times[TABLE_LEN - 1] <= q.closeTm
  }

  function Start(clock: int): State {
    State(seq(TABLE_LEN, i => Empty), clock, [], 0, 0, 0)
  }

  /** The state after the sweep of a request. */
  function AfterSweep(s: State, q: Request): State
    requires |s.tbl| == |q.times| == TABLE_LEN
  {
    s.(tbl := Swept(s.tbl, q.times), clock := q.times[TABLE_LEN - 1])
  }

  /** The state after a request that gets a slot has been served, and closed if its slot is found. */
  function AfterClose(s: State, port: int, closePort: int, now: int): State
    requires |s.tbl| == TABLE_LEN
  {
    var taken := Taken(s.tbl, port);
    var k := FirstHolding(taken, closePort);
    s.(tbl := Stamped(taken, closePort, now), clock := now, accepted := s.accepted + 1,
       closes := if k >= 0 then s.closes + [Close(closePort, now, k)] else s.closes,
       unclosed := if k >= 0 then s.unclosed else s.unclosed + 1)
  }

  /** One iteration of the server's loop. */
  function Serve(s: State, q: Request): State
    requires |s.tbl| == |q.times| == TABLE_LEN
  {
    var swept := AfterSweep(s, q);
    if FirstFree(swept.tbl) < 0 then swept.(accepted := s.accepted + 1, refused := s.refused + 1)
    else AfterClose(swept, q.port, q.closePort, q.closeTm)
  }

  function Step(s: State, q: Request): Option<State> {
    if |s.tbl| == TABLE_LEN && Timely(s.clock, q) then Some(Serve(s, q)) else None
  }

  function Exec(s: State, qs: seq<Request>): Option<State> {
    After(Step, s, qs)
  }

  // ----- Invariant ----------------------------------------------------------------------------

  /** A stamped slot carries the last close that stamped it. */
  ghost predicate StampOk(s: State, k: int)
    requires 0 <= k < |s.tbl|
  {
    s.tbl[k].isActive && s.tbl[k].closeTm != 0 ==>
      exists e :: 0 <= e < |s.closes| && s.closes[e].slot == k && s.closes[e].time == s.tbl[k].closeTm
                  && s.closes[e].port == s.tbl[k].port
  }

  /** A port closed at time t is still in the table, unless the hold since t is over. */
  ghost predicate Remembered(s: State, port: int, t: int) {
    s.clock - t <= HOLD ==>
      exists k :: 0 <= k < |s.tbl| && Holds(s.tbl[k], port) && s.tbl[k].closeTm >= t
  }

  ghost predicate Inv(s: State) {
    && |s.tbl| == TABLE_LEN && s.clock > HOLD
    && (forall k {:trigger StampOk(s, k)} :: 0 <= k < |s.tbl| ==> StampOk(s, k))
    && (forall k :: 0 <= k < |s.tbl| ==> 0 <= s.tbl[k].closeTm <= s.clock)
    && (forall k :: 0 <= k < |s.tbl| && !s.tbl[k].isActive ==> s.tbl[k] == Empty)
    && (forall e :: 0 <= e < |s.closes| ==> s.closes[e].time <= s.clock)
    && (forall e {:trigger Remembered(s, s.closes[e].port, s.closes[e].time)} ::
          0 <= e < |s.closes| ==> Remembered(s, s.closes[e].port, s.closes[e].time))
    && s.accepted == |s.closes| + s.refused + s.unclosed
  }

  lemma SweepRemembers(s: State, q: Request, port: int, t: int)
    requires Inv(s) && Timely(s.clock, q) && Remembered(s, port, t)
    ensures Remembered(AfterSweep(s, q), port, t)
  {
    if q.times[TABLE_LEN - 1] - t <= HOLD {
      var k :| 0 <= k < |s.tbl| && Holds(s.tbl[k], port) && s.tbl[k].closeTm >= t;
      assert k < TABLE_LEN - 1 ==> q.times[k] <= q.times[TABLE_LEN - 1];
      assert Swept(s.tbl, q.times)[k] == s.tbl[k];
    }
  }

  lemma SweepKeeps(s: State, q: Request)
    requires Inv(s) && Timely(s.clock, q)
    ensures Inv(AfterSweep(s, q))
  {
    var t := AfterSweep(s, q);
    forall k | 0 <= k < |t.tbl| ensures StampOk(t, k) && 0 <= t.tbl[k].closeTm <= t.clock {
      assert StampOk(s, k);
      assert t.tbl[k] == s.tbl[k] || t.tbl[k] == Empty;
    }
    forall e | 0 <= e < |t.closes| ensures Remembered(t, t.closes[e].port, t.closes[e].time) {
      SweepRemembers(s, q, s.closes[e].port, s.closes[e].time);
    }
  }

  /** Slot i has been taken and slot k, which now holds closePort, stamped. */
  ghost predicate Closing(s: State, t: State, i: int, k: int, closePort: int) {
    && 0 <= i < |s.tbl| == |t.tbl| && 0 <= k < |s.tbl|
    && s.tbl[i] == Empty && t.tbl[i].isActive
    && (forall j :: 0 <= j < |s.tbl| && j != i && j != k ==> t.tbl[j] == s.tbl[j])
    && (i != k ==> t.tbl[i].closeTm == 0)
    && (k != i ==> s.tbl[k].isActive && s.tbl[k].port == closePort)
    && Holds(t.tbl[k], closePort) && t.tbl[k].closeTm == t.clock >= s.clock
    && t.closes == s.closes + [Close(closePort, t.clock, k)]
    && t.accepted == s.accepted + 1 && t.refused == s.refused && t.unclosed == s.unclosed
  }

  lemma ClosingKeeps(s: State, t: State, i: int, k: int, closePort: int)
    requires Inv(s) && Closing(s, t, i, k, closePort)
    ensures Inv(t)
  {
    forall j | 0 <= j < |t.tbl| ensures StampOk(t, j) && 0 <= t.tbl[j].closeTm <= t.clock {
      TakeStamps(s, t, i, k, j);
    }
    forall e | 0 <= e < |t.closes| ensures t.closes[e].time <= t.clock && Remembered(t, t.closes[e].port, t.closes[e].time) {
      if e == |s.closes| {
        assert Holds(t.tbl[k], closePort) && t.tbl[k].closeTm >= t.clock;
      } else {
        TakeRemembers(s, t, i, k, closePort, s.closes[e].port, s.closes[e].time);
      }
    }
  }

  /** The request takes a free slot and the close stamps the first slot with its port. */
  lemma TakeKeeps(s: State, port: int, closePort: int, now: int)
    requires Inv(s) && FirstFree(s.tbl) >= 0 && now >= s.clock
    requires FirstHolding(Taken(s.tbl, port), closePort) >= 0
    ensures Inv(AfterClose(s, port, closePort, now))
  {
    var t := AfterClose(s, port, closePort, now);
    ClosingKeeps(s, t, FirstFree(s.tbl), FirstHolding(Taken(s.tbl, port), closePort), closePort);
  }

  /** The request takes a free slot and is left open. */
  lemma LeaveKeeps(s: State, port: int, closePort: int, now: int)
    requires Inv(s) && FirstFree(s.tbl) >= 0 && now >= s.clock
    requires FirstHolding(Taken(s.tbl, port), closePort) < 0
    ensures Inv(AfterClose(s, port, closePort, now))
  {
    var i := FirstFree(s.tbl);
    var t := AfterClose(s, port, closePort, now);
    forall j | 0 <= j < |t.tbl| ensures StampOk(t, j) && 0 <= t.tbl[j].closeTm <= t.clock {
      assert StampOk(s, j);
      assert j != i ==> t.tbl[j] == s.tbl[j];
    }
    forall e | 0 <= e < |t.closes| ensures t.closes[e].time <= t.clock && Remembered(t, t.closes[e].port, t.closes[e].time) {
      LeaveRemembers(s, t, i, s.closes[e].port, s.closes[e].time);
    }
  }

  lemma LeaveRemembers(s: State, t: State, i: int, port: int, time: int)
    requires |t.tbl| == |s.tbl| && 0 <= i < |s.tbl| && t.clock >= s.clock
    requires !s.tbl[i].isActive && Remembered(s, port, time)
    requires forall j :: 0 <= j < |s.tbl| && j != i ==> t.tbl[j] == s.tbl[j]
    ensures Remembered(t, port, time)
  {
    if t.clock - time <= HOLD {
      var j :| 0 <= j < |s.tbl| && Holds(s.tbl[j], port) && s.tbl[j].closeTm >= time;
      assert Holds(t.tbl[j], port) && t.tbl[j].closeTm >= time;
    }
  }

  lemma TakeStamps(s: State, t: State, i: int, k: int, j: int)
    requires |t.tbl| == |s.tbl| && 0 <= i < |s.tbl| && 0 <= k < |s.tbl| && 0 <= j < |s.tbl|
    requires StampOk(s, j) && s.tbl[i] == Empty
    requires t.closes == s.closes + [Close(t.tbl[k].port, t.tbl[k].closeTm, k)]
    requires j != i && j != k ==> t.tbl[j] == s.tbl[j]
    requires i != k ==> t.tbl[i].closeTm == 0
    ensures StampOk(t, j)
  {
    if j == k {
      assert t.closes[|s.closes|] == Close(t.tbl[k].port, t.tbl[k].closeTm, k);
    } else if j != i && t.tbl[j].isActive && t.tbl[j].closeTm != 0 {
      var e :| 0 <= e < |s.closes| && s.closes[e].slot == j && s.closes[e].time == s.tbl[j].closeTm
               && s.closes[e].port == s.tbl[j].port;
      assert t.closes[e] == s.closes[e];
    }
  }

  lemma TakeRemembers(s: State, t: State, i: int, k: int, taken: int, port: int, time: int)
    requires |t.tbl| == |s.tbl| && 0 <= i < |s.tbl| && 0 <= k < |s.tbl| && t.clock >= s.clock
    requires !s.tbl[i].isActive && Remembered(s, port, time) && time <= t.clock
    requires forall j :: 0 <= j < |s.tbl| && j != i && j != k ==> t.tbl[j] == s.tbl[j]
    requires Holds(t.tbl[k], taken) && t.tbl[k].closeTm == t.clock && (k != i ==> s.tbl[k].port == taken)
    ensures Remembered(t, port, time)
  {
    if t.clock - time <= HOLD {
      var j :| 0 <= j < |s.tbl| && Holds(s.tbl[j], port) && s.tbl[j].closeTm >= time;
      assert Holds(t.tbl[j], port) && t.tbl[j].closeTm >= time;
    }
  }

  lemma RefuseKeeps(s: State)
    requires Inv(s)
    ensures Inv(s.(accepted := s.accepted + 1, refused := s.refused + 1))
  {
    var t := s.(accepted := s.accepted + 1, refused := s.refused + 1);
    forall k | 0 <= k < |t.tbl| ensures StampOk(t, k) {
      assert StampOk(s, k);
    }
    forall e | 0 <= e < |t.closes| ensures Remembered(t, t.closes[e].port, t.closes[e].time) {
      assert Remembered(s, s.closes[e].port, s.closes[e].time);
    }
  }

  lemma ServeKeeps(s: State, q: Request)
    requires Inv(s) && Timely(s.clock, q)
    ensures Inv(Serve(s, q))
  {
    var swept := AfterSweep(s, q);
    SweepKeeps(s, q);
    if FirstFree(swept.tbl) < 0 {
      assert Serve(s, q) == swept.(accepted := swept.accepted + 1, refused := swept.refused + 1);
      RefuseKeeps(swept);
    } else {
      assert Serve(s, q) == AfterClose(swept, q.port, q.closePort, q.closeTm);
      if FirstHolding(Taken(swept.tbl, q.port), q.closePort) >= 0 {
        TakeKeeps(swept, q.port, q.closePort, q.closeTm);
      } else {
        LeaveKeeps(swept, q.port, q.closePort, q.closeTm);
      }
    }
  }

  lemma {:induction false} RunKeeps(clock: int, qs: seq<Request>)
    requires clock > HOLD && Exec(Start(clock), qs).Some?
    ensures Inv(Exec(Start(clock), qs).value)
  {
    if qs != [] {
      RunKeeps(clock, qs[..|qs| - 1]);
      ServeKeeps(Exec(Start(clock), qs[..|qs| - 1]).value, qs[|qs| - 1]);
    }
  }

  /** The state after some requests, on a clock that starts beyond 240. */
  ghost predicate Reachable(s: State) {
    exists clock: int, qs: seq<Request> :: clock > HOLD && Exec(Start(clock), qs) == Some(s)
  }

  lemma ReachableInv(s: State)
    requires Reachable(s)
    ensures Inv(s)
  {
    var clock: int, qs: seq<Request> :| clock > HOLD && Exec(Start(clock), qs) == Some(s);
    RunKeeps(clock, qs);
  }

  // ----- Main results -------------------------------------------------------------------------

  /** The ports closed since time `from`. */
  ghost function PortsSince(closes: seq<Close>, from: int): (r: set<int>)
    ensures forall e :: 0 <= e < |closes| && closes[e].time >= from ==> closes[e].port in r
    ensures forall p :: p in r ==> exists e :: 0 <= e < |closes| && closes[e].time >= from && closes[e].port == p
  {
    set e | 0 <= e < |closes| && closes[e].time >= from :: closes[e].port
  }

  /** A set of numbers each of which is the port of one of the first n slots has at most n elements. */
  lemma {:induction false} AtMostSlots(ports: set<int>, tbl: seq<Slot>, n: nat)
    requires n <= |tbl| && forall p :: p in ports ==> exists k :: 0 <= k < n && tbl[k].port == p
    ensures |ports| <= n
  {
    if n == 0 {
      assert forall p :: p !in ports;
      assert ports == {};
    } else {
      var rest := ports - {tbl[n - 1].port};
      forall p | p in rest ensures exists k :: 0 <= k < n - 1 && tbl[k].port == p {
        var k :| 0 <= k < n && tbl[k].port == p;
        assert k != n - 1;
      }
      AtMostSlots(rest, tbl, n - 1);
    }
  }

  /** For every sequence of requests on a clock that starts beyond 240 and never goes back: the distinct
      peer ports served and closed within any past 240 seconds, counted up to now or any later time
      before the next request, number at most TABLE_LEN, even when ports recur. */
  lemma SlidingWindow(s: State, now: int)
    requires Reachable(s) && now >= s.clock
    ensures |PortsSince(s.closes, now - HOLD)| <= TABLE_LEN
  {
    ReachableInv(s);
    var ports := PortsSince(s.closes, now - HOLD);
    forall p | p in ports ensures exists k :: 0 <= k < |s.tbl| && s.tbl[k].port == p {
      var e :| 0 <= e < |s.closes| && s.closes[e].time >= now - HOLD && s.closes[e].port == p;
      assert Remembered(s, p, s.closes[e].time);
      var k :| 0 <= k < |s.tbl| && Holds(s.tbl[k], p) && s.tbl[k].closeTm >= s.closes[e].time;
    }
    AtMostSlots(ports, s.tbl, TABLE_LEN);
  }

  /** The closes since time `from` that stamped one of the first n slots. */
  ghost function ClosesSince(closes: seq<Close>, from: int, n: int): (r: set<int>) {
    set e | 0 <= e < |closes| && closes[e].time >= from && 0 <= closes[e].slot < n
  }

  ghost predicate StampedSince(closes: seq<Close>, from: int, k: int) {
    exists e :: 0 <= e < |closes| && closes[e].slot == k && closes[e].time >= from
  }

  lemma {:induction false} OneCloseEach(s: State, from: int, n: nat)
    requires n <= |s.tbl|
    requires forall k :: 0 <= k < n ==> StampedSince(s.closes, from, k)
    ensures |ClosesSince(s.closes, from, n)| >= n
  {
    if n > 0 {
      OneCloseEach(s, from, n - 1);
      assert StampedSince(s.closes, from, n - 1);
      var e :| 0 <= e < |s.closes| && s.closes[e].slot == n - 1 && s.closes[e].time >= from;
      var fewer := ClosesSince(s.closes, from, n - 1);
      assert e !in fewer;
      SubsetSize(fewer + {e}, ClosesSince(s.closes, from, n));
    }
  }

  /** A request is refused only when at least TABLE_LEN connections were closed in the 240 seconds
      before its sweep began. */
  lemma RefusedOnlyWhenBusy(s: State, q: Request, from: int)
    requires Reachable(s) && Timely(s.clock, q) && from == q.times[0] - HOLD
    requires |s.tbl| == TABLE_LEN && Refuses(s, q)
    ensures |ClosesSince(s.closes, from, TABLE_LEN)| >= TABLE_LEN
  {
    ReachableInv(s);
    AllWereStamped(s, q, from);
    OneCloseEach(s, from, TABLE_LEN);
  }

  ghost predicate Refuses(s: State, q: Request)
    requires |s.tbl| == |q.times| == TABLE_LEN
  {
    Serve(s, q).refused == s.refused + 1
  }

  /** A request is refused exactly when every slot is active and was stamped within the 240 seconds before
      the sweep looked at it; otherwise it is served. */
  lemma RefusedExactly(s: State, q: Request)
    requires |s.tbl| == |q.times| == TABLE_LEN
    ensures Refuses(s, q) <==> forall k :: 0 <= k < TABLE_LEN ==> s.tbl[k].isActive && q.times[k] - s.tbl[k].closeTm <= HOLD
    ensures !Refuses(s, q) ==> |Serve(s, q).closes| + Serve(s, q).unclosed == |s.closes| + s.unclosed + 1
    ensures Refuses(s, q) ==> Serve(s, q).closes == s.closes && Serve(s, q).unclosed == s.unclosed
  {
    var swept := Swept(s.tbl, q.times);
    if !Refuses(s, q) {
      var k := FirstFree(swept);
      assert !swept[k].isActive;
      assert swept[k] == Kept(s.tbl[k], q.times[k]);
    } else {
      assert forall k :: 0 <= k < TABLE_LEN ==> swept[k].isActive;
    }
  }

  lemma AllWereStamped(s: State, q: Request, from: int)
    requires Inv(s) && Timely(s.clock, q) && FirstFree(Swept(s.tbl, q.times)) < 0
    requires from == q.times[0] - HOLD
    ensures forall k :: 0 <= k < TABLE_LEN ==> StampedSince(s.closes, from, k)
  {
    forall k | 0 <= k < TABLE_LEN ensures StampedSince(s.closes, from, k) {
      KeptWasStamped(s, q, k);
    }
  }

  lemma KeptWasStamped(s: State, q: Request, k: int)
    requires Inv(s) && Timely(s.clock, q) && 0 <= k < TABLE_LEN && FirstFree(Swept(s.tbl, q.times)) < 0
    ensures StampedSince(s.closes, q.times[0] - HOLD, k)
  {
    var swept := Swept(s.tbl, q.times);
    assert swept[k].isActive;
    assert s.tbl[k].isActive && q.times[k] - s.tbl[k].closeTm <= HOLD;
    assert k > 0 ==> q.times[0] <= q.times[k];
    assert StampOk(s, k);
  }

  /** The request is served and then left open: no active slot holds the port that is found after it was
      served. */
  ghost predicate StaysOpen(s: State, q: Request)
    requires |s.tbl| == |q.times| == TABLE_LEN
  {
    var swept := Swept(s.tbl, q.times);
    FirstFree(swept) >= 0 && forall slot :: slot in Taken(swept, q.port) ==> !Holds(slot, q.closePort)
  }

  /** Request i of the run is served and left open. */
  ghost predicate LeftOpen(clock: int, qs: seq<Request>, i: nat)
    requires i < |qs|
  {
    var r := Exec(Start(clock), qs[..i]);
    r.Some? && |r.value.tbl| == |qs[i].times| == TABLE_LEN && StaysOpen(r.value, qs[i])
  }

  ghost function AllLeftOpen(clock: int, qs: seq<Request>): (r: set<nat>) {
    set i: nat | i < |qs| && LeftOpen(clock, qs, i)
  }

  /** An accepted connection is closed once, by the refusal or after it was served, or left open; and the
      connections left open are exactly those whose second port no active slot holds.  When the port
      is the same both times every accepted connection is closed exactly once. */
  lemma ClosedExactlyOnce(clock: int, qs: seq<Request>, s: State)
    requires clock > HOLD && Exec(Start(clock), qs) == Some(s)
    ensures s.accepted == |qs| == |s.closes| + s.refused + s.unclosed
    ensures s.unclosed == |AllLeftOpen(clock, qs)|
    ensures (forall i :: 0 <= i < |qs| ==> qs[i].closePort == qs[i].port) ==> s.unclosed == 0
  {
    RunKeeps(clock, qs);
    CountsRequests(clock, qs);
    if forall i :: 0 <= i < |qs| ==> qs[i].closePort == qs[i].port {
      forall i: nat | i < |qs| ensures !LeftOpen(clock, qs, i) {
        SamePortIsClosed(clock, qs, i);
      }
      assert AllLeftOpen(clock, qs) == {};
    }
  }

  lemma SamePortIsClosed(clock: int, qs: seq<Request>, i: nat)
    requires i < |qs| && qs[i].closePort == qs[i].port
    ensures !LeftOpen(clock, qs, i)
  {
    var r, q := Exec(Start(clock), qs[..i]), qs[i];
    if r.Some? && |r.value.tbl| == |q.times| == TABLE_LEN {
      var swept := Swept(r.value.tbl, q.times);
      var k := FirstFree(swept);
      if k >= 0 {
        assert Taken(swept, q.port)[k] in Taken(swept, q.port);
      }
    }
  }

  lemma ServeCounts(s: State, q: Request)
    requires |s.tbl| == |q.times| == TABLE_LEN
    ensures Serve(s, q).accepted == s.accepted + 1
    ensures Serve(s, q).unclosed == if StaysOpen(s, q) then s.unclosed + 1 else s.unclosed
  {
    var swept := Swept(s.tbl, q.times);
    if FirstFree(swept) >= 0 {
      var taken := Taken(swept, q.port);
      var k := FirstHolding(taken, q.closePort);
      assert k >= 0 ==> taken[k] in taken;
    }
  }

  lemma LaterDoesNotMatter(clock: int, qs: seq<Request>, n: nat, i: nat)
    requires i < n <= |qs|
    ensures LeftOpen(clock, qs[..n], i) <==> LeftOpen(clock, qs, i)
  {
    assert qs[..n][..i] == qs[..i] && qs[..n][i] == qs[i];
  }

  lemma OneMoreRequest(clock: int, qs: seq<Request>)
    requires qs != []
    ensures var n := |qs| - 1;
            AllLeftOpen(clock, qs) == AllLeftOpen(clock, qs[..n]) + if LeftOpen(clock, qs, n) then {n} else {}
  {
    var n := |qs| - 1;
    forall i: nat | i < n ensures LeftOpen(clock, qs[..n], i) <==> LeftOpen(clock, qs, i) {
      LaterDoesNotMatter(clock, qs, n, i);
    }
  }

  lemma {:induction false} CountsRequests(clock: int, qs: seq<Request>)
    requires Exec(Start(clock), qs).Some?
    ensures Exec(Start(clock), qs).value.accepted == |qs|
    ensures Exec(Start(clock), qs).value.unclosed == |AllLeftOpen(clock, qs)|
  {
    if qs == [] {
      assert AllLeftOpen(clock, qs) == {};
    } else {
      var n := |qs| - 1;
      CountsRequests(clock, qs[..n]);
      ServeCounts(Exec(Start(clock), qs[..n]).value, qs[n]);
      OneMoreRequest(clock, qs);
    }
  }
}
