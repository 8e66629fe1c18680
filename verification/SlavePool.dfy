/** The single-process master with a table of preallocated slaves (exc_15_6.c): the table, the
    descriptor set and bound, and the slave's in-place transformation. */
module SlavePool {
  import opened Basics

  const MAX_CONCUR_LVL := 4
  const BUFSIZE := 4096

  /** struct SConnMap: the slave's pid, the master's two pipe ends to it, and the client it serves,
      0 for none. */
  datatype Slot = Slot(pid: int, rd: int, wr: int, ssock: int)

  /** What `ServiceHandler` keeps: the table, the descriptors to watch and a bound above them. */
  datatype Master = Master(msock: int, tbl: seq<Slot>, afds: set<int>, nfds: int)

  // ----- The table as a value -----------------------------------------------------------------

  /** findIdxClientTbl: the first slot that serves ss, or -1. */
  function FirstSock(tbl: seq<Slot>, ss: int): (i: int)
    ensures -1 <= i < |tbl|
    ensures i >= 0 ==> tbl[i].ssock == ss
    ensures forall j :: 0 <= j < (if i >= 0 then i else |tbl|) ==> tbl[j].ssock != ss
  {
    if tbl == [] then -1
    else if tbl[0].ssock == ss then 0
    else
      var r := FirstSock(tbl[1..], ss);
      if r < 0 then -1 else r + 1
  }

  /** findRdFdThrdIdxClientTbl: the first slot whose slave is read through rd, or -1. */
  function FirstRd(tbl: seq<Slot>, rd: int): (i: int)
    ensures -1 <= i < |tbl|
    ensures i >= 0 ==> tbl[i].rd == rd
    ensures forall j :: 0 <= j < (if i >= 0 then i else |tbl|) ==> tbl[j].rd != rd
  {
    if tbl == [] then -1
    else if tbl[0].rd == rd then 0
    else
      var r := FirstRd(tbl[1..], rd);
      if r < 0 then -1 else r + 1
  }

  /** The table after slot i is given to ss. */
  function SetSock(tbl: seq<Slot>, i: int, ss: int): seq<Slot>
    requires -1 <= i < |tbl|
  {
    if i >= 0 then tbl[i := tbl[i].(ssock := ss)] else tbl
  }

  /** The descriptors through which the slaves are read. */
  function ReadEnds(tbl: seq<Slot>): set<int> {
    if tbl == [] then {} else ReadEnds(tbl[..|tbl| - 1]) + {tbl[|tbl| - 1].rd}
  }

  /** The clients in the table. */
  function Clients(tbl: seq<Slot>): set<int> {
    if tbl == [] then {}
    else
      var ss := tbl[|tbl| - 1].ssock;
      Clients(tbl[..|tbl| - 1]) + (if ss != 0 then {ss} else {})
  }

  /** The bound computed at start-up. */
  function StartBound(msock: int, tbl: seq<Slot>): (n: int)
    ensures n > msock
    ensures forall i :: 0 <= i < |tbl| ==> n > tbl[i].rd
  {
    if tbl == [] then Max(msock + 1, 0)
    else Max(tbl[|tbl| - 1].rd + 1, StartBound(msock, tbl[..|tbl| - 1]))
  }

  function Started(msock: int, tbl: seq<Slot>): Master {
    Master(msock, tbl, {msock} + ReadEnds(tbl), StartBound(msock, tbl))
  }

  /** An accepted client gets the first free slot and is watched from now on; with no free slot
      nothing changes (and the caller closes it). */
  function Admit(m: Master, ss: int): Master {
    var i := FirstSock(m.tbl, 0);
    if i < 0 then m
    else m.(tbl := SetSock(m.tbl, i, ss), afds := m.afds + {ss}, nfds := Max(ss + 1, m.nfds))
  }

  /** A client that closed leaves its slot and the set; the bound stays. */
  function Drop(m: Master, fd: int): Master {
    m.(tbl := SetSock(m.tbl, FirstSock(m.tbl, fd), 0), afds := m.afds - {fd})
  }

  // ----- The table in place -------------------------------------------------------------------

  class PoolMaster {
    const msock: int
    const clientTbl: array<Slot>
    var afds: set<int>
    var nfds: int

    ghost function View(): Master
      reads this, clientTbl
    {
      Master(msock, clientTbl[..], afds, nfds)
    }

    /** The start of ServiceHandler, after the slaves have been forked. */
    constructor (msock: int, clientTbl: array<Slot>)
      ensures this.clientTbl == clientTbl
      ensures View() == Started(msock, clientTbl[..])
    {
      this.msock := msock;
      this.clientTbl := clientTbl;
      nfds := Max(msock + 1, 0);
      afds := {msock};
      new;
      for i := 0 to clientTbl.Length
        invariant afds == {msock} + ReadEnds(clientTbl[..i])
        invariant nfds == StartBound(msock, clientTbl[..i])
        invariant this.msock == msock && this.clientTbl == clientTbl
      {
        assert clientTbl[..i + 1][..i] == clientTbl[..i];
        afds := afds + {clientTbl[i].rd};
        nfds := Max(clientTbl[i].rd + 1, nfds);
      }
      assert clientTbl[..clientTbl.Length] == clientTbl[..];
    }

    /** 0 when a slot was given to the client, 1 when all are taken. */
    method UpdateClientTbl(ss: int) returns (r: int)
      modifies clientTbl
      ensures r == if FirstSock(old(clientTbl[..]), 0) >= 0 then 0 else 1
      ensures clientTbl[..] == SetSock(old(clientTbl[..]), FirstSock(old(clientTbl[..]), 0), ss)
    {
      for i := 0 to clientTbl.Length
        invariant clientTbl[..] == old(clientTbl[..])
        invariant forall j :: 0 <= j < i ==> clientTbl[j].ssock != 0
      {
        if clientTbl[i].ssock == 0 {
          assert FirstSock(clientTbl[..], 0) == i;
          clientTbl[i] := clientTbl[i].(ssock := ss);
          return 0;
        }
      }
      return 1;
    }

    method ClearClientTbl(ss: int)
      modifies clientTbl
      ensures clientTbl[..] == SetSock(old(clientTbl[..]), FirstSock(old(clientTbl[..]), ss), 0)
    {
      for i := 0 to clientTbl.Length
        invariant clientTbl[..] == old(clientTbl[..])
        invariant forall j :: 0 <= j < i ==> clientTbl[j].ssock != ss
      {
        if clientTbl[i].ssock == ss {
          assert FirstSock(clientTbl[..], ss) == i;
          clientTbl[i] := clientTbl[i].(ssock := 0);
          return;
        }
      }
    }

    method FindIdxClientTbl(ss: int) returns (r: int)
      ensures r == FirstSock(clientTbl[..], ss)
    {
      for i := 0 to clientTbl.Length
        invariant forall j :: 0 <= j < i ==> clientTbl[j].ssock != ss
      {
        if clientTbl[i].ssock == ss {
          return i;
        }
      }
      return -1;
    }

    method FindRdFdThrdIdxClientTbl(rd: int) returns (r: int)
      ensures r == FirstRd(clientTbl[..], rd)
    {
      for i := 0 to clientTbl.Length
        invariant forall j :: 0 <= j < i ==> clientTbl[j].rd != rd
      {
        if clientTbl[i].rd == rd {
          return i;
        }
      }
      return -1;
    }

    /** What the loop does with a freshly accepted client; a client not admitted is closed. */
    method AdmitClient(ssock: int) returns (admitted: bool)
      modifies this`afds, this`nfds, clientTbl
      ensures View() == Admit(old(View()), ssock)
      ensures admitted <==> FirstSock(old(clientTbl[..]), 0) >= 0
    {
      var r := UpdateClientTbl(ssock);
      if r != 0 {
        return false;
      }
      afds := afds + {ssock};
      nfds := Max(ssock + 1, nfds);
      return true;
    }

    /** What the loop does with a client whose stream has ended. */
    method DropClient(fd: int)
      modifies this`afds, clientTbl
      ensures View() == Drop(old(View()), fd)
    {
      afds := afds - {fd};
      ClearClientTbl(fd);
    }
  }

  // ----- The slave ----------------------------------------------------------------------------

  function Reverse(s: seq<byte>): (r: seq<byte>)
    ensures |r| == |s|
    ensures forall k :: 0 <= k < |s| ==> r[k] == s[|s| - 1 - k]
  {
    if s == [] then [] else Reverse(s[1..]) + [s[0]]
  }

  /** What a slave makes of one segment: everything but the last byte reversed. */
  function ReverseBody(s: seq<byte>): (r: seq<byte>)
    ensures |r| == |s|
    ensures s != [] ==> r[|s| - 1] == s[|s| - 1]
  {
    if s == [] then [] else Reverse(s[..|s| - 1]) + [s[|s| - 1]]
  }

  lemma IsReverse(t: seq<byte>, s: seq<byte>)
    requires |t| == |s| && forall k :: 0 <= k < |s| ==> t[k] == s[|s| - 1 - k]
    ensures t == Reverse(s)
  {
  }

  lemma BodyAndLast(body: seq<byte>, last: byte)
    ensures ReverseBody(body + [last]) == Reverse(body) + [last]
  {
    assert (body + [last])[..|body|] == body;
  }

  lemma ReverseTwice(s: seq<byte>)
    ensures Reverse(Reverse(s)) == s
  {
    IsReverse(s, Reverse(s));
  }

  lemma BodyTwice(body: seq<byte>, last: byte)
    ensures ReverseBody(ReverseBody(body + [last])) == body + [last]
  {
    BodyAndLast(body, last);
    BodyAndLast(Reverse(body), last);
    ReverseTwice(body);
  }

  lemma ReverseBodyInvolution(s: seq<byte>)
    ensures ReverseBody(ReverseBody(s)) == s
  {
    if s != [] {
      BodyTwice(s[..|s| - 1], s[|s| - 1]);
      assert s == s[..|s| - 1] + [s[|s| - 1]];
    }
  }

  /** Integer division by two as C has it. */
  function Half(x: int): int {
    if x >= 0 then x / 2 else -(-x / 2)
  }

  /** The first n bytes of `all`, with those above i and their mirror images swapped. */
  ghost predicate Swapped(now: seq<byte>, all: seq<byte>, n: int, i: int) {
    && n <= |now| == |all|
    && (forall k :: 0 <= k < n && (i < k || k < n - 1 - i) ==> now[k] == all[n - 1 - k])
    && (forall k :: 0 <= k < n && !(i < k || k < n - 1 - i) ==> now[k] == all[k])
    && (forall k :: 0 <= k < |now| && n <= k ==> now[k] == all[k])
  }

  lemma SwapOne(now: seq<byte>, all: seq<byte>, n: int, i: int)
    requires 0 <= Half(n) <= i < n <= |all| && Swapped(now, all, n, i)
    ensures Swapped(now[i := now[n - 1 - i]][n - 1 - i := now[i]], all, n, i - 1)
  {
    var j := n - 1 - i;
    assert j <= i;
    assert now[i] == all[i] && now[j] == all[j];
  }

  lemma AllSwapped(now: seq<byte>, all: seq<byte>, cc: nat, i: int)
    requires 0 < cc <= |all| && i == Half(cc - 1) - 1 && Swapped(now, all, cc - 1, i)
    ensures now[..cc] == ReverseBody(all[..cc])
  {
    var m := cc - 1;
    IsReverse(now[..m], all[..m]);
    assert all[..cc][..m] == all[..m];
    assert now[..cc] == now[..m] + [now[m]];
  }

  /** The body of ChildServiceHandler between its read of cc bytes into buf and its write. */
  method TransformInPlace(buf: array<byte>, cc: nat)
    requires cc <= buf.Length
    modifies buf
    ensures buf[..cc] == ReverseBody(old(buf[..cc]))
    ensures buf[cc..] == old(buf[cc..])
  {
    var n := cc - 1;
    var i := n - 1;
    ghost var all := buf[..];
    while i >= Half(n)
      invariant if n < 0 then i == n - 1 else Half(n) - 1 <= i <= n - 1
      invariant Swapped(buf[..], all, n, i)
    {
      SwapOne(buf[..], all, n, i);
      var tmp := buf[i];
      buf[i] := buf[n - 1 - i];
      buf[n - 1 - i] := tmp;
      i := i - 1;
    }
    assert buf[..][cc..] == all[cc..];
    assert buf[..cc] == buf[..][..cc] && buf[cc..] == buf[..][cc..];
    if cc > 0 {
      AllSwapped(buf[..], all, cc, i);
    }
  }
}
