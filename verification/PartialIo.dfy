/** Sending and receiving an exact number of bytes over non-blocking calls that may move fewer bytes or
    none (rdwrnonblckio.c).  What the kernel answers to the successive calls is a script. */
module PartialIo {
  import opened Basics
  import opened XdrCodec

  const RETRY := 5

  /** The kernel's answer to one send or recv: it would block; it moves n bytes; the peer has closed;
      an error, which ends the process. */
  datatype Answer = WouldBlock | Moves(n: nat) | Closed | Error

  /** How a call of sendNBytes or recvNBytes goes: it returns; it is still waiting when the script ends;
      the process has ended; or the script moves more bytes than there are. */
  datatype Outcome = Returns(r: int) | Waiting | Ended | Impossible

  /** sendNBytes of n bytes when idx of them have been sent: the outcome and how many were sent. */
  function Send(script: seq<Answer>, n: nat, idx: nat): (res: (Outcome, nat))
    requires idx <= n
    ensures idx <= res.1 <= n
    ensures res.0.Returns? && res.0.r > 0 ==> res.0.r == n == res.1
  {
    if idx == n then (Returns(n), n)
    else if script == [] then (Waiting, idx)
    else
      match script[0]
      case WouldBlock => Send(script[1..], n, idx)
      case Moves(k) =>
        if k == 0 then (Returns(0), idx)
        else if idx + k <= n then Send(script[1..], n, idx + k)
        else (Impossible, idx)
      case Closed => (Ended, idx)
      case Error => (Ended, idx)
  }

  /** recvNBytes of n bytes from a stream of `avail` bytes when idx of them have been received and the
      current receive may still be retried `retry` times. */
  function Recv(script: seq<Answer>, n: nat, avail: nat, idx: nat, retry: nat): (res: (Outcome, nat))
    requires idx <= n && idx <= avail
    ensures idx <= res.1 <= n && res.1 <= avail
    ensures res.0.Returns? && res.0.r > 0 ==> res.0.r == n == res.1
    decreases |script|
  {
    if idx == n then (Returns(n), n)
    else if retry == 0 then (Returns(-1), idx)
    else if script == [] then (Waiting, idx)
    else
      match script[0]
      case WouldBlock => Recv(script[1..], n, avail, idx, retry - 1)
      case Moves(k) =>
        if 0 < k && idx + k <= n && idx + k <= avail then Recv(script[1..], n, avail, idx + k, RETRY)
        else (Impossible, idx)
      case Closed => (Returns(0), idx)
      case Error => (Ended, idx)
  }

  /** Answer i is the first that does not block. */
  predicate FirstAnswer(script: seq<Answer>, i: nat) {
    i < |script| && !script[i].WouldBlock? && forall k :: 0 <= k < i ==> script[k].WouldBlock?
  }

  // ----- The loops in place -----------------------------------------------------------------------

  /** One end of a connection.  `script` holds the kernel's answers still to come; `stream` the bytes on
      the wire, of which the reader has taken `taken`. */
  class Endpoint {
    var script: seq<Answer>
    var stream: seq<byte>
    var taken: nat

    constructor (script: seq<Answer>, stream: seq<byte>)
      ensures this.script == script && this.stream == stream && taken == 0
    {
      this.script := script;
      this.stream := stream;
      taken := 0;
    }

    /** sendnonblk: tries until the call does not block.  `state` is Returns(cc), or tells why there is
        no result. */
    method SendNonblk(data: seq<byte>) returns (state: Outcome)
      requires data != []
      modifies this
      ensures taken == old(taken)
      ensures state.Returns? ==> 0 <= state.r <= |data| && stream == old(stream) + data[..state.r]
      ensures !state.Returns? ==> stream == old(stream)
      ensures |script| < |old(script)| || (state == Waiting && script == [])
      ensures forall i: nat :: FirstAnswer(old(script), i) ==>
                match old(script)[i]
                case Moves(k) => state == if k <= |data| then Returns(k) else Impossible
                case _ => state == Ended
      ensures forall n: nat, idx: nat :: n == idx + |data| ==>
                Send(old(script), n, idx) ==
                if !state.Returns? then (state, idx)
                else if state.r == 0 then (Returns(0), idx) else Send(script, n, idx + state.r)
    {
      ghost var done := 0;
      while script != []
        invariant 0 <= done <= |old(script)| && script == old(script)[done..]
        invariant forall k :: 0 <= k < done ==> old(script)[k].WouldBlock?
        invariant taken == old(taken) && stream == old(stream) && |script| <= |old(script)|
        invariant forall n: nat, idx: nat :: n == idx + |data| ==> Send(old(script), n, idx) == Send(script, n, idx)
        decreases |script|
      {
        var answer := script[0];
        assert answer.WouldBlock? || FirstAnswer(old(script), done);
        script, done := script[1..], done + 1;
        match answer {
          case WouldBlock =>
          case Moves(k) =>
            if k > |data| {
              return Impossible;
            }
            stream := stream + data[..k];
            return Returns(k);
          case Closed => return Ended;
          case Error => return Ended;
        }
      }
      return Waiting;
    }

    /** sendNBytes */
    method SendNBytes(buf: array<byte>) returns (state: Outcome)
      modifies this
      ensures state == Send(old(script), buf.Length, 0).0
      ensures stream == old(stream) + buf[..Send(old(script), buf.Length, 0).1]
    {
      var cc, idx, nchars := 0, 0, buf.Length;
      while nchars != 0
        invariant idx + nchars == buf.Length && 0 <= idx <= buf.Length && (cc > 0 <==> idx > 0) && cc >= 0
        invariant stream == old(stream) + buf[..idx]
        invariant Send(old(script), buf.Length, 0) == Send(script, buf.Length, idx)
        decreases nchars
      {
        var one := SendNonblk(buf[idx..]);
        if !one.Returns? {
          return one;
        }
        cc := one.r;
        assert buf[..idx] + buf[idx..][..cc] == buf[..idx + cc];
        if cc <= 0 {
          break;
        }
        nchars, idx := nchars - cc, idx + cc;
      }
      if cc <= 0 {
        return Returns(cc);
      } else if nchars == 0 {
        return Returns(idx);
      } else {
        assert false;  // "return -1" is never reached
      }
    }

    /** recvnonblk: gives up after RETRY calls that block. */
    method RecvNonblk(nchars: nat) returns (state: Outcome, data: seq<byte>)
      requires nchars > 0 && taken <= |stream|
      modifies this`script, this`taken
      ensures stream == old(stream)
      ensures state.Returns? ==> -1 <= state.r <= nchars
      ensures state == Returns(-1) <==> |old(script)| >= RETRY && forall k :: 0 <= k < RETRY ==> old(script)[k].WouldBlock?
      ensures forall i: nat :: FirstAnswer(old(script), i) && i < RETRY ==>
                match old(script)[i]
                case Closed => state == Returns(0)
                case Error => state == Ended
                case Moves(k) => state.Returns? ==> state == Returns(k) && k > 0
                case WouldBlock => true
      ensures if state.Returns? && state.r > 0
              then old(taken) + state.r == taken <= |stream| && data == stream[old(taken)..taken]
              else taken == old(taken)
      ensures forall n: nat :: n == old(taken) + nchars ==>
                Recv(old(script), n, |stream|, old(taken), RETRY) ==
                if !state.Returns? then (state, taken)
                else if state.r <= 0 then (Returns(state.r), taken) else Recv(script, n, |stream|, taken, RETRY)
    {
      var n: int, retry: int := 0, RETRY;
      data := [];
      while retry != 0
        invariant 0 <= RETRY - retry <= |old(script)| && script == old(script)[RETRY - retry..]
        invariant forall k :: 0 <= k < RETRY - retry ==> old(script)[k].WouldBlock?
        invariant 0 <= retry <= RETRY && taken == old(taken) && (retry < RETRY ==> n == -1)
        invariant forall m: nat :: m == old(taken) + nchars ==>
                    Recv(old(script), m, |stream|, old(taken), RETRY) == Recv(script, m, |stream|, taken, retry)
        decreases retry
      {
        if script == [] {
          return Waiting, [];
        }
        var answer := script[0];
        assert answer.WouldBlock? || FirstAnswer(old(script), RETRY - retry);
        script := script[1..];
        match answer {
          case WouldBlock =>
            n := -1;
            retry := retry - 1;
          case Moves(k) =>
            if k == 0 || k > nchars || taken + k > |stream| {
              return Impossible, [];
            }
            n, data := k, stream[taken..taken + k];
            taken := taken + k;
            return Returns(n), data;
          case Closed => return Returns(0), [];
          case Error => return Ended, [];
        }
      }
      if retry < 0 {
        assert false;  // "return -1" is never reached here
      }
      return Returns(n), [];
    }

    /** recvNBytes */
    method RecvNBytes(buf: array<byte>) returns (state: Outcome)
      requires taken == 0
      modifies this`script, this`taken, buf
      ensures stream == old(stream) && taken <= buf.Length && taken <= |stream|
      ensures (state, taken) == Recv(old(script), buf.Length, |stream|, 0, RETRY)
      ensures buf[..taken] == stream[..taken] && buf[taken..] == old(buf[..])[taken..]
    {
      var cc, idx, nchars := 0, 0, buf.Length;
      while nchars != 0
        invariant stream == old(stream) && idx == taken <= |stream|
        invariant idx + nchars == buf.Length && 0 <= idx <= buf.Length && (cc > 0 <==> idx > 0) && cc >= 0
        invariant buf[..idx] == stream[..idx] && buf[idx..] == old(buf[..])[idx..]
        invariant Recv(old(script), buf.Length, |stream|, 0, RETRY) == Recv(script, buf.Length, |stream|, idx, RETRY)
        decreases nchars
      {
        var one, data := RecvNonblk(nchars);
        if !one.Returns? {
          return one;
        }
        cc := one.r;
        if cc <= 0 {
          break;
        }
        Store(buf, idx, data);
        nchars, idx := nchars - cc, idx + cc;
      }
      if cc <= 0 {
        return Returns(cc);
      } else if nchars == 0 {
        return Returns(idx);
      } else {
        assert false;  // "return -1" is never reached
      }
    }
  }

  /** What recv does to the buffer. */
  method Store(buf: array<byte>, at: nat, data: seq<byte>)
    requires at + |data| <= buf.Length
    modifies buf
    ensures buf[..at + |data|] == old(buf[..at]) + data
    ensures buf[at + |data|..] == old(buf[at + |data|..])
  {
    for i := 0 to |data|
      invariant buf[..at + i] == old(buf[..at]) + data[..i]
      invariant buf[at + i..] == old(buf[at + i..])
    {
      buf[at + i] := data[i];
    }
    assert data[..|data|] == data;
  }

  // ----- Main results -----------------------------------------------------------------------------

  /** The script splits n bytes into positive parts, with any number of would-blocks between them. */
  predicate SendSplits(script: seq<Answer>, n: nat) {
    n == 0 ||
    (script != [] &&
     match script[0]
     case WouldBlock => SendSplits(script[1..], n)
     case Moves(k) => 0 < k <= n && SendSplits(script[1..], n - k)
     case _ => false)
  }

  /** The same with fewer than five would-blocks in a row, `retry` more of them being allowed now. */
  predicate RecvSplits(script: seq<Answer>, n: nat, retry: nat) {
    n == 0 ||
    (retry > 0 && script != [] &&
     match script[0]
     case WouldBlock => RecvSplits(script[1..], n, retry - 1)
     case Moves(k) => 0 < k <= n && RecvSplits(script[1..], n - k, RETRY)
     case _ => false)
  }

  /** sendNBytes returns the full count exactly for the scripts that split it. */
  lemma {:induction false} SendCompletes(script: seq<Answer>, n: nat, idx: nat)
    requires idx < n
    ensures Send(script, n, idx).0 == Returns(n) <==> SendSplits(script, n - idx)
  {
    if script != [] {
      match script[0]
      case WouldBlock => SendCompletes(script[1..], n, idx);
      case Moves(k) =>
        if 0 < k && idx + k < n {
          SendCompletes(script[1..], n, idx + k);
        }
      case _ =>
    }
  }

  /** recvNBytes returns the full count exactly for the scripts that split it with fewer than five
      consecutive would-blocks. */
  lemma {:induction false} RecvCompletes(script: seq<Answer>, n: nat, avail: nat, idx: nat, retry: nat)
    requires idx < n <= avail
    ensures Recv(script, n, avail, idx, retry).0 == Returns(n) <==> RecvSplits(script, n - idx, retry)
  {
    if script != [] && retry > 0 {
      match script[0]
      case WouldBlock => RecvCompletes(script[1..], n, avail, idx, retry - 1);
      case Moves(k) =>
        if 0 < k && idx + k < n {
          RecvCompletes(script[1..], n, avail, idx + k, RETRY);
        }
      case _ =>
    }
  }

  /** Whatever the scripts: sendNBytes and recvNBytes return the requested count, or 0 or -1. */
  lemma {:induction false} ReturnsAllOrNothing(script: seq<Answer>, n: nat, avail: nat, idx: nat, retry: nat)
    requires idx <= n && idx <= avail
    ensures Send(script, n, idx).0.Returns? ==> Send(script, n, idx).0.r == 0 || Send(script, n, idx).0.r == n
    ensures var r := Recv(script, n, avail, idx, retry).0; r.Returns? ==> r.r == -1 || r.r == 0 || r.r == n
    decreases |script|
  {
    if script != [] {
      match script[0]
      case WouldBlock => ReturnsAllOrNothing(script[1..], n, avail, idx, if retry > 0 then retry - 1 else 0);
      case Moves(k) =>
        if idx + k <= n {
          if idx + k <= avail {
            ReturnsAllOrNothing(script[1..], n, avail, idx + k, RETRY);
          } else {
            ReturnsAllOrNothing(script[1..], n, idx + k, idx + k, RETRY);
          }
        }
      case _ =>
    }
  }

  /** Chunking does not matter: for any split chosen on the sending side and any other on the receiving
      side, both calls return the full count and the receiver's buffer is the sender's. */
  method Transfer(buf: array<byte>, sendScript: seq<Answer>, recvScript: seq<Answer>, into: array<byte>)
      returns (sent: Outcome, received: Outcome)
    requires buf.Length == into.Length > 0 && buf != into
    requires SendSplits(sendScript, buf.Length) && RecvSplits(recvScript, buf.Length, RETRY)
    modifies into
    ensures sent == Returns(buf.Length) && received == Returns(buf.Length)
    ensures into[..] == buf[..]
  {
    var s := new Endpoint(sendScript, []);
    sent := s.SendNBytes(buf);
    SendCompletes(sendScript, buf.Length, 0);
    var r := new Endpoint(recvScript, s.stream);
    received := r.RecvNBytes(into);
    assert s.stream == buf[..];
    RecvCompletes(recvScript, buf.Length, buf.Length, 0, RETRY);
    assert into[..into.Length] == into[..];
  }
}
