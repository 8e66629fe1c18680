/** What sendNBytes and recvNBytes return when they do not return the full count, told from the kernel's
    answers alone: which answer ends the call, and what must have come before it. */
module PartialIoAnswers {
  import opened PartialIo

  /** The bytes that a script moves. */
  function Total(script: seq<Answer>): nat {
    if script == [] then 0
    else (if script[0].Moves? then script[0].n else 0) + Total(script[1..])
  }

  predicate Harmless(a: Answer) {
    a.WouldBlock? || (a.Moves? && a.n > 0)
  }

  /** The script comes to its answer i with fewer than n bytes moved, and only blocks and moves before. */
  predicate Comes(script: seq<Answer>, i: nat, n: int) {
    i < |script| && (forall j :: 0 <= j < i ==> Harmless(script[j])) && Total(script[..i]) < n
  }

  /** The next k answers from place i on would block. */
  predicate Blocked(script: seq<Answer>, i: nat, k: nat) {
    i + k <= |script| && forall j :: i <= j < i + k ==> script[j].WouldBlock?
  }

  /** Before place i there are never RETRY blocks in a row, nor `retry` of them at the very start. */
  predicate Patient(script: seq<Answer>, i: nat, retry: nat) {
    (forall j: nat :: j + RETRY <= i ==> !Blocked(script, j, RETRY)) && (retry <= i ==> !Blocked(script, 0, retry))
  }

  // ----- One answer further -----------------------------------------------------------------------

  function Moved(a: Answer): nat {
    if a.Moves? then a.n else 0
  }

  lemma ComesOneFurther(script: seq<Answer>, i: nat, n: int)
    requires script != [] && Harmless(script[0])
    ensures Comes(script, i + 1, n) <==> Comes(script[1..], i, n - Moved(script[0]))
  {
    var rest := script[1..];
    if i < |rest| {
      assert script[..i + 1][1..] == rest[..i];
      assert forall j :: 0 <= j < i ==> rest[j] == script[j + 1];
      assert forall j :: 1 <= j < i + 1 ==> script[j] == rest[j - 1];
    }
  }

  lemma BlockedOneFurther(script: seq<Answer>, i: nat, k: nat)
    requires script != []
    ensures Blocked(script, i + 1, k) <==> Blocked(script[1..], i, k)
  {
    var rest := script[1..];
    if Blocked(script, i + 1, k) {
      forall j | i <= j < i + k ensures rest[j].WouldBlock? {
        assert rest[j] == script[j + 1];
      }
    }
    if Blocked(rest, i, k) {
      forall j | i + 1 <= j < i + 1 + k ensures script[j].WouldBlock? {
        assert script[j] == rest[j - 1];
      }
    }
  }

  lemma PatientAfterBlock(script: seq<Answer>, i: nat, retry: nat)
    requires i < |script| - 1 && script[0].WouldBlock? && 1 < retry <= RETRY
    ensures Patient(script, i + 1, retry) <==> Patient(script[1..], i, retry - 1)
  {
    var rest := script[1..];
    StartOneFurther(script, retry);
    if Patient(script, i + 1, retry) {
      forall j: nat | j + RETRY <= i ensures !Blocked(rest, j, RETRY) {
        BlockedOneFurther(script, j, RETRY);
      }
    }
    if Patient(rest, i, retry - 1) {
      forall j: nat | j + RETRY <= i + 1 ensures !Blocked(script, j, RETRY) {
        if j > 0 {
          BlockedOneFurther(script, j - 1, RETRY);
        } else {
          ShorterBlock(script, RETRY, retry);
        }
      }
    }
  }

  lemma ShorterBlock(script: seq<Answer>, k: nat, m: nat)
    requires m <= k
    ensures Blocked(script, 0, k) ==> Blocked(script, 0, m)
  {
  }

  lemma StartOneFurther(script: seq<Answer>, retry: nat)
    requires script != [] && script[0].WouldBlock? && retry > 0
    ensures Blocked(script, 0, retry) <==> Blocked(script[1..], 0, retry - 1)
  {
    BlockedOneFurther(script, 0, retry - 1);
  }

  lemma PatientAfterMove(script: seq<Answer>, i: nat, retry: nat)
    requires i < |script| - 1 && script[0].Moves? && 0 < retry
    ensures Patient(script, i + 1, retry) <==> Patient(script[1..], i, RETRY)
  {
    var rest := script[1..];
    if Patient(script, i + 1, retry) {
      forall j: nat | j + RETRY <= i ensures !Blocked(rest, j, RETRY) {
        BlockedOneFurther(script, j, RETRY);
      }
    }
    if Patient(rest, i, RETRY) {
      forall j: nat | j + RETRY <= i + 1 ensures !Blocked(script, j, RETRY) {
        if j > 0 {
          BlockedOneFurther(script, j - 1, RETRY);
        }
      }
    }
  }

  // ----- Sending ----------------------------------------------------------------------------------

  /** Before the answer at place i nothing ends the call. */
  lemma {:induction false} SendComesTo(script: seq<Answer>, n: nat, idx: nat, i: nat)
    requires idx < n && Comes(script, i, n - idx)
    ensures Send(script, n, idx) == Send(script[i..], n, idx + Total(script[..i]))
  {
    if i > 0 {
      ComesOneFurther(script, i - 1, n - idx);
      SendComesTo(script[1..], n, idx + Moved(script[0]), i - 1);
      assert script[1..][i - 1..] == script[i..];
      assert script[..i][1..] == script[1..][..i - 1];
    }
  }

  lemma {:induction false} SendEndsAt(script: seq<Answer>, n: nat, idx: nat) returns (i: nat)
    requires idx < n && (Send(script, n, idx).0 == Returns(0) || Send(script, n, idx).0 == Ended)
    ensures Comes(script, i, n - idx) && !Harmless(script[i])
  {
    i := 0;
    if Harmless(script[0]) {
      i := SendEndsAt(script[1..], n, idx + Moved(script[0]));
      ComesOneFurther(script, i, n - idx);
      i := i + 1;
    }
  }

  /** sendNBytes of n bytes, n > 0: it returns 0 exactly when the kernel takes no byte in an answer that
      does not block, and the process ends exactly when the kernel reports an error or a closed peer,
      in either case before n bytes have moved; what has moved by then is on the wire. */
  lemma SendAnswers(script: seq<Answer>, n: nat)
    requires n > 0
    ensures Send(script, n, 0).0 == Returns(0) <==> exists i: nat :: Comes(script, i, n) && script[i] == Moves(0)
    ensures Send(script, n, 0).0 == Ended <==>
              exists i: nat :: Comes(script, i, n) && (script[i].Closed? || script[i].Error?)
    ensures forall i: nat :: Comes(script, i, n) && !Harmless(script[i]) ==> Send(script, n, 0).1 == Total(script[..i])
  {
    forall i: nat | Comes(script, i, n) && !Harmless(script[i])
      ensures Send(script, n, 0) == (if script[i].Moves? then Returns(0) else Ended, Total(script[..i]))
    {
      SendComesTo(script, n, 0, i);
    }
    if Send(script, n, 0).0 == Returns(0) || Send(script, n, 0).0 == Ended {
      var i := SendEndsAt(script, n, 0);
    }
  }

  // ----- Receiving --------------------------------------------------------------------------------

  /** Fewer than n bytes, and no more than there are. */
  function Room(n: nat, avail: nat): nat {
    if n <= avail then n else avail + 1
  }

  /** The script comes to its answer i in time for a receiver that has received idx of n bytes. */
  predicate InTime(script: seq<Answer>, i: nat, n: nat, avail: nat, idx: nat, retry: nat) {
    Comes(script, i, Room(n, avail) - idx) && Patient(script, i, retry)
  }

  lemma {:induction false} RecvComesTo(script: seq<Answer>, n: nat, avail: nat, idx: nat, retry: nat, i: nat)
      returns (left: nat)
    requires idx < n && idx <= avail && 0 < retry <= RETRY && InTime(script, i, n, avail, idx, retry)
    ensures 0 < left <= RETRY && idx + Total(script[..i]) < n && idx + Total(script[..i]) <= avail
    ensures Recv(script, n, avail, idx, retry) == Recv(script[i..], n, avail, idx + Total(script[..i]), left)
  {
    left := retry;
    if i > 0 {
      ComesOneFurther(script, i - 1, Room(n, avail) - idx);
      assert script[1..][i - 1..] == script[i..];
      assert script[..i][1..] == script[1..][..i - 1];
      if script[0].WouldBlock? {
        assert retry > 1 by { assert retry == 1 ==> Blocked(script, 0, retry); }
        PatientAfterBlock(script, i - 1, retry);
        left := RecvComesTo(script[1..], n, avail, idx, retry - 1, i - 1);
      } else {
        PatientAfterMove(script, i - 1, retry);
        left := RecvComesTo(script[1..], n, avail, idx + script[0].n, RETRY, i - 1);
      }
    }
  }

  lemma {:induction false} RecvEndsAt(script: seq<Answer>, n: nat, avail: nat, idx: nat, retry: nat)
      returns (i: nat)
    requires idx < n && idx <= avail && 0 < retry <= RETRY
    requires var o := Recv(script, n, avail, idx, retry).0; o == Returns(0) || o == Ended
    ensures InTime(script, i, n, avail, idx, retry) && (script[i].Closed? || script[i].Error?)
    decreases |script|
  {
    i := 0;
    if Harmless(script[0]) {
      if script[0].WouldBlock? {
        i := RecvEndsAt(script[1..], n, avail, idx, retry - 1);
        PatientAfterBlock(script, i, retry);
      } else {
        i := RecvEndsAt(script[1..], n, avail, idx + script[0].n, RETRY);
        PatientAfterMove(script, i, retry);
      }
      ComesOneFurther(script, i, Room(n, avail) - idx);
      i := i + 1;
    }
  }

  /** From place i the script blocks RETRY times, or from its start as often as may still be retried. */
  predicate Tires(script: seq<Answer>, i: nat, n: nat, avail: nat, idx: nat, retry: nat) {
    Comes(script, i, Room(n, avail) - idx) && (Blocked(script, i, RETRY) || (i == 0 && Blocked(script, 0, retry)))
  }

  lemma {:induction false} RecvTires(script: seq<Answer>, n: nat, avail: nat, idx: nat, retry: nat, i: nat)
    requires idx < n && idx <= avail && 0 < retry <= RETRY && Tires(script, i, n, avail, idx, retry)
    ensures Recv(script, n, avail, idx, retry).0 == Returns(-1)
    decreases |script|
  {
    if retry > 1 || script[0].Moves? {
      var left := if script[0].Moves? then RETRY else retry - 1;
      if i == 0 {
        BlockedOneFurther(script, 0, left);
        assert Blocked(script, 0, retry);
        RecvTires(script[1..], n, avail, idx, left, 0);
      } else {
        ComesOneFurther(script, i - 1, Room(n, avail) - idx);
        BlockedOneFurther(script, i - 1, RETRY);
        RecvTires(script[1..], n, avail, idx + Moved(script[0]), left, i - 1);
      }
    }
  }

  lemma {:induction false} RecvTiredAt(script: seq<Answer>, n: nat, avail: nat, idx: nat, retry: nat)
      returns (i: nat)
    requires idx < n && idx <= avail && 0 < retry <= RETRY && Recv(script, n, avail, idx, retry).0 == Returns(-1)
    ensures Tires(script, i, n, avail, idx, retry)
    decreases |script|
  {
    i := 0;
    if script[0].WouldBlock? {
      if retry > 1 {
        i := RecvTiredAt(script[1..], n, avail, idx, retry - 1);
        StartOneFurther(script, retry);
        if Blocked(script[1..], i, RETRY) {
          BlockedOneFurther(script, i, RETRY);
          ComesOneFurther(script, i, Room(n, avail) - idx);
          i := i + 1;
        }
      }
    } else {
      i := RecvTiredAt(script[1..], n, avail, idx + script[0].n, RETRY);
      BlockedOneFurther(script, i, RETRY);
      ComesOneFurther(script, i, Room(n, avail) - idx);
      i := i + 1;
    }
  }

  /** recvNBytes of n bytes, n > 0, from a stream of `avail` bytes.  It returns 0 exactly when the peer closes
      before n bytes have moved and before RETRY blocks in a row; -1 exactly when RETRY blocks in a
      row come before n bytes have moved and before anything else ends the call; and the process ends
      exactly when an error comes in place of the close. */
  lemma RecvAnswers(script: seq<Answer>, n: nat, avail: nat)
    requires n > 0
    ensures Recv(script, n, avail, 0, RETRY).0 == Returns(0) <==>
              exists i: nat :: InTime(script, i, n, avail, 0, RETRY) && script[i].Closed?
    ensures Recv(script, n, avail, 0, RETRY).0 == Ended <==>
              exists i: nat :: InTime(script, i, n, avail, 0, RETRY) && script[i].Error?
    ensures Recv(script, n, avail, 0, RETRY).0 == Returns(-1) <==>
              exists i: nat :: Comes(script, i, Room(n, avail)) && Blocked(script, i, RETRY)
    ensures forall i: nat :: InTime(script, i, n, avail, 0, RETRY) && (script[i].Closed? || script[i].Error?) ==>
              Recv(script, n, avail, 0, RETRY).1 == Total(script[..i])
  {
    var o := Recv(script, n, avail, 0, RETRY).0;
    forall i: nat | InTime(script, i, n, avail, 0, RETRY) && (script[i].Closed? || script[i].Error?)
      ensures Recv(script, n, avail, 0, RETRY) == (if script[i].Closed? then Returns(0) else Ended, Total(script[..i]))
    {
      var left := RecvComesTo(script, n, avail, 0, RETRY, i);
    }
    if o == Returns(0) || o == Ended {
      var i := RecvEndsAt(script, n, avail, 0, RETRY);
    }
    forall i: nat | Comes(script, i, Room(n, avail)) && Blocked(script, i, RETRY) ensures o == Returns(-1) {
      assert Tires(script, i, n, avail, 0, RETRY);
      RecvTires(script, n, avail, 0, RETRY, i);
    }
    if o == Returns(-1) {
      var i := RecvTiredAt(script, n, avail, 0, RETRY);
      assert Comes(script, i, Room(n, avail)) && Blocked(script, i, RETRY);
    }
  }
}
