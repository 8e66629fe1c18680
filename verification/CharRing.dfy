/** The character generator (sv_funcs.c): lines of 72 characters from a ring of 94, continued from
    call to call by a static variable. */
module CharRing {
  const LINELEN := 72
  const RING := 94
  const FIRST := 32        // ' '
  const LAST := 126        // '~' is where the ring starts over

  /** Character i of line j. */
  function Char(j: nat, i: nat): int {
    FIRST + (LINELEN * j + i) % RING
  }

  /** Line j as it is sent, with its carriage return and line feed. */
  function Line(j: nat): (line: seq<int>)
    ensures |line| == LINELEN + 2
    ensures forall i :: 0 <= i < LINELEN ==> line[i] == Char(j, i)
    ensures line[LINELEN] == 13 && line[LINELEN + 1] == 10
  {
    seq(LINELEN, i requires 0 <= i => Char(j, i)) + [13, 10]
  }

  /** TCPchargend2's static variable, and the lines it has built for any client. */
  class Generator {
    var c: int
    ghost var lines: nat

    /** The next character is the one that starts line number `lines`. */
    ghost predicate Valid()
      reads this
    {
      c == Char(lines, 0)
    }

    constructor ()
      ensures Valid() && lines == 0
    {
      c := 32;
      lines := 0;
    }

    /** One call of TCPchargend2.  cc is the result of the client's one-byte read: with 0 the call
        returns before it touches the ring.  `sent` is the result of the send, 0 for a broken pipe. */
    method TCPchargend2(cc: nat, sent: nat, buf: array<int>) returns (r: nat)
      requires Valid() && buf.Length == LINELEN + 2
      modifies this, buf
      ensures Valid()
      ensures cc == 0 ==> r == 0 && lines == old(lines) && c == old(c) && buf[..] == old(buf[..])
      ensures cc != 0 ==> r == sent && lines == old(lines) + 1 && buf[..] == Line(old(lines))
    {
      if cc == 0 {
        return 0;
      }
      buf[LINELEN] := 13;
      buf[LINELEN + 1] := 10;
      c := FillLine(buf, c, lines);
      lines := lines + 1;
      return sent;
    }
  }

  /** The loop that fills line j, starting with character c; it returns the character to go on with. */
  method FillLine(buf: array<int>, first: int, ghost j: nat) returns (c: int)
    requires first == Char(j, 0) && buf.Length == LINELEN + 2
    modifies buf
    ensures c == Char(j + 1, 0)
    ensures forall i :: 0 <= i < LINELEN ==> buf[i] == Char(j, i)
    ensures buf[LINELEN] == old(buf[LINELEN]) && buf[LINELEN + 1] == old(buf[LINELEN + 1])
  {
    c := first;
    for i := 0 to LINELEN
      invariant c == Char(j, i)
      invariant forall k :: 0 <= k < i ==> buf[k] == Char(j, k)
      invariant buf[LINELEN] == old(buf[LINELEN]) && buf[LINELEN + 1] == old(buf[LINELEN + 1])
    {
      buf[i] := c;
      c := c + 1;
      if c >= LAST {
        c := FIRST;
      }
      Next(LINELEN * j + i);
    }
  }

  lemma Next(n: nat)
    ensures (n + 1) % RING == if n % RING == RING - 1 then 0 else n % RING + 1
  {
  }

  /** TCPchargend, for its first n lines: it starts its own ring and sends the same sequence. */
  method TCPchargend(n: nat) returns (sent: seq<seq<int>>)
    ensures |sent| == n
    ensures forall j :: 0 <= j < n ==> sent[j] == Line(j)
  {
    var c := 32;
    var buf := new int[LINELEN + 2];
    buf[LINELEN] := 13;
    buf[LINELEN + 1] := 10;
    sent := [];
    for j := 0 to n
      invariant c == Char(j, 0)
      invariant |sent| == j && forall k :: 0 <= k < j ==> sent[k] == Line(k)
      invariant buf[LINELEN] == 13 && buf[LINELEN + 1] == 10
    {
      c := FillLine(buf, c, j);
      sent := sent + [buf[..]];
    }
  }

  // ----- Main results -------------------------------------------------------------------------

  /** Lines repeat every 47 lines. */
  lemma PeriodIs47(j: nat)
    ensures Line(j + 47) == Line(j)
  {
    forall i | 0 <= i < LINELEN ensures Char(j + 47, i) == Char(j, i) {
      assert LINELEN * (j + 47) + i == LINELEN * j + i + RING * 36;
      Shift(LINELEN * j + i, 36);
    }
  }

  lemma {:induction false} Shift(n: nat, k: nat)
    ensures (n + RING * k) % RING == n % RING
  {
    if k > 0 {
      Shift(n, k - 1);
    }
  }

  /** ... and no sooner: two lines fewer than 47 apart differ, already in their first character. */
  lemma NoShorterPeriod(j: nat, d: nat)
    requires 0 < d < 47
    ensures Line(j + d) != Line(j)
  {
    var a, b := LINELEN * j, LINELEN * (j + d);
    assert b - a == LINELEN * d;
    assert a % RING != b % RING;
    assert Line(j + d)[0] == Char(j + d, 0);
    assert Line(j)[0] == Char(j, 0);
  }

  /** Two lines are equal exactly when they are a multiple of 47 lines apart. */
  lemma LinesEqualExactly(j: nat, k: nat)
    ensures Line(j) == Line(k) <==> j % 47 == k % 47
  {
    LineModulo(j);
    LineModulo(k);
    var a, b := j % 47, k % 47;
    if a < b {
      NoShorterPeriod(a, b - a);
    } else if b < a {
      NoShorterPeriod(b, a - b);
    }
  }

  lemma {:induction false} LineModulo(j: nat)
    ensures Line(j) == Line(j % 47)
  {
    if j >= 47 {
      LineModulo(j - 47);
      PeriodIs47(j - 47);
      assert j % 47 == (j - 47) % 47;
    }
  }
}
