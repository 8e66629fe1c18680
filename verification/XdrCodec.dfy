/** The message codec (xdr_common_endc.c) over an XDR memory stream: integers and strings as sections
    4.1 and 4.11 of RFC 4506 lay them out, in a buffer of the size of the message structure. */
module XdrCodec {
  import opened Basics

  const WORD := 0x1_0000_0000
  const NAME := 128
  const NUMBER := 24
  const SIZE := 160        // sizeof (struct MsgXdr)

  /** struct MsgXdr, with its character arrays in full. */
  datatype Msg = Msg(kind: int, usrId: int, name: seq<byte>, number: seq<byte>)

  /** A memory stream: the buffer and how much of it has been consumed. */
  datatype Stream = Stream(buf: seq<byte>, pos: nat)

  // ----- Words and strings on the wire ----------------------------------------------------------

  predicate Int32(v: int) {
    -0x8000_0000 <= v < 0x8000_0000
  }

  function Unsigned(v: int): (w: int)
    requires Int32(v)
    ensures 0 <= w < WORD
  {
    if v < 0 then v + WORD else v
  }

  function Signed(w: int): (v: int)
    requires 0 <= w < WORD
    ensures Int32(v)
  {
    if w >= 0x8000_0000 then w - WORD else w
  }

  /** Four bytes, the most significant first. */
  function Bytes(w: int): (b: seq<byte>)
    requires 0 <= w < WORD
    ensures |b| == 4
  {
    [w / 0x100_0000, w / 0x1_0000 % 0x100, w / 0x100 % 0x100, w % 0x100]
  }

  function Value(b: seq<byte>): (w: int)
    requires |b| == 4
    ensures 0 <= w < WORD
  {
    0x100_0000 * (b[0] as int) + 0x1_0000 * (b[1] as int) + 0x100 * (b[2] as int) + (b[3] as int)
  }

  lemma WordRoundTrip(w: int)
    requires 0 <= w < WORD
    ensures Value(Bytes(w)) == w
  {
    var a, b := w / 0x100, w / 0x1_0000;
    assert w == 0x100 * a + w % 0x100;
    assert a / 0x100 == b && a == 0x100 * b + a % 0x100;
    assert b / 0x100 == w / 0x100_0000 && b == 0x100 * (w / 0x100_0000) + b % 0x100;
  }

  /** The number of zero bytes after n bytes of data. */
  function Padding(n: nat): (p: nat)
    ensures p < 4 && (n + p) % 4 == 0
  {
    (4 - n % 4) % 4
  }

  function Pad4(n: nat): nat {
    n + Padding(n)
  }

  function Zeros(n: nat): (z: seq<byte>)
    ensures |z| == n
  {
    seq(n, i => 0)
  }

  /** A string on the wire: its length, its bytes, and zeros up to a multiple of four. */
  function StringBytes(s: seq<byte>): (b: seq<byte>)
    requires |s| < WORD
    ensures |b| == 4 + Pad4(|s|)
  {
    Bytes(|s|) + s + Zeros(Padding(|s|))
  }

  // ----- The stream operations ------------------------------------------------------------------

  /** Writes data if there is room for all of it; the flag tells. */
  function PutBytes(x: Stream, data: seq<byte>): (r: (Stream, bool)) {
    if x.pos + |data| <= |x.buf|
    then (Stream(x.buf[..x.pos] + data + x.buf[x.pos + |data|..], x.pos + |data|), true)
    else (x, false)
  }

  function GetBytes(x: Stream, n: nat): (r: (Stream, seq<byte>, bool)) {
    if x.pos + n <= |x.buf| then (x.(pos := x.pos + n), x.buf[x.pos..x.pos + n], true) else (x, [], false)
  }

  /** xdr_int when encoding. */
  function PutInt(x: Stream, v: int): (Stream, bool)
    requires Int32(v)
  {
    PutBytes(x, Bytes(Unsigned(v)))
  }

  /** xdr_string when encoding: it stops at the first part that does not fit. */
  function PutString(x: Stream, s: seq<byte>, maxsize: nat): (Stream, bool)
    requires |s| < WORD
  {
    if |s| > maxsize then (x, false)
    else
      var (x1, ok1) := PutBytes(x, Bytes(|s|));
      if !ok1 then (x1, false)
      else
        var (x2, ok2) := PutBytes(x1, s);
        if !ok2 then (x2, false) else PutBytes(x2, Zeros(Padding(|s|)))
  }

  /** xdr_int when decoding; on failure the destination keeps its value. */
  function GetInt(x: Stream, old': int): (Stream, int, bool) {
    var (x1, b, ok) := GetBytes(x, 4);
    if ok then (x1, Signed(Value(b)), true) else (x, old', false)
  }

  /** xdr_string when decoding into dst: the terminator is stored first, then the bytes. */
  function GetString(x: Stream, dst: seq<byte>, maxsize: nat): (r: (Stream, seq<byte>, bool))
    ensures |r.1| == |dst|
  {
    var (x1, b, ok1) := GetBytes(x, 4);
    if !ok1 then (x1, dst, false)
    else
      var n := Value(b);
      if n > maxsize || n >= |dst| then (x1, dst, false)
      else
        var ended := dst[n := 0];
        var (x2, data, ok2) := GetBytes(x1, n);
        if !ok2 then (x2, ended, false)
        else
          var (x3, crud, ok3) := GetBytes(x2, Padding(n));
          (x3, data + ended[n..], ok3)
  }

  // ----- Messages -------------------------------------------------------------------------------

  /** strlen: the number of bytes before the first zero. */
  function Strlen(a: seq<byte>): (n: nat)
    ensures n <= |a|
    ensures forall i :: 0 <= i < n ==> a[i] != 0
    ensures n < |a| ==> a[n] == 0
  {
    if a == [] || a[0] == 0 then 0 else 1 + Strlen(a[1..])
  }

  function Str(a: seq<byte>): seq<byte> {
    a[..Strlen(a)]
  }

  /** Both fields hold terminated strings. */
  predicate Legal(m: Msg) {
    && Int32(m.kind) && Int32(m.usrId)
    && |m.name| == NAME && Strlen(m.name) < NAME
    && |m.number| == NUMBER && Strlen(m.number) < NUMBER
  }

  /** xEncodeMsg: every result is ignored. */
  function Encode(buffer: seq<byte>, m: Msg): (r: seq<byte>)
    requires Legal(m)
  {
    var x0 := Stream(buffer, 0);
    var x1 := PutInt(x0, m.kind).0;
    var x2 := PutInt(x1, m.usrId).0;
    var x3 := PutString(x2, Str(m.name), Strlen(m.name)).0;
    var x4 := PutString(x3, Str(m.number), Strlen(m.number)).0;
    x4.buf
  }

  /** xDecodeMsg into m: every result is ignored. */
  function Decode(buffer: seq<byte>, m: Msg): (r: Msg)
    ensures |r.name| == |m.name| && |r.number| == |m.number|
  {
    var x0 := Stream(buffer, 0);
    var (x1, kind, ok1) := GetInt(x0, m.kind);
    var (x2, usrId, ok2) := GetInt(x1, m.usrId);
    var (x3, name, ok3) := GetString(x2, m.name, NAME);
    var (x4, number, ok4) := GetString(x3, m.number, NUMBER);
    Msg(kind, usrId, name, number)
  }

  /** The same message: equal numbers and equal strings. */
  predicate Same(a: Msg, b: Msg) {
    a.kind == b.kind && a.usrId == b.usrId && Str(a.name) == Str(b.name) && Str(a.number) == Str(b.number)
  }

  /** The encoded message fits the buffer. */
  predicate Fits(m: Msg) {
    16 + Pad4(Strlen(m.name)) + Pad4(Strlen(m.number)) <= SIZE
  }

  // ----- One field after the other --------------------------------------------------------------

  /** What is on the wire before the number. */
  function Head(m: Msg): (h: seq<byte>)
    requires Legal(m)
    ensures |h| == 12 + Pad4(Strlen(m.name))
  {
    Bytes(Unsigned(m.kind)) + Bytes(Unsigned(m.usrId)) + StringBytes(Str(m.name))
  }

  /** Writing appends to what has been written. */
  lemma PutAppends(x: Stream, done: seq<byte>, data: seq<byte>)
    requires x.pos == |done| && |done| + |data| <= |x.buf| && x.buf[..x.pos] == done
    ensures var (y, ok) := PutBytes(x, data);
            ok && y.pos == |done + data| && |y.buf| == |x.buf| && y.buf[..y.pos] == done + data
  {
  }

  lemma PutStringAppends(x: Stream, done: seq<byte>, s: seq<byte>)
    requires |s| < WORD && x.pos == |done| && |done| + 4 + Pad4(|s|) <= |x.buf| && x.buf[..x.pos] == done
    ensures var (y, ok) := PutString(x, s, |s|);
            ok && y.pos == |done + StringBytes(s)| && |y.buf| == |x.buf| && y.buf[..y.pos] == done + StringBytes(s)
  {
    var x1 := PutBytes(x, Bytes(|s|)).0;
    PutAppends(x, done, Bytes(|s|));
    var x2 := PutBytes(x1, s).0;
    PutAppends(x1, done + Bytes(|s|), s);
    PutAppends(x2, done + Bytes(|s|) + s, Zeros(Padding(|s|)));
    assert done + Bytes(|s|) + s + Zeros(Padding(|s|)) == done + StringBytes(s);
  }

  /** The first three fields always fit; the cursor then stands behind them. */
  lemma HeadWritten(buffer: seq<byte>, m: Msg) returns (x3: Stream)
    requires Legal(m) && |buffer| == SIZE
    ensures x3 == PutString(PutInt(PutInt(Stream(buffer, 0), m.kind).0, m.usrId).0, Str(m.name), Strlen(m.name)).0
    ensures x3.pos == |Head(m)| && |x3.buf| == SIZE && x3.buf[..x3.pos] == Head(m)
  {
    var x0 := Stream(buffer, 0);
    PutAppends(x0, [], Bytes(Unsigned(m.kind)));
    var x1 := PutInt(x0, m.kind).0;
    var b1 := Bytes(Unsigned(m.kind));
    assert [] + b1 == b1;
    PutAppends(x1, b1, Bytes(Unsigned(m.usrId)));
    var x2 := PutInt(x1, m.usrId).0;
    PutStringAppends(x2, b1 + Bytes(Unsigned(m.usrId)), Str(m.name));
    x3 := PutString(x2, Str(m.name), Strlen(m.name)).0;
  }

  /** The number, when it does not fit: only its length gets written. */
  lemma NumberCut(x: Stream, head: seq<byte>, s: seq<byte>)
    requires |s| < WORD && x.pos == |head| <= SIZE == |x.buf| && x.buf[..x.pos] == head
    requires |head| % 4 == 0 && |head| + 4 <= SIZE < |head| + 4 + Pad4(|s|)
    ensures var y := PutString(x, s, |s|).0;
            |y.buf| == SIZE && y.buf[..|head| + 4] == head + Bytes(|s|)
    ensures |head| + 4 + |s| > SIZE
  {
    PutAppends(x, head, Bytes(|s|));
    var room := SIZE - |head| - 4;
    PadsUpTo(|s|, room);
  }

  lemma PadsUpTo(n: nat, room: nat)
    requires room % 4 == 0
    ensures n <= room <==> Pad4(n) <= room
  {
  }

  // ----- Reading back -----------------------------------------------------------------------------

  predicate At(x: Stream, w: seq<byte>) {
    x.pos + |w| <= |x.buf| && x.buf[x.pos..x.pos + |w|] == w
  }

  lemma PartIsThere(x: Stream, w: seq<byte>, i: nat, j: nat)
    requires At(x, w) && i <= j <= |w|
    ensures At(x.(pos := x.pos + i), w[i..j])
  {
    assert x.buf[x.pos..x.pos + |w|][i..j] == x.buf[x.pos + i..x.pos + j];
  }

  lemma GetsWhatIsThere(x: Stream, w: seq<byte>)
    requires At(x, w)
    ensures GetBytes(x, |w|) == (x.(pos := x.pos + |w|), w, true)
  {
  }

  lemma IntReads(x: Stream, v: int, old': int)
    requires Int32(v) && At(x, Bytes(Unsigned(v)))
    ensures GetInt(x, old') == (x.(pos := x.pos + 4), v, true)
  {
    GetsWhatIsThere(x, Bytes(Unsigned(v)));
    WordRoundTrip(Unsigned(v));
  }

  /** The three parts of a string on the wire. */
  lemma StringParts(x: Stream, s: seq<byte>)
    requires |s| < WORD && At(x, StringBytes(s))
    ensures At(x, Bytes(|s|))
    ensures At(x.(pos := x.pos + 4), s)
    ensures At(x.(pos := x.pos + 4 + |s|), Zeros(Padding(|s|)))
  {
    var b, n := StringBytes(s), |s|;
    assert b[0..4] == Bytes(n) && b[4..4 + n] == s && b[4 + n..|b|] == Zeros(Padding(n));
    PartIsThere(x, b, 0, 4);
    PartIsThere(x, b, 4, 4 + n);
    PartIsThere(x, b, 4 + n, |b|);
  }

  lemma StringReads(x: Stream, s: seq<byte>, dst: seq<byte>, maxsize: nat)
    requires |s| < WORD && |s| <= maxsize && |s| < |dst| && At(x, StringBytes(s))
    ensures GetString(x, dst, maxsize) == (x.(pos := x.pos + 4 + Pad4(|s|)), s + dst[|s| := 0][|s|..], true)
  {
    var n := |s|;
    StringParts(x, s);
    LengthReads(x, n);
    var x1 := x.(pos := x.pos + 4);
    GetsWhatIsThere(x1, s);
    GetsWhatIsThere(x1.(pos := x1.pos + n), Zeros(Padding(n)));
  }

  lemma LengthReads(x: Stream, n: nat)
    requires n < WORD && At(x, Bytes(n))
    ensures GetBytes(x, 4) == (x.(pos := x.pos + 4), Bytes(n), true) && Value(Bytes(n)) == n
  {
    GetsWhatIsThere(x, Bytes(n));
    WordRoundTrip(n);
  }

  /** Only the length is there: the destination gets a terminator and keeps its bytes. */
  lemma StringCut(x: Stream, n: nat, dst: seq<byte>, maxsize: nat)
    requires n < WORD && n <= maxsize && n < |dst| && At(x, Bytes(n)) && x.pos + 4 + n > |x.buf|
    ensures GetString(x, dst, maxsize).1 == dst[n := 0]
  {
    LengthReads(x, n);
  }

  lemma {:induction false} StrOf(s: seq<byte>, rest: seq<byte>)
    requires forall i :: 0 <= i < |s| ==> s[i] != 0
    requires rest != [] && rest[0] == 0
    ensures Str(s + rest) == s
  {
    if s == [] {
      assert s + rest == rest;
    } else {
      assert (s + rest)[1..] == s[1..] + rest;
      StrOf(s[1..], rest);
      assert Str(s + rest) == [s[0]] + Str(s[1..] + rest);
    }
  }

  /** The first three fields come back whatever else is in the buffer. */
  lemma HeadReads(buffer: seq<byte>, m: Msg, d: Msg) returns (x3: Stream)
    requires Legal(m) && Legal(d) && |buffer| == SIZE
    requires At(Stream(buffer, 0), Head(m))
    ensures var (x1, kind, ok1) := GetInt(Stream(buffer, 0), d.kind);
            var (x2, usrId, ok2) := GetInt(x1, d.usrId);
            var r := GetString(x2, d.name, NAME);
            kind == m.kind && usrId == m.usrId && Str(r.1) == Str(m.name) && x3 == r.0
    ensures x3 == Stream(buffer, |Head(m)|)
  {
    var h, x0 := Head(m), Stream(buffer, 0);
    assert buffer[..|h|] == h;
    assert At(x0, Bytes(Unsigned(m.kind))) by { assert buffer[0..4] == h[0..4]; }
    IntReads(x0, m.kind, d.kind);
    var x1 := Stream(buffer, 4);
    assert At(x1, Bytes(Unsigned(m.usrId))) by { assert buffer[4..8] == h[4..8]; }
    IntReads(x1, m.usrId, d.usrId);
    var x2 := Stream(buffer, 8);
    assert At(x2, StringBytes(Str(m.name))) by { assert buffer[8..|h|] == h[8..]; }
    StringReads(x2, Str(m.name), d.name, NAME);
    var n := Strlen(m.name);
    StrOf(Str(m.name), d.name[n := 0][n..]);
    x3 := Stream(buffer, |h|);
  }

  // ----- Main results -----------------------------------------------------------------------------

  /** A message that fits is laid out as the standard says: the two integers, then each string as its
      length, its bytes and zeros up to a multiple of four; 16 bytes and the padded strings in all. */
  lemma WireFormat(buffer: seq<byte>, m: Msg)
    requires Legal(m) && |buffer| == SIZE && Fits(m)
    ensures |Encode(buffer, m)| == SIZE
    ensures Encode(buffer, m)[..16 + Pad4(Strlen(m.name)) + Pad4(Strlen(m.number))]
            == Bytes(Unsigned(m.kind)) + Bytes(Unsigned(m.usrId)) + StringBytes(Str(m.name)) + StringBytes(Str(m.number))
  {
    var x3 := HeadWritten(buffer, m);
    PutStringAppends(x3, Head(m), Str(m.number));
  }

  /** The buffer of a message that fits: head and number one after the other. */
  lemma EncodedWhole(buffer: seq<byte>, m: Msg)
    requires Legal(m) && |buffer| == SIZE && Fits(m)
    ensures var w, h := Encode(buffer, m), |Head(m)|;
            |w| == SIZE && h <= SIZE && w[..h] == Head(m) && At(Stream(w, h), StringBytes(Str(m.number)))
  {
    WireFormat(buffer, m);
    TwoParts(Encode(buffer, m), Head(m), StringBytes(Str(m.number)));
  }

  lemma HeadRoom(m: Msg)
    requires Legal(m)
    ensures |Head(m)| % 4 == 0 && |Head(m)| + 4 <= SIZE
    ensures Fits(m) <==> |Head(m)| + 4 + Pad4(Strlen(m.number)) <= SIZE
  {
    var n := Strlen(m.name);
    assert n + Padding(n) <= 128 by { PadsUpTo(n, 128); }
  }

  /** The buffer of a message that does not fit: head and the number's length. */
  lemma EncodedCut(buffer: seq<byte>, m: Msg)
    requires Legal(m) && |buffer| == SIZE && !Fits(m)
    ensures var w, h, n := Encode(buffer, m), |Head(m)|, Strlen(m.number);
            |w| == SIZE && h <= SIZE && w[..h] == Head(m) && At(Stream(w, h), Bytes(n)) && h + 4 + n > SIZE
  {
    var w, b := Encode(buffer, m), Bytes(Strlen(m.number));
    var x3 := HeadWritten(buffer, m);
    assert w == PutString(x3, Str(m.number), Strlen(m.number)).0.buf;
    HeadRoom(m);
    NumberCut(x3, Head(m), Str(m.number));
    TwoParts(w, Head(m), b);
  }

  /** A buffer that starts with a + b. */
  lemma TwoParts(w: seq<byte>, a: seq<byte>, b: seq<byte>)
    requires |a| + |b| <= |w| && w[..|a| + |b|] == a + b
    ensures w[..|a|] == a && At(Stream(w, |a|), b)
  {
    assert w[..|a|] == w[..|a| + |b|][..|a|];
    assert w[|a|..|a| + |b|] == w[..|a| + |b|][|a|..];
  }

  lemma RoundTripFits(buffer: seq<byte>, m: Msg, d: Msg)
    requires Legal(m) && Legal(d) && |buffer| == SIZE && Fits(m)
    ensures Same(Decode(Encode(buffer, m), d), m)
  {
    EncodedWhole(buffer, m);
    var x := HeadReads(Encode(buffer, m), m, d);
    NumberReads(x, m, d);
  }

  lemma NumberReads(x: Stream, m: Msg, d: Msg)
    requires Legal(m) && Legal(d) && At(x, StringBytes(Str(m.number)))
    ensures Str(GetString(x, d.number, NUMBER).1) == Str(m.number)
  {
    StringReads(x, Str(m.number), d.number, NUMBER);
    var n := Strlen(m.number);
    StrOf(Str(m.number), d.number[n := 0][n..]);
  }

  /** What comes back when the message does not fit: everything but the number, and for the number
      whatever the destination held, cut to the length of the number sent. */
  lemma RoundTripCut(buffer: seq<byte>, m: Msg, d: Msg)
    requires Legal(m) && Legal(d) && |buffer| == SIZE && !Fits(m)
    ensures var r := Decode(Encode(buffer, m), d);
            && r.kind == m.kind && r.usrId == m.usrId && Str(r.name) == Str(m.name)
            && r.number == d.number[Strlen(m.number) := 0]
  {
    EncodedCut(buffer, m);
    var x := HeadReads(Encode(buffer, m), m, d);
    StringCut(x, Strlen(m.number), d.number, NUMBER);
  }

  /** For every legal message, buffer and destination: decoding what was encoded gives the same message
      exactly when the message fits, or the destination happened to hold the number already. */
  lemma RoundTripExactly(buffer: seq<byte>, m: Msg, d: Msg)
    requires Legal(m) && Legal(d) && |buffer| == SIZE
    ensures Same(Decode(Encode(buffer, m), d), m)
            <==> Fits(m) || d.number[..Strlen(m.number)] == Str(m.number)
  {
    if Fits(m) {
      RoundTripFits(buffer, m, d);
    } else {
      RoundTripCut(buffer, m, d);
      var n := Strlen(m.number);
      var cut := d.number[n := 0];
      if d.number[..n] == Str(m.number) {
        StrOf(Str(m.number), cut[n..]);
        assert cut == Str(m.number) + cut[n..];
      } else {
        assert d.number[..n] == cut[..n];
        assert Strlen(cut) == n ==> Str(cut) == cut[..n];
      }
    }
  }

  /** The round trip works for every destination exactly when the message fits. */
  lemma RoundTripGuaranteed(buffer: seq<byte>, m: Msg)
    requires Legal(m) && |buffer| == SIZE
    ensures (forall d :: Legal(d) ==> Same(Decode(Encode(buffer, m), d), m)) <==> Fits(m)
  {
    if Fits(m) {
      forall d | Legal(d) ensures Same(Decode(Encode(buffer, m), d), m) {
        RoundTripFits(buffer, m, d);
      }
    } else {
      var blank := Msg(0, 0, Zeros(NAME), Zeros(NUMBER));
      assert Legal(blank);
      RoundTripExactly(buffer, m, blank);
      var n := Strlen(m.number);
      assert n > 0;
      assert blank.number[..n][0] != Str(m.number)[0];
    }
  }

  /** Legal messages can need 168 bytes, which do not fit. */
  lemma LegalNeedNotFit()
    ensures exists m :: Legal(m) && 16 + Pad4(Strlen(m.name)) + Pad4(Strlen(m.number)) == 168 && !Fits(m)
  {
    var name: seq<byte> := seq(127, i => 65);
    var number: seq<byte> := seq(23, i => 49);
    StrOf(name, [0]);
    StrOf(number, [0]);
    assert Strlen(name + [0]) == |Str(name + [0])| && Strlen(number + [0]) == |Str(number + [0])|;
    assert Legal(Msg(0, 0, name + [0], number + [0]));
  }

  /** Decoding a string leaves a terminated string, whatever is in the buffer. */
  lemma StringStaysTerminated(x: Stream, dst: seq<byte>, maxsize: nat)
    requires Strlen(dst) < |dst|
    ensures var r := GetString(x, dst, maxsize).1; |r| == |dst| && Strlen(r) < |r|
  {
    var r := GetString(x, dst, maxsize).1;
    if r != dst {
      var n := Value(GetBytes(x, 4).1);
      assert r[n] == 0;
    }
  }

  /** Whatever bytes a peer sends: decoding them into a legal message leaves a legal message, and a string
      whose announced length exceeds its field leaves that field as it was. */
  lemma AnyBufferDecodes(buffer: seq<byte>, d: Msg)
    requires Legal(d)
    ensures Legal(Decode(buffer, d))
    ensures |buffer| >= 12 && Value(buffer[8..12]) > NAME ==> Decode(buffer, d).name == d.name
  {
    var (x1, kind, ok1) := GetInt(Stream(buffer, 0), d.kind);
    var (x2, usrId, ok2) := GetInt(x1, d.usrId);
    var (x3, name, ok3) := GetString(x2, d.name, NAME);
    StringStaysTerminated(x2, d.name, NAME);
    StringStaysTerminated(x3, d.number, NUMBER);
  }
}
