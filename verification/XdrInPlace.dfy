/** The codec in place (xdr_common_endc.c): a cursor advances over a buffer that encoding fills, and
    decoding fills the fields of the message it is given. */
module XdrInPlace {
  import opened Basics
  import opened XdrCodec

  /** struct MsgXdr */
  class MsgXdr {
    var kind: int
    var usrId: int
    const name: array<byte>
    const number: array<byte>

    ghost predicate Valid()
    {
      name.Length == NAME && number.Length == NUMBER && name != number
    }

    ghost function View(): Msg
      reads this, name, number
    {
      Msg(kind, usrId, name[..], number[..])
    }

    /** A zeroed message. */
    constructor ()
      ensures Valid() && fresh(name) && fresh(number)
      ensures View() == Msg(0, 0, Zeros(NAME), Zeros(NUMBER))
    {
      kind, usrId := 0, 0;
      name := new byte[NAME](i => 0);
      number := new byte[NUMBER](i => 0);
    }
  }

  /** strlen of a terminated string. */
  method StrlenOf(a: array<byte>) returns (n: nat)
    ensures n == Strlen(a[..])
  {
    n := 0;
    while n < a.Length && a[n] != 0
      invariant 0 <= n <= a.Length
      invariant Strlen(a[..]) == n + Strlen(a[n..])
    {
      assert a[n..][1..] == a[n + 1..];
      n := n + 1;
    }
  }

  /** memcpy of data to dst + at */
  method Copy(dst: array<byte>, at: nat, data: seq<byte>)
    requires at + |data| <= dst.Length
    modifies dst
    ensures dst[..] == old(dst[..])[..at] + data + old(dst[..])[at + |data|..]
  {
    for i := 0 to |data|
      invariant forall j :: 0 <= j < dst.Length ==> dst[j] == if at <= j < at + i then data[j - at] else old(dst[j])
    {
      dst[at + i] := data[i];
    }
  }

  /** An XDR memory stream. */
  class XdrMem {
    const buf: array<byte>
    var pos: nat

    ghost function View(): Stream
      reads this, buf
    {
      Stream(buf[..], pos)
    }

    /** xdrmem_create */
    constructor (buf: array<byte>)
      ensures this.buf == buf && pos == 0
    {
      this.buf := buf;
      pos := 0;
    }

    method Put(data: seq<byte>) returns (ok: bool)
      modifies this, buf
      ensures (View(), ok) == PutBytes(old(View()), data)
    {
      if buf.Length < pos + |data| {
        return false;
      }
      Copy(buf, pos, data);
      pos := pos + |data|;
      return true;
    }

    method Get(n: nat) returns (data: seq<byte>, ok: bool)
      modifies this`pos
      ensures (View(), data, ok) == GetBytes(old(View()), n)
    {
      if buf.Length < pos + n {
        return [], false;
      }
      data, ok := buf[pos..pos + n], true;
      pos := pos + n;
    }

    /** xdr_int while encoding */
    method EncodeInt(v: int) returns (ok: bool)
      requires Int32(v)
      modifies this, buf
      ensures (View(), ok) == PutInt(old(View()), v)
    {
      ok := Put(Bytes(Unsigned(v)));
    }

    /** xdr_string while encoding */
    method EncodeString(s: seq<byte>, maxsize: nat) returns (ok: bool)
      requires |s| < WORD
      modifies this, buf
      ensures (View(), ok) == PutString(old(View()), s, maxsize)
    {
      if |s| > maxsize {
        return false;
      }
      ok := Put(Bytes(|s|));
      if ok {
        ok := Put(s);
        if ok {
          ok := Put(Zeros(Padding(|s|)));
        }
      }
    }

    /** xdr_int while decoding, into a variable that holds `was` */
    method DecodeInt(was: int) returns (v: int, ok: bool)
      modifies this`pos
      ensures (View(), v, ok) == GetInt(old(View()), was)
    {
      var b, got := Get(4);
      if got {
        return Signed(Value(b)), true;
      }
      return was, false;
    }

    /** xdr_string while decoding, into dst */
    method DecodeString(dst: array<byte>, maxsize: nat) returns (ok: bool)
      requires dst != buf
      modifies this`pos, dst
      ensures (View(), dst[..], ok) == GetString(old(View()), old(dst[..]), maxsize)
    {
      var b, got := Get(4);
      if !got {
        return false;
      }
      var n := Value(b);
      if n > maxsize || n >= dst.Length {
        return false;
      }
      dst[n] := 0;
      ghost var ended := dst[..];
      var data, all := Get(n);
      if !all {
        return false;
      }
      Copy(dst, 0, data);
      assert dst[..] == data + ended[n..];
      var crud;
      crud, ok := Get(Padding(n));
    }
  }

  method XEncodeMsg(buffer: array<byte>, m: MsgXdr)
    requires m.Valid() && Legal(m.View()) && buffer.Length == SIZE && buffer != m.name && buffer != m.number
    modifies buffer
    ensures buffer[..] == Encode(old(buffer[..]), m.View())
  {
    var xdrs := new XdrMem(buffer);
    var n := StrlenOf(m.name);
    var k := StrlenOf(m.number);
    var r := xdrs.EncodeInt(m.kind);
    r := xdrs.EncodeInt(m.usrId);
    r := xdrs.EncodeString(m.name[..n], n);
    r := xdrs.EncodeString(m.number[..k], k);
  }

  method XDecodeMsg(buffer: array<byte>, m: MsgXdr)
    requires m.Valid() && buffer.Length == SIZE && buffer != m.name && buffer != m.number
    modifies m, m.name, m.number
    ensures m.View() == Decode(old(buffer[..]), old(m.View()))
  {
    var xdrs := new XdrMem(buffer);
    var r;
    m.kind, r := xdrs.DecodeInt(m.kind);
    m.usrId, r := xdrs.DecodeInt(m.usrId);
    r := xdrs.DecodeString(m.name, NAME);
    r := xdrs.DecodeString(m.number, NUMBER);
  }
}
