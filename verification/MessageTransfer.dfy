/** A message from one process to another (TCP_xdr_client.c, TCP_xdr_server.c): encoded, sent over
    partial non-blocking calls, received over others, and decoded. */
module MessageTransfer {
  import opened Basics
  import opened XdrCodec
  import opened XdrInPlace
  import opened PartialIo

  /** Whatever the chunks on either side, the message that arrives is the message that was sent, for
      every message that fits. */
  method SendMessage(m: MsgXdr, d: MsgXdr, buffer: array<byte>, other: array<byte>,
                     sendScript: seq<Answer>, recvScript: seq<Answer>)
    requires m.Valid() && d.Valid() && Legal(m.View()) && Legal(d.View())
    requires buffer.Length == other.Length == SIZE
    requires m != d && m.name != d.name && m.name != d.number && m.number != d.name && m.number != d.number
    requires buffer != other && buffer != m.name && buffer != m.number && buffer != d.name && buffer != d.number
    requires other != m.name && other != m.number && other != d.name && other != d.number
    requires SendSplits(sendScript, SIZE) && RecvSplits(recvScript, SIZE, RETRY)
    modifies buffer, other, d, d.name, d.number
    ensures m.View() == old(m.View())
    ensures Fits(m.View()) ==> Same(d.View(), m.View())
    ensures Same(d.View(), m.View()) <==>
              Fits(m.View()) || old(d.View()).number[..Strlen(m.View().number)] == Str(m.View().number)
  {
    ghost var was, msg := buffer[..], m.View();
    XEncodeMsg(buffer, m);
    var sent, received := Transfer(buffer, sendScript, recvScript, other);
    RoundTripExactly(was, msg, d.View());
    XDecodeMsg(other, d);
  }
}
