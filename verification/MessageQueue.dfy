/** The bounded-message queue of Msg_Def.c: sys_mq_send and sys_mq_recv copy bytes
    in and out of a structure with room for 100. */
module MessageQueue {
  import opened Bytes

  const CAPACITY := 100  // mtext

  class Queue {
    var messages: seq<seq<byte>>

    constructor ()
      ensures messages == []
    {
      messages := [];
    }

    /** Appends a copy of the first `size` bytes; the kernel accepts it. */
    method Send(buf: array<byte>, size: nat)
      requires size <= CAPACITY && size <= buf.Length
      modifies this
      ensures messages == old(messages) + [buf[..size]]
    {
      messages := messages + [buf[..size]];
    }

    /** Takes the oldest message; the call blocks while there is none.  Bytes of the
        buffer beyond the message keep their values. */
    method Recv(buf: array<byte>) returns (size: nat)
      requires messages != [] && |messages[0]| <= buf.Length
      modifies this, buf
      ensures size == |old(messages[0])| && messages == old(messages[1..])
      ensures buf[..] == old(messages[0] + buf[|messages[0]|..])
    {
      var m := messages[0];
      forall i | 0 <= i < |m| { buf[i] := m[i]; }
      messages := messages[1..];
      return |m|;
    }
  }
}
