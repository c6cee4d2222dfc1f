/** From the serial line to the commands that leave it again: a value written by a
    slave passes the framer, the router, the pipe thread and the forwarding thread. */
module Pipeline {
  import opened Wrappers
  import opened Bytes
  import opened Framer
  import opened Router
  import opened HciCommands
  import opened MessageQueue
  import opened Relay
  import ConnTable

  /** The event for a write of `v` to handle 3 on connection 0; the status byte and
      two header bytes are arbitrary. */
  function WriteRequest(v: seq<byte>, status: byte, signature: byte, kind: byte): seq<byte>
    requires |v| <= 87
  {
    [0x04, 0xFF, |v| + 10, 0x12, 0x05, status, 0, 0, |v| + 4, signature, kind, 0x03, 0x00] + v
  }

  /** The buffer from byte 13 on looks like a command ("01") or a ping ("PB" ... "PE"). */
  predicate Diverted(p: Memory) {
    || (p[13] == 0x30 && p[14] == 0x31)
    || (p[13] == 0x50 && p[14] == 0x42 && p[31] == 0x50 && p[32] == 0x45)
  }

  /** The framer delivers the event whole, and it goes to pipe 0 exactly when it is
      not diverted; either way its connection is acknowledged. */
  lemma WriteIsRouted(before: Memory, v: seq<byte>, status: byte, signature: byte, kind: byte)
    requires |v| <= 87
    ensures var e := WriteRequest(v, status, signature, kind);
            var p := Over(e, before);
            && Feed(Ready(before), e).0 == Ready(p) && Feed(Ready(before), e).1 == [Frame(p, |e|)] && p[..|e|] == e
            && Route(p).ack == Some(0) && (Route(p).queue == Some(Pipe(0)) <==> !Diverted(p))
  {
    var e := WriteRequest(v, status, signature, kind);
    FeedEvent(before, e, []);
    assert e + [] == e;
    assert Feed(Ready(before), e).1 == [Frame(Over(e, before), |e|)];
    assert Feed(Ready(before), e).0 == Ready(Over(e, before));
    ChainIsTable(Over(e, before));
  }

  /** What the pipe thread makes of it, whatever its buffer held. */
  lemma WriteIsRepacked(v: seq<byte>, status: byte, signature: byte, kind: byte, buff: seq<byte>)
    requires |v| <= 87 && |buff| == CAPACITY
    ensures var p := Received(WriteRequest(v, status, signature, kind), buff);
            Forwardable(p) && Forwarded(p) == [0x00, 0x01, |v|] + v
  {
    var p := Received(WriteRequest(v, status, signature, kind), buff);
    assert p[13..13 + |v|] == v;
  }

  /** The event, of any code, that carries `v` behind an attribute handle on connection 0. */
  function Carrying(v: seq<byte>, low: byte, high: byte, status: byte, first: byte, second: byte): seq<byte>
    requires |v| <= 89
  {
    [0x04, 0xFF, |v| + 8, low, high, status, 0, 0, |v| + 2, first, second] + v
  }

  /** A notification (event 051B), and a prepared write of `v` to handle 3 (event 0516). */
  function Notification(v: seq<byte>, status: byte, first: byte, second: byte): seq<byte>
    requires |v| <= 89
  {
    Carrying(v, 0x1B, 0x05, status, first, second)
  }

  function PreparedWrite(v: seq<byte>, status: byte, first: byte, second: byte): seq<byte>
    requires |v| <= 87
  {
    Carrying([0x03, 0x00] + v, 0x16, 0x05, status, first, second)
  }

  lemma NotificationIsRouted(before: Memory, v: seq<byte>, status: byte, first: byte, second: byte)
    requires |v| <= 89
    ensures var e := Notification(v, status, first, second);
            var p := Over(e, before);
            && Feed(Ready(before), e).0 == Ready(p) && Feed(Ready(before), e).1 == [Frame(p, |e|)] && p[..|e|] == e
            && Route(p) == To(Pipe(0))
  {
    var e := Notification(v, status, first, second);
    FeedEvent(before, e, []);
    assert e + [] == e;
    assert Feed(Ready(before), e).1 == [Frame(Over(e, before), |e|)];
    ChainIsTable(Over(e, before));
  }

  /** A prepared write is routed like a write. */
  lemma PreparedWriteIsRouted(before: Memory, v: seq<byte>, status: byte, first: byte, second: byte)
    requires |v| <= 87
    ensures var e := PreparedWrite(v, status, first, second);
            var p := Over(e, before);
            && Feed(Ready(before), e).0 == Ready(p) && Feed(Ready(before), e).1 == [Frame(p, |e|)] && p[..|e|] == e
            && Route(p).ack == Some(0) && (Route(p).queue == Some(Pipe(0)) <==> !Diverted(p))
  {
    var e := PreparedWrite(v, status, first, second);
    FeedEvent(before, e, []);
    assert e + [] == e;
    assert Feed(Ready(before), e).1 == [Frame(Over(e, before), |e|)];
    assert e[11] == 0x03 && e[12] == 0x00;
    ChainIsTable(Over(e, before));
  }

  /** Every packet that is not a write request is repacked from its eleventh byte on,
      under direction 0, whatever the buffer held. */
  lemma OtherIsRepacked(v: seq<byte>, low: byte, high: byte, status: byte, first: byte, second: byte, buff: seq<byte>)
    requires |v| <= 89 && |buff| == CAPACITY && !(low == 0x12 && high == 0x05)
    ensures var p := Received(Carrying(v, low, high, status, first, second), buff);
            Forwardable(p) && Forwarded(p) == [0x00, 0x00, |v|] + v
  {
    var p := Received(Carrying(v, low, high, status, first, second), buff);
    assert p[11..11 + |v|] == v;
  }

  /** So a prepared write keeps its handle in front of the value. */
  lemma PreparedWriteIsRepacked(v: seq<byte>, status: byte, first: byte, second: byte, buff: seq<byte>)
    requires |v| <= 87 && |buff| == CAPACITY
    ensures var p := Received(PreparedWrite(v, status, first, second), buff);
            Forwardable(p) && Forwarded(p) == [0x00, 0x00, |v| + 2, 0x03, 0x00] + v
  {
    OtherIsRepacked([0x03, 0x00] + v, 0x16, 0x05, status, first, second, buff);
  }

  /** What is passed on under direction 0 causes no command. */
  lemma OtherIsNotForwarded(v: seq<byte>, buffer: seq<byte>, active: seq<bool>, slaveCount: nat, trace: seq<byte>)
    requires |v| <= 89 && |buffer| == CAPACITY
    ensures var m: seq<byte> := [0x00, 0x00, |v|] + v;
            && Direct(Received(m, buffer), |m|) == []
            && Offers(Received(m, buffer), active, slaveCount, trace) == Outcome([], trace, true)
  {
  }

  /** What the forwarding thread writes first: two commands that end in the value
      and count it in their length bytes. */
  lemma WriteIsForwarded(v: seq<byte>, buffer: seq<byte>)
    requires |v| <= 87 && |buffer| == CAPACITY
    ensures var m: seq<byte> := [0x00, 0x01, |v|] + v;
            var sent := Direct(Received(m, buffer), |m|);
            |sent| == 2 && CarriesValue(sent[0], v) && CarriesValue(sent[1], v)
  {
    var m: seq<byte> := [0x00, 0x01, |v|] + v;
    var b := Received(m, buffer);
    assert b[3..|m|] == v;
    RelayLengths(Notify(b, |m|));
    RelayLengths(WriteValue(b, |m|, 0));
    assert NotifyCommand(b, |m|)[9..] == v;
    assert WriteCommand(b, |m|)[8..] == v;
  }

  predicate CarriesValue(command: seq<byte>, v: seq<byte>) {
    Complete(command) && |v| <= |command| && command[|command| - |v|..] == v
  }

  /** End to end: for every value of 2 to 87 bytes that does not begin with "01" or
      "PB", and whatever was received, queued or buffered before, the two commands
      that leave end in exactly that value and count it in their length bytes. */
  lemma PayloadIsConserved(before: Memory, v: seq<byte>, status: byte, signature: byte, kind: byte,
                           buff: seq<byte>, buffer: seq<byte>)
    requires 2 <= |v| <= 87 && |buff| == CAPACITY && |buffer| == CAPACITY
    requires v[..2] != [0x30, 0x31] && v[..2] != [0x50, 0x42]
    ensures var frames := Feed(Ready(before), WriteRequest(v, status, signature, kind)).1;
            && |frames| == 1 && Route(frames[0].mem).queue == Some(Pipe(0))
            && |frames[0].Packet()| <= CAPACITY && Forwardable(Received(frames[0].Packet(), buff))
            && var m := Forwarded(Received(frames[0].Packet(), buff));
               && 3 <= |m| <= 94
               && var sent := Direct(Received(m, buffer), |m|);
                  |sent| == 2 && CarriesValue(sent[0], v) && CarriesValue(sent[1], v)
  {
    var e := WriteRequest(v, status, signature, kind);
    var p := Over(e, before);
    assert p[13] == v[0] && p[14] == v[1] && v[..2] == [v[0], v[1]];
    WriteIsRouted(before, v, status, signature, kind);
    WriteIsRepacked(v, status, signature, kind, buff);
    WriteIsForwarded(v, buffer);
  }

  /** The commands made from a write request are cut apart again exactly when its
      header declares a value, if only an empty one.  One that declares one byte too
      few is relayed as a message of two bytes, and no command after it is found. */
  lemma ShortHeaderBreaksStream(p: seq<byte>, buffer: seq<byte>)
    requires Forwardable(p) && IsWrite(p) && ValueLength(p) >= -1 && |buffer| == CAPACITY
    ensures var m := Forwarded(p);
            && |m| <= CAPACITY
            && var sent := Direct(Received(m, buffer), |m|);
               |sent| == 2 && (Cut(sent[0] + sent[1]) == Some(sent) <==> ValueLength(p) >= 0)
  {
    var m := Forwarded(p);
    var b := Received(m, buffer);
    assert b[0] == 0 && b[1] == 1;
    var notify, write := Notify(b, |m|), WriteValue(b, |m|, 0);
    var cs := [notify, write];
    assert Concat(cs) == Encode(notify) + Encode(write) by {
      assert cs[1..] == [write] && [write][1..] == [];
      assert Concat([write]) == Encode(write) + [];
    }
    assert EncodeAll(cs) == [Encode(notify), Encode(write)] by {
      assert cs[1..] == [write] && [write][1..] == [];
      assert EncodeAll([write]) == [Encode(write)] + [];
    }
    StreamIsSelfDelimiting(cs);
    assert notify in cs;
  }

  // ---------- the relay and the table ----------

  /** The connections the fan-out loops look at. */
  function ActiveFlags(t: ConnTable.Entries): (a: seq<bool>)
    ensures |a| == PEERS && forall x :: 0 <= x < PEERS ==> a[x] == (t[x].status == 1)
  {
    seq(PEERS, x requires 0 <= x < PEERS => t[x].status == 1)
  }

  /** The connection a message came from, or -1 for the cloud. */
  function Sender(b: seq<byte>): int
    requires b != []
  {
    if b[0] == 0xFF then -1 else b[0]
  }

  /** After any history of the table, a message that is relayed and gets all its
      responses is attempted for exactly the connections now active other than its
      sender, unless the count, taken when a link last ended, is still 0: then it is
      attempted for nobody.  That is so until the first link ends.  (Whom the commands
      name is another matter: see Relay.AttemptsNameConnectionZero.) */
  lemma RelayFollowsTheTable(es: seq<ConnTable.Event>, b: seq<byte>, trace: seq<byte>)
    requires ConnTable.InTable(es) && |b| == CAPACITY && b[0] != 0xEE && (b[0] == 0xFF || b[1] == 0x01)
    ensures var t := ConnTable.After(es);
            var o := Offers(b, ActiveFlags(t), ConnTable.SlaveCount(es), trace);
            && Ascending(o.log)
            && (forall x :: x in o.log ==> x < PEERS && t[x].status == 1 && x != Sender(b))
            && (o.finished ==>
                  forall x :: 0 <= x < PEERS ==>
                    (x in o.log <==> ConnTable.SlaveCount(es) > 0 && t[x].status == 1 && x != Sender(b)))
    ensures (forall e :: e in es ==> e.Connected?) ==>
            Offers(b, ActiveFlags(ConnTable.After(es)), ConnTable.SlaveCount(es), trace).log == []
  {
    FanOutCovers(ActiveFlags(ConnTable.After(es)), Sender(b), 0, trace, b[0] == 0xFF);
    if forall e :: e in es ==> e.Connected? { ConnTable.NothingCountedAtFirst(es); }
  }
}
