/** Where a completed packet goes (UartCmdRxThread.c, lines 118-286).

    The source is a chain of conditions in which the first match wins.  `Rule`
    follows that chain and names the matching condition by its line; `Destination`
    says what the rule does.  The reference is a table over the event code in which
    no entry depends on another. */
module Router {
  import opened Wrappers
  import opened Bytes
  import opened Framer

  /** The queues the router sends to.  Only pipe 0 has an initialised identifier. */
  datatype Queue = CommandResp | WriteRsp | PingRsp | Pipe(n: nat)

  /** At most one queue, the connection acknowledged, the connection terminated. */
  datatype Routing = Routing(queue: Option<Queue>, ack: Option<byte>, terminated: Option<uint16>)

  const NOWHERE := Routing(None, None, None)

  function To(q: Queue): Routing { Routing(Some(q), None, None) }

  /** The event code, and the field most rules compare with an opcode. */
  function Event(p: Memory): uint16 { Make16(p[4], p[3]) }
  function Opcode(p: Memory): uint16 { Make16(p[7], p[6]) }

  // ---------- the chain ----------

  /** The line of the first condition that holds; 283 when none does. */
  function Rule(p: Memory): int {
    var vendor := p[0] == EVENT && p[1] == 0xFF;
    if p[0] == EVENT && p[1] == 0x10 then 118
    else if vendor && Opcode(p) == 0xFC06 then 122
    else if vendor && Opcode(p) == 0xFC21 then 125
    else if vendor && Event(p) == 0x0604 then 128
    else if p[0] == EVENT && p[1] == 0x0E then 131
    else if p[0] == EVENT && p[1] == 0x0E then 133
    else if vendor && Event(p) == 0x0607 then 136
    else if vendor && Event(p) == 0x0508 then 140
    else if vendor && Event(p) == 0x0510 then 144
    else if vendor && Event(p) == 0x050A then 148
    else if vendor && Event(p) == 0x0502 then 152
    else if vendor && Event(p) == 0x0602 then 156
    else if vendor && Event(p) == 0x0603 then 160
    else if vendor && Event(p) == 0x067F then
      if Opcode(p) == 0xFDFD then 167
      else if Opcode(p) == 0xFD9B then 171
      else if Opcode(p) == 0xFD13 then 175
      else if Opcode(p) == 0xFD92 then 179
      else if Opcode(p) == 0xFDB6 then 184
      else if Opcode(p) == 0xFE30 then 189
      else if Opcode(p) == 0xFDFC || Opcode(p) == 0xFDFE then 193
      else if Opcode(p) == 0xFE06 || Opcode(p) == 0xFE07 then 196
      else if Opcode(p) == 0xFE06 || Opcode(p) == 0xFE08 then 199
      else 202
    else if vendor && Event(p) == 0x060D then 208
    else if vendor && Event(p) == 0x0605 then 212
    else if vendor && Event(p) == 0x0601 then 216
    else if vendor && Event(p) == 0x0509 then 220
    else if vendor && Event(p) == 0x0513 then 224
    else if vendor && Event(p) == 0x0606 then 228
    else if vendor && Event(p) == 0x051B then 240
    else if vendor && (Event(p) == 0x0512 || Event(p) == 0x0516) then 256
    else 283
  }

  /** The queue of a connection, by the low byte of its handle. */
  function PipeOf(connection: byte): Option<Queue> {
    if connection <= 3 then Some(Pipe(connection)) else None
  }

  /** The inner chain for write requests, lines 258-279. */
  function WriteQueue(p: Memory): Option<Queue> {
    if p[13] == 0x30 && p[14] == 0x31 then Some(CommandResp)
    else if p[11] == 0x05 || p[11] == 0x09 then Some(CommandResp)
    else if p[13] == 0x50 && p[14] == 0x42 && p[31] == 0x50 && p[32] == 0x45 then Some(PingRsp)
    else if Make16(p[12], p[11]) == 0x0003 then PipeOf(p[6])
    else None
  }

  function Destination(rule: int, p: Memory): Routing {
    match rule
    case 133 | 140 | 144 | 148 | 152 | 199 | 202 | 208 | 212 | 216 | 220 => To(CommandResp)
    case 171 | 179 => To(WriteRsp)
    case 228 => Routing(if p[8] == 0x3E then Some(CommandResp) else None, None, Some(Opcode(p)))
    case 240 => Routing(PipeOf(p[6]), None, None)
    case 256 => Routing(WriteQueue(p), Some(p[6]), None)
    case _ => NOWHERE
  }

  function Route(p: Memory): Routing { Destination(Rule(p), p) }

  // ---------- the table ----------

  /** Events handed to the central thread whatever else they carry. */
  predicate ForCentral(event: uint16) {
    event == 0x0502 || event == 0x0508 || event == 0x0509 || event == 0x050A || event == 0x0510
    || event == 0x0601 || event == 0x0605 || event == 0x060D
  }

  /** Command statuses that are only printed. */
  predicate Printed(opcode: uint16) {
    opcode == 0xFD13 || opcode == 0xFDB6 || opcode == 0xFDFC || opcode == 0xFDFD || opcode == 0xFDFE
    || opcode == 0xFE06 || opcode == 0xFE07 || opcode == 0xFE30
  }

  /** The two opcodes that swallow any vendor event, wherever its bytes 6 and 7 come from. */
  predicate Swallowed(p: Memory) { Opcode(p) == 0xFC06 || Opcode(p) == 0xFC21 }

  function Table(p: Memory): Routing {
    if p[0] != EVENT || p[1] != 0xFF || Swallowed(p) then NOWHERE
    else if ForCentral(Event(p)) then To(CommandResp)
    else match Event(p)
      case 0x067F =>
        if Opcode(p) == 0xFD92 || Opcode(p) == 0xFD9B then To(WriteRsp)
        else if Printed(Opcode(p)) then NOWHERE
        else To(CommandResp)
      case 0x0606 => Routing(if p[8] == 0x3E then Some(CommandResp) else None, None, Some(Opcode(p)))
      case 0x051B => Routing(PipeOf(p[6]), None, None)
      case 0x0512 => Routing(WriteQueue(p), Some(p[6]), None)
      case 0x0516 => Routing(WriteQueue(p), Some(p[6]), None)
      case _ => NOWHERE
  }

  /** The first-match chain is the table.  The second rule for event 0E never fires,
      and the FE06 alternative of line 199 never does. */
  lemma ChainIsTable(p: Memory)
    ensures Route(p) == Table(p)
    ensures Rule(p) != 133
    ensures Rule(p) == 199 ==> Opcode(p) == 0xFE08
  {
    var rule := Rule(p);
    if p[0] != EVENT || p[1] != 0xFF {
      assert rule == 118 || rule == 131 || rule == 283;
    } else if Swallowed(p) {
      assert rule == 122 || rule == 125;
    } else if Event(p) == 0x067F {
      assert 167 <= rule <= 202;
    }
  }

  // ---------- who gets what ----------

  predicate IsEvent(p: Memory, low: byte, high: byte) {
    p[0] == 0x04 && p[1] == 0xFF && p[3] == low && p[4] == high
  }

  /** A write request or a prepared one. */
  predicate IsWriteEvent(p: Memory) { IsEvent(p, 0x12, 0x05) || IsEvent(p, 0x16, 0x05) }

  predicate Kept(p: Memory) { !(p[7] == 0xFC && (p[6] == 0x06 || p[6] == 0x21)) }

  /** "01" at the start of the value, and "PB" there with "PE" eighteen bytes on. */
  predicate LooksLikeCommand(p: Memory) { p[13] == 0x30 && p[14] == 0x31 }
  predicate LooksLikePing(p: Memory) { p[13] == 0x50 && p[14] == 0x42 && p[31] == 0x50 && p[32] == 0x45 }

  /** The pipe of a connection gets its notifications, and what is written to handle 3 on
      it and looks like neither a command nor a ping. */
  lemma PipeGets(p: Memory, n: nat)
    ensures Route(p).queue == Some(Pipe(n))
            <==> && n <= 3 && p[6] == n && Kept(p)
                 && (|| IsEvent(p, 0x1B, 0x05)
                     || (&& IsWriteEvent(p) && p[11] == 0x03 && p[12] == 0x00
                         && !LooksLikeCommand(p) && !LooksLikePing(p)))
  {
    ChainIsTable(p);
  }

  /** The ping queue gets what is written and looks like a ping, except to the handles
      whose low byte is 5 or 9. */
  lemma PingGets(p: Memory)
    ensures Route(p).queue == Some(PingRsp)
            <==> IsWriteEvent(p) && Kept(p) && LooksLikePing(p) && p[11] != 0x05 && p[11] != 0x09
  {
    ChainIsTable(p);
  }

  /** The write-response queue gets the command statuses of the two relay commands. */
  lemma WriteRspGets(p: Memory)
    ensures Route(p).queue == Some(WriteRsp)
            <==> IsEvent(p, 0x7F, 0x06) && p[7] == 0xFD && (p[6] == 0x92 || p[6] == 0x9B)
  {
    ChainIsTable(p);
  }

  /** The central thread gets the rest: its own events, command statuses nobody else takes
      or prints, links that could not be established, and commands and configuration
      written by a slave. */
  lemma CommandRespGets(p: Memory)
    ensures Route(p).queue == Some(CommandResp)
            <==> Kept(p) &&
                 (|| IsEvent(p, 0x02, 0x05) || IsEvent(p, 0x08, 0x05) || IsEvent(p, 0x09, 0x05)
                  || IsEvent(p, 0x0A, 0x05) || IsEvent(p, 0x10, 0x05)
                  || IsEvent(p, 0x01, 0x06) || IsEvent(p, 0x05, 0x06) || IsEvent(p, 0x0D, 0x06)
                  || (IsEvent(p, 0x06, 0x06) && p[8] == 0x3E)
                  || (&& IsEvent(p, 0x7F, 0x06) && !Printed(Opcode(p))
                      && !(p[7] == 0xFD && (p[6] == 0x92 || p[6] == 0x9B)))
                  || (IsWriteEvent(p) && (LooksLikeCommand(p) || p[11] == 0x05 || p[11] == 0x09)))
  {
    ChainIsTable(p);
  }

  /** Every write is acknowledged to its connection, whatever becomes of it, and only a
      terminated link ends one. */
  lemma AcknowledgedExactly(p: Memory)
    ensures Route(p).ack == if IsWriteEvent(p) && Kept(p) then Some(p[6]) else None
    ensures Route(p).terminated
            == if IsEvent(p, 0x06, 0x06) && Kept(p) then Some(Make16(p[7], p[6])) else None
  {
    ChainIsTable(p);
  }

  // ---------- leftovers ----------

  predicate Routed(event: uint16) {
    || ForCentral(event) || event == 0x067F || event == 0x0606 || event == 0x051B
    || event == 0x0512 || event == 0x0516
  }

  /** The low bytes of those events, no two of which have the same. */
  predicate RoutedLow(low: byte) {
    || low == 0x02 || low == 0x08 || low == 0x09 || low == 0x0A || low == 0x10 || low == 0x01 || low == 0x05
    || low == 0x0D || low == 0x7F || low == 0x06 || low == 0x1B || low == 0x12 || low == 0x16
  }

  /** The high byte that makes a routed event of a low byte. */
  function HighOf(low: byte): byte {
    if low == 0x01 || low == 0x05 || low == 0x06 || low == 0x0D || low == 0x7F then 0x06 else 0x05
  }

  /** The low bytes of the opcodes that swallow, and of those with a meaning for 067F. */
  predicate SwallowLow(low: byte) { low == 0x06 || low == 0x21 }

  predicate StatusLow(low: byte) {
    || SwallowLow(low) || low == 0x92 || low == 0x9B || low == 0x13 || low == 0xB6 || low == 0xFC || low == 0xFD
    || low == 0xFE || low == 0x07 || low == 0x30
  }

  /** How many bytes the inner chain for write requests consults. */
  function NeededForWrite(p: Memory): nat {
    if p[11] == 0x05 || p[11] == 0x09 then 12
    else if p[13] == 0x30 then 15
    else if p[13] != 0x50 then 14
    else if p[14] != 0x42 then 15
    else if p[31] != 0x50 then 32
    else 33
  }

  /** How many bytes of a packet fix its destination. */
  function Needed(p: Memory): (n: nat)
    ensures 1 <= n <= 33
  {
    if p[0] != EVENT then 1
    else if p[1] != 0xFF then 2
    else if !RoutedLow(p[3]) then 4
    else if !Routed(Event(p)) then 5
    else if Event(p) == 0x051B then 7
    else if ForCentral(Event(p)) then (if SwallowLow(p[6]) then 8 else 7)
    else if Event(p) == 0x067F then (if StatusLow(p[6]) then 8 else 7)
    else if Swallowed(p) then 8
    else if Event(p) == 0x0606 then 9
    else NeededForWrite(p)
  }

  /** Every buffer that begins with the same `n` bytes goes to the same place. */
  ghost predicate Fixes(p: Memory, n: nat)
    requires n <= RX_SIZE
  {
    forall q: Memory :: q[..n] == p[..n] ==> Table(q) == Table(p)
  }

  lemma EventOf(p: Memory)
    ensures Routed(Event(p)) <==> RoutedLow(p[3]) && p[4] == HighOf(p[3])
  {
  }

  /** That many bytes are enough. */
  lemma NeededIsEnough(p: Memory, q: Memory)
    requires p[..Needed(p)] == q[..Needed(p)]
    ensures Table(q) == Table(p)
  {
    var n := Needed(p);
    assert forall k :: 0 <= k < n ==> p[k] == p[..n][k] == q[k];
    EventOf(p);
    EventOf(q);
  }

  /** Two buffers that go on differently after `n` bytes and go to different places. */
  lemma NotFixed(p: Memory, n: nat, q: Memory, r: Memory)
    requires n <= RX_SIZE && q[..n] == p[..n] && r[..n] == p[..n] && Table(q) != Table(r)
    ensures !Fixes(p, n)
  {
  }

  /** Fewer are not: up to byte 4, the rest may make it a routed event or none. */
  lemma FewerThanFive(p: Memory, n: nat)
    requires n < Needed(p) && n <= 4
    ensures !Fixes(p, n)
  {
    var low: byte := if n == 4 then p[3] else 0x01;
    var q := p[0 := EVENT][1 := 0xFF][3 := low][4 := HighOf(low)][6 := 0][7 := 0][8 := 0];
    var r := if n == 0 then p[0 := 0] else if n == 1 then p[1 := 0] else p[3 := low][4 := 0];
    EventOf(q);
    EventOf(r);
    NotFixed(p, n, q, r);
  }

  /** Up to byte 6, the opcode may swallow the event. */
  lemma FewerThanSeven(p: Memory, n: nat)
    requires n < Needed(p) && 5 <= n <= 6
    ensures !Fixes(p, n)
  {
    EventOf(p);
    NotFixed(p, n, p[6 := 0][7 := 0], p[6 := 0x06][7 := 0xFC]);
  }

  /** The high byte that gives an opcode a meaning for 067F, and one that does not. */
  function StatusHigh(low: byte): byte {
    if low == 0x21 then 0xFC
    else if low == 0x06 || low == 0x07 || low == 0x30 then 0xFE
    else 0xFD
  }

  /** Byte 7 decides what the opcode is, byte 8 what a termination is. */
  lemma FewerThanNine(p: Memory, n: nat)
    requires n < Needed(p) && 7 <= n <= 8 && Event(p) != 0x0512 && Event(p) != 0x0516
    ensures !Fixes(p, n)
  {
    EventOf(p);
    if Event(p) == 0x0606 && n == 7 {
      NotFixed(p, n, p[7 := 0], p[7 := 1]);
    } else if Event(p) == 0x0606 {
      NotFixed(p, n, p[8 := 0x3E], p[8 := 0]);
    } else if Event(p) == 0x067F {
      NotFixed(p, n, p[7 := 0], p[7 := StatusHigh(p[6])]);
    } else {
      NotFixed(p, n, p[7 := 0], p[7 := 0xFC]);
    }
  }

  /** A write request is decided as late as the chain of lines 258 to 279 says. */
  lemma FewerForWrite(p: Memory, n: nat)
    requires 7 <= n < Needed(p) && (Event(p) == 0x0512 || Event(p) == 0x0516)
    ensures !Fixes(p, n)
  {
    EventOf(p);
    if Swallowed(p) {
      NotFixed(p, n, p, p[7 := 0]);
    } else if n < 12 {
      NotFixed(p, n, p[11 := 0x05], p[11 := 0][13 := 0]);
    } else if n < 14 {
      NotFixed(p, n, p[13 := 0x30][14 := 0x31], p[13 := 0]);
    } else if p[13] == 0x30 {
      NotFixed(p, n, p[14 := 0x31], p[14 := 0]);
    } else if n == 14 {
      NotFixed(p, n, p[14 := 0x42][31 := 0x50][32 := 0x45], p[14 := 0]);
    } else {
      NotFixed(p, n, p[31 := 0x50][32 := 0x45], p[31 := 0x50][32 := 0]);
    }
  }

  /** The first `n` bytes fix where a packet goes exactly when they are as many as
      its rule needs. */
  lemma NeededIsExact(p: Memory, n: nat)
    requires n <= RX_SIZE
    ensures Fixes(p, n) <==> n >= Needed(p)
  {
    if n >= Needed(p) {
      forall q: Memory | q[..n] == p[..n] ensures Table(q) == Table(p) {
        assert q[..n][..Needed(p)] == q[..Needed(p)] && p[..n][..Needed(p)] == p[..Needed(p)];
        NeededIsEnough(p, q);
      }
    } else if n <= 4 {
      FewerThanFive(p, n);
    } else if n <= 6 {
      FewerThanSeven(p, n);
    } else if Event(p) == 0x0512 || Event(p) == 0x0516 {
      FewerForWrite(p, n);
    } else {
      FewerThanNine(p, n);
    }
  }

  /** The buffer after `e` has been received over `before`. */
  function Over(e: seq<byte>, before: Memory): Memory
    requires |e| <= 255
  {
    e + before[|e|..]
  }

  /** A packet goes to the same place whatever the buffer held before exactly when it
      is as long as its rule needs; 33 bytes are always enough. */
  lemma LeftoversDoNotMatter(e: seq<byte>, before: Memory)
    requires |e| <= 255
    ensures (forall other: Memory :: Route(Over(e, other)) == Route(Over(e, before)))
            <==> |e| >= Needed(Over(e, before))
  {
    var p := Over(e, before);
    NeededIsExact(p, |e|);
    assert p[..|e|] == e;
    if Fixes(p, |e|) {
      forall other: Memory ensures Route(Over(e, other)) == Route(p) {
        assert Over(e, other)[..|e|] == e;
        ChainIsTable(Over(e, other));
        ChainIsTable(p);
      }
    } else {
      var q: Memory :| q[..|e|] == p[..|e|] && Table(q) != Table(p);
      assert Over(e, q) == q;
      ChainIsTable(q);
      ChainIsTable(p);
      assert Route(Over(e, q)) != Route(p);
    }
  }

  /** The packet an event is delivered as, routed. */
  function RoutedAfter(mem: Memory, e: seq<byte>): Routing
    requires Feed(Ready(mem), e).1 != []
  {
    Route(Feed(Ready(mem), e).1[0].mem)
  }

  lemma Delivered(mem: Memory, e: seq<byte>)
    requires WellFormed(e) && 1 <= e[2] <= 252
    ensures Feed(Ready(mem), e).1 == [Frame(Over(e, mem), |e|)]
    ensures RoutedAfter(mem, e) == Route(Over(e, mem))
  {
    FeedEvent(mem, e, []);
    assert e + [] == e;
  }

  /** So, through the framer: what came over the line before matters for an event
      exactly when the event is shorter than its rule needs. */
  lemma TrafficDoesNotMatter(mem: Memory, e: seq<byte>)
    requires WellFormed(e) && 1 <= e[2] <= 252
    ensures forall other: Memory :: Feed(Ready(other), e).1 == [Frame(Over(e, other), |e|)]
    ensures (forall other: Memory :: RoutedAfter(other, e) == RoutedAfter(mem, e)) <==> |e| >= Needed(Over(e, mem))
  {
    forall other: Memory ensures Feed(Ready(other), e).1 == [Frame(Over(e, other), |e|)] { Delivered(other, e); }
    LeftoversDoNotMatter(e, mem);
    if |e| >= Needed(Over(e, mem)) {
      forall other: Memory ensures RoutedAfter(other, e) == RoutedAfter(mem, e) {
        Delivered(other, e);
        Delivered(mem, e);
        assert Route(Over(e, other)) == Route(Over(e, mem));
      }
    } else {
      var other: Memory :| Route(Over(e, other)) != Route(Over(e, mem));
      Delivered(other, e);
      Delivered(mem, e);
    }
  }

  /** For instance, a one-byte value '0' written to handle 3 on connection 0 is taken for a
      command when the byte left after it happens to complete one. */
  lemma ShortPacketDepends(before: Memory, status: byte, signature: byte, kind: byte)
    ensures var e: seq<byte> := [0x04, 0xFF, 11, 0x12, 0x05, status, 0, 0, 5, signature, kind, 3, 0, 0x30];
            && WellFormed(e) && |e| < Needed(Over(e, before))
            && Route(Over(e, before)).queue == Some(if before[14] == 0x31 then CommandResp else Pipe(0))
  {
    var e: seq<byte> := [0x04, 0xFF, 11, 0x12, 0x05, status, 0, 0, 5, signature, kind, 3, 0, 0x30];
    ChainIsTable(Over(e, before));
  }
}
