/** The commands written to the Bluetooth module (CentralModeThread.c and
    UartCmdRxThread.c): `01 opcode-low opcode-high length parameters`, the HCI command
    packet of the Bluetooth Core Specification, Vol 4 Part E section 5.4.1.  Every
    builder writes its length byte as a constant or computes it on its own, so that
    the stream can be cut apart again is a fact about all of them together. */
module HciCommands {
  import opened Wrappers
  import opened Bytes

  const COMMAND: byte := 1  // PKT_COMMAND

  /** One constructor per builder. */
  datatype Command =
    | Reset
    | DeviceInit
    | ScanRequest
    | ScanCancel
    | EstablishLink(mac: Mac)                        // Scanned_MAC_Buff
    | EnableNotification(handle: uint16)
    | Acknowledge(handle: uint16)                    // Notify_Ack and data_ack
    | SetDataLength(mainHandle: uint16)
    | SetMaxDataLength
    | SetLocalFeatures
    | SetParameter(id: byte, interval: uint16)
    | SetTxPower
    | ReadAddress
    | Notify(buffer: seq<byte>, size: nat)           // Notify_data
    | WriteValue(buffer: seq<byte>, size: nat, connection: byte)  // GATT_WRITE_VALUE

  function Zeros(n: nat): seq<byte> { seq(n, _ => 0) }

  /** The bytes after the three-byte header of a relayed message. */
  function Payload(buffer: seq<byte>, size: nat): seq<byte> {
    if 3 <= size <= |buffer| then buffer[3..size] else []
  }

  /** What each builder hands to BLECOMWrite. */
  function Encode(c: Command): seq<byte> {
    match c
    case Reset => [1, 0x03, 0x0C, 0x00]
    case DeviceInit => [1, 0x00, 0xFE, 0x26, 0x08, 0x14] + Zeros(16) + Zeros(16) + Zeros(3) + [0x01]
    case ScanRequest => [1, 0x04, 0xFE, 0x03, 0x03, 0x01, 0x00]
    case ScanCancel => [1, 0x05, 0xFE, 0x00]
    case EstablishLink(m) => [1, 0x09, 0xFE, 0x09, 0x00, 0x00, 0x01, m[5], m[4], m[3], m[2], m[1], m[0]]
    case EnableNotification(h) => [1, 0x92, 0xFD, 0x06, Low(h), High(h), 0x00, 0x01, 0x01, 0x00]
    case Acknowledge(h) => [1, 0x13, 0xFD, 0x02, Low(h), High(h)]
    case SetDataLength(h) =>
      var target: uint16 := (h as int + 5) % 0x10000;
      [1, 0x22, 0x20, 0x06, Low(target), High(target), 0x36, 0x00, 0x48, 0x08]
    case SetMaxDataLength => [1, 0x21, 0xFC, 0x08, 54, 0x00, 0x90, 0x02, 54, 0x00, 0x90, 0x02]
    case SetLocalFeatures => [1, 0x06, 0xFC, 0x08] + Zeros(8)
    case SetParameter(id, interval) => [1, 0x30, 0xFE, 0x03, id, Low(interval), High(interval)]
    case SetTxPower => [1, 0x01, 0xFC, 0x01, 0x0C]
    case ReadAddress => [1, 0x09, 0x10, 0x00]
    case Notify(buffer, size) =>
      [1, 0x9B, 0xFD, (size - 3 + 5) % 256, 0x00, 0x00, 0x00, 0x07, 0x00] + Payload(buffer, size)
    case WriteValue(buffer, size, connection) =>
      [1, 0x92, 0xFD, (size - 3 + 4) % 256, connection, 0x00, 0x03, 0x00] + Payload(buffer, size)
  }

  /** The relays build their command in 100 bytes, from a message that is there. */
  predicate Built(c: Command) {
    match c
    case Notify(buffer, size) => size <= 94 && size <= |buffer|
    case WriteValue(buffer, size, _) => size <= 95 && size <= |buffer|
    case _ => true
  }

  /** A header whose length byte counts the bytes that follow it. */
  predicate Complete(b: seq<byte>) { |b| >= 4 && b[0] == COMMAND && |b| - 4 == b[3] }

  predicate TooShort(c: Command) {
    match c case Notify(_, size) => size < 3 case WriteValue(_, size, _) => size < 3 case _ => false
  }

  lemma ConstantLengths(c: Command)
    requires !c.Notify? && !c.WriteValue?
    ensures Complete(Encode(c))
  {
    if c.DeviceInit? {
      assert |Encode(c)| == 42;
    } else if c.SetLocalFeatures? {
      assert |Encode(c)| == 12;
    }
  }

  lemma RelayLengths(c: Command)
    requires Built(c) && (c.Notify? || c.WriteValue?)
    ensures Complete(Encode(c)) <==> !TooShort(c)
  {
    var extra := if c.Notify? then 5 else 4;
    assert |Encode(c)| == 4 + extra + |Payload(c.buffer, c.size)|;
    assert Encode(c)[0] == 1 && Encode(c)[3] == c.size - 3 + extra;
  }

  /** Every builder's length byte is right, except for relayed messages that are
      shorter than their own header. */
  lemma LengthsAreRight(c: Command)
    requires Built(c)
    ensures Complete(Encode(c)) <==> !TooShort(c)
  {
    if c.Notify? || c.WriteValue? { RelayLengths(c); } else { ConstantLengths(c); }
  }

  // ---------- what a command says ----------

  /** The opcodes of HCI_Commands.h, and the four that are written out in place. */
  function OpcodeOf(c: Command): uint16 {
    match c
    case Reset => 0x0C03
    case DeviceInit => 0xFE00
    case ScanRequest => 0xFE04
    case ScanCancel => 0xFE05
    case EstablishLink(_) => 0xFE09
    case EnableNotification(_) => 0xFD92
    case Acknowledge(_) => 0xFD13
    case SetDataLength(_) => 0x2022
    case SetMaxDataLength => 0xFC21
    case SetLocalFeatures => 0xFC06
    case SetParameter(_, _) => 0xFE30
    case SetTxPower => 0xFC01
    case ReadAddress => 0x1009
    case Notify(_, _) => 0xFD9B
    case WriteValue(_, _, _) => 0xFD92
  }

  /** Every command begins with its opcode, low byte first. */
  lemma OpcodeIsRight(c: Command)
    ensures |Encode(c)| >= 4 && Encode(c)[0] == COMMAND
    ensures Make16(Encode(c)[2], Encode(c)[1]) == OpcodeOf(c)
  {
  }

  lemma HalvesMake(n: uint16)
    ensures Make16(High(n), Low(n)) == n
  {
  }

  /** The parameters that vary are found again where the module looks for them: handles
      and intervals low byte first, the address from its last byte on, the attribute
      handle (7 for a notification, 3 for a write) in front of the payload. */
  lemma ParametersAreThere(c: Command)
    ensures var e := Encode(c);
            match c
            case EstablishLink(m) => |e| == 13 && forall i :: 0 <= i < 6 ==> e[12 - i] == m[i]
            case EnableNotification(h) => |e| == 10 && Make16(e[5], e[4]) == h
            case Acknowledge(h) => |e| == 6 && Make16(e[5], e[4]) == h
            case SetDataLength(h) => |e| == 10 && Make16(e[5], e[4]) as int == (h + 5) % 0x10000
            case SetParameter(id, interval) => |e| == 7 && e[4] == id && Make16(e[6], e[5]) == interval
            case Notify(buffer, size) =>
              |e| >= 9 && Make16(e[5], e[4]) == 0 && Make16(e[8], e[7]) == 7 && e[9..] == Payload(buffer, size)
            case WriteValue(buffer, size, connection) =>
              |e| >= 8 && Make16(e[5], e[4]) == connection && Make16(e[7], e[6]) == 3 && e[8..] == Payload(buffer, size)
            case _ => true
  {
    match c
    case EnableNotification(h) => HalvesMake(h);
    case Acknowledge(h) => HalvesMake(h);
    case SetDataLength(h) => HalvesMake((h as int + 5) % 0x10000);
    case SetParameter(id, interval) => HalvesMake(interval);
    case _ =>
  }

  // ---------- the outgoing stream ----------

  function Concat(cs: seq<Command>): seq<byte> {
    if cs == [] then [] else Encode(cs[0]) + Concat(cs[1..])
  }

  function EncodeAll(cs: seq<Command>): seq<seq<byte>> {
    if cs == [] then [] else [Encode(cs[0])] + EncodeAll(cs[1..])
  }

  /** Cuts a stream into commands by their headers alone. */
  function Cut(s: seq<byte>): Option<seq<seq<byte>>>
    decreases |s|
  {
    if s == [] then Some([])
    else if |s| < 4 || s[0] != COMMAND || |s| - 4 < s[3] then None
    else
      var n := 4 + s[3] as int;
      match Cut(s[n..]) case None => None case Some(more) => Some([s[..n]] + more)
  }

  /** A command whose length byte is right is cut off whole. */
  lemma CutFirst(c: Command, rest: seq<byte>)
    requires Built(c) && !TooShort(c)
    ensures Cut(Encode(c) + rest) == match Cut(rest) case None => None case Some(more) => Some([Encode(c)] + more)
  {
    LengthsAreRight(c);
    var b := Encode(c);
    assert (b + rest)[..|b|] == b && (b + rest)[|b|..] == rest;
  }

  /** A relayed message of fewer than three bytes spoils the stream, whatever follows:
      the cut falls inside its own header. */
  lemma ShortRelayBreaksStream(c: Command, rest: seq<byte>)
    requires Built(c) && TooShort(c)
    ensures Cut(Encode(c) + rest) == None
  {
    var b := Encode(c);
    var s, n := b + rest, 4 + b[3] as int;
    assert s[3] == b[3] == (c.size - 3 + if c.Notify? then 5 else 4) % 256;
    assert n < |b| && s[n..][0] == b[n];
    assert b[n] != COMMAND;
    assert Cut(s[n..]) == None;
  }

  /** A sequence of commands is cut apart into exactly those commands if and only if
      no relayed message in it is shorter than its own header; otherwise it is not
      cut apart at all. */
  lemma {:induction false} StreamIsSelfDelimiting(cs: seq<Command>)
    requires forall c :: c in cs ==> Built(c)
    ensures Cut(Concat(cs)) == if forall c :: c in cs ==> !TooShort(c) then Some(EncodeAll(cs)) else None
  {
    if cs != [] {
      var rest := cs[1..];
      assert forall c :: c in cs <==> c == cs[0] || c in rest;
      if TooShort(cs[0]) {
        ShortRelayBreaksStream(cs[0], Concat(rest));
      } else {
        StreamIsSelfDelimiting(rest);
        CutFirst(cs[0], Concat(rest));
      }
    }
  }

  /** So two sequences of commands that make the same stream are the same bytes,
      command by command. */
  lemma StreamIsUnambiguous(cs: seq<Command>, ds: seq<Command>)
    requires forall c :: c in cs ==> Built(c) && !TooShort(c)
    requires forall d :: d in ds ==> Built(d) && !TooShort(d)
    requires Concat(cs) == Concat(ds)
    ensures EncodeAll(cs) == EncodeAll(ds)
  {
    StreamIsSelfDelimiting(cs);
    StreamIsSelfDelimiting(ds);
  }
}
