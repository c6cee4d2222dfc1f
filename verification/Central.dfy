/** The central thread (CentralModeThread.c): it scans, recognises one kind of
    advertisement, cancels the scan and asks for a link.

    One turn is one pass through the `while(1)` of lines 673-783.  What the world
    decides is an input: whether a write to the module was complete, which message
    comes next on the command-response queue, whether four connections are active.
    Functions that run off their end are taken to return their `status`. */
module Central {
  import opened Bytes
  import opened HciCommands

  /** The states that can be reached; Linked is the endless loop after bond(). */
  datatype State =
    | Start | ScanReq | ScanData | CancelReq | CancelRsp | LinkReq | LinkRsp | Linked

  type Buffer = b: seq<byte> | |b| == 256 witness seq(256, _ => 0)

  /** The globals: messages are received over what the last one left in the buffer. */
  datatype Machine = Machine(state: State, buffer: Buffer, mac: Mac, handle: uint16)

  datatype Input = Input(written: bool, message: seq<byte>, full: bool)

  datatype Action = Wrote(command: Command) | Failed(command: Command) | Got(buffer: Buffer)

  /** -1 in a uint8_t: line 710 compares it with -1, which is never true. */
  const FAIL: byte := 255

  function Receive(b: Buffer, message: seq<byte>): Buffer {
    if |message| <= 256 then message + b[|message|..] else message[..256]
  }

  function Send(c: Command, i: Input): Action { if i.written then Wrote(c) else Failed(c) }

  predicate Vendor(b: Buffer) { b[0] == 0x04 && b[1] == 0xFF }
  function Event(b: Buffer): uint16 { Make16(b[4], b[3]) }
  function Opcode(b: Buffer): uint16 { Make16(b[7], b[6]) }

  /** An advertisement report with the three fields that are looked for. */
  predicate Matches(b: Buffer) {
    && Vendor(b) && Event(b) == 0x060D
    && Make16(b[16], b[17]) == 0x0201 && Make16(b[21], b[22]) == 0x9ECA && Make16(b[23], b[24]) == 0xDC24
  }

  /** Six bytes read backwards from position `last`. */
  function Backwards(b: Buffer, last: nat): Mac
    requires 5 <= last < 256
  {
    [b[last], b[last - 1], b[last - 2], b[last - 3], b[last - 4], b[last - 5]]
  }

  /** Device_Scan_Rsp. */
  function ScanRspStatus(b: Buffer): byte {
    if Vendor(b) && Event(b) == 0x067F && Opcode(b) == 0xFE04 && b[5] == 0x00 then 0 else FAIL
  }

  /** Device_Scan_Data. */
  function ScanDataStatus(b: Buffer): byte {
    if Matches(b) then 2 else if Vendor(b) && Event(b) == 0x0601 then 1 else FAIL
  }

  /** Device_Scan_Cancel_Rsp. */
  function CancelRspStatus(b: Buffer): byte {
    if Vendor(b) && Event(b) == 0x0601 && b[5] == 0x30 then 0 else FAIL
  }

  /** Device_Establish_Link_Rsp. */
  function LinkRspStatus(b: Buffer): byte {
    if !Vendor(b) then 5
    else if Event(b) == 0x0605 then 0
    else if Event(b) == 0x0606 then (if b[8] == 0x3E then 2 else FAIL)
    else if Opcode(b) == 0xFE08 then 3
    else FAIL
  }

  /** One turn: the new globals, and what was written and received. */
  function Turn(m: Machine, i: Input): (Machine, seq<Action>) {
    var b := Receive(m.buffer, i.message);
    match m.state
    case Start => (m.(state := ScanReq), [])
    case ScanReq =>
      if i.full then (m.(state := Start), [])
      else if !i.written then (m.(state := Start), [Failed(ScanRequest)])
      else (m.(buffer := b, state := if ScanRspStatus(b) == 0 then ScanData else Start), [Wrote(ScanRequest), Got(b)])
    case ScanData =>
      var status := ScanDataStatus(b);
      (m.(buffer := b,
          mac := if status == 2 then Backwards(b, 13) else m.mac,
          state := if status == 2 then CancelReq else if status == 1 then ScanReq else ScanData), [Got(b)])
    case CancelReq => (m.(state := if i.written then CancelRsp else CancelReq), [Send(ScanCancel, i)])
    case CancelRsp => (m.(buffer := b, state := if CancelRspStatus(b) == 0 then LinkReq else CancelRsp), [Got(b)])
    case LinkReq => (m.(state := if i.written then LinkRsp else LinkReq), [Send(EstablishLink(m.mac), i)])
    case LinkRsp =>
      if LinkRspStatus(b) == 0
      then (Machine(Linked, b, Backwards(b, 12), Make16(b[14], b[13])), [Got(b)])
      else (m.(buffer := b), [Got(b)])
    case Linked => (m, [])
  }

  // ---------- the thread ----------

  class Thread {
    var state: State
    var mac: Mac
    var handle: uint16
    const buffer: array<byte>
    var log: seq<Action>

    constructor ()
      ensures state == Start && log == [] && buffer.Length == 256 && fresh(buffer)
    {
      state, mac, handle, log := Start, [0, 0, 0, 0, 0, 0], 0, [];
      buffer := new byte[256];
    }

    ghost function View(): Machine
      requires buffer.Length == 256
      reads this, buffer
    {
      Machine(state, buffer[..], mac, handle)
    }

    /** BLECOMWrite and the status made of its result. */
    method Write(c: Command, i: Input) returns (status: byte)
      modifies this`log
      ensures log == old(log) + [Send(c, i)] && (status == 0 <==> i.written)
    {
      log := log + [Send(c, i)];
      status := if i.written then 0 else FAIL;
    }

    /** sys_mq_recv into the global buffer. */
    method Recv(i: Input)
      requires buffer.Length == 256
      modifies this`log, buffer
      ensures buffer[..] == Receive(old(buffer[..]), i.message)
      ensures log == old(log) + [Got(buffer[..])]
    {
      var n := if |i.message| <= 256 then |i.message| else 256;
      forall k | 0 <= k < n { buffer[k] := i.message[k]; }
      log := log + [Got(buffer[..])];
    }

    method DeviceScanReq(i: Input) returns (status: byte)
      requires buffer.Length == 256
      modifies this`log, buffer
      ensures !i.full && i.written ==>
              var b := Receive(old(buffer[..]), i.message);
              buffer[..] == b && log == old(log) + [Wrote(ScanRequest), Got(b)] && status == ScanRspStatus(b)
      ensures i.full || !i.written ==>
              status == FAIL && buffer[..] == old(buffer[..])
              && log == old(log) + if i.full then [] else [Failed(ScanRequest)]
    {
      if i.full { return FAIL; }
      status := Write(ScanRequest, i);
      if status != 0 { return FAIL; }
      Recv(i);
      if buffer[0] == 0x04 && buffer[1] == 0xFF {
        if Make16(buffer[4], buffer[3]) == 0x067F {
          if Make16(buffer[7], buffer[6]) == 0xFE04 {
            if buffer[5] == 0x00 { return 0; }
          }
        }
      }
      return FAIL;
    }

    method DeviceScanData(i: Input) returns (status: byte)
      requires buffer.Length == 256
      modifies this`log, this`mac, buffer
      ensures buffer[..] == Receive(old(buffer[..]), i.message) && log == old(log) + [Got(buffer[..])]
      ensures status == ScanDataStatus(buffer[..])
      ensures mac == if status == 2 then Backwards(buffer[..], 13) else old(mac)
    {
      Recv(i);
      status := FAIL;
      if buffer[0] == 0x04 && buffer[1] == 0xFF {
        if Make16(buffer[4], buffer[3]) == 0x060D {
          if && Make16(buffer[16], buffer[17]) == 0x0201 && Make16(buffer[21], buffer[22]) == 0x9ECA
             && Make16(buffer[23], buffer[24]) == 0xDC24 {
            mac := [buffer[13], buffer[12], buffer[11], buffer[10], buffer[9], buffer[8]];
            return 2;
          }
        } else if Make16(buffer[4], buffer[3]) == 0x0601 {
          status := 1;
        }
      }
    }

    method DeviceScanCancelRsp(i: Input) returns (status: byte)
      requires buffer.Length == 256
      modifies this`log, buffer
      ensures buffer[..] == Receive(old(buffer[..]), i.message) && log == old(log) + [Got(buffer[..])]
      ensures status == CancelRspStatus(buffer[..])
    {
      Recv(i);
      status := FAIL;
      if buffer[0] == 0x04 && buffer[1] == 0xFF {
        if Make16(buffer[4], buffer[3]) == 0x0601 {
          if buffer[5] == 0x30 { status := 0; }
        }
      }
    }

    method DeviceEstablishLinkRsp(i: Input) returns (status: byte)
      requires buffer.Length == 256
      modifies this`log, this`mac, this`handle, buffer
      ensures buffer[..] == Receive(old(buffer[..]), i.message) && log == old(log) + [Got(buffer[..])]
      ensures status == LinkRspStatus(buffer[..])
      ensures mac == if status == 0 then Backwards(buffer[..], 12) else old(mac)
      ensures handle == if status == 0 then Make16(buffer[14], buffer[13]) else old(handle)
    {
      Recv(i);
      status := FAIL;
      if buffer[0] == 0x04 && buffer[1] == 0xFF {
        if Make16(buffer[4], buffer[3]) == 0x0605 {
          mac := [buffer[12], buffer[11], buffer[10], buffer[9], buffer[8], buffer[7]];
          handle := Make16(buffer[14], buffer[13]);
          return 0;
        } else if Make16(buffer[4], buffer[3]) == 0x0606 {
          if buffer[8] == 0x3E { return 2; }
        } else if Make16(buffer[7], buffer[6]) == 0xFE08 {
          return 3;
        }
      } else {
        return 5;
      }
    }

    /** The switch on CentralState. */
    method Pass(i: Input)
      requires buffer.Length == 256
      modifies this, buffer
      ensures View() == Turn(old(View()), i).0
      ensures log == old(log) + Turn(old(View()), i).1
    {
      var status := FAIL;
      match state
      case Start =>
        state := ScanReq;
      case ScanReq =>
        status := DeviceScanReq(i);
        state := if status == 0 then ScanData else Start;
      case ScanData =>
        status := DeviceScanData(i);
        if status == 1 {
          state := ScanReq;
        } else if status == 2 {
          state := CancelReq;
        }
      case CancelReq =>
        status := Write(ScanCancel, i);
        if status == 0 { state := CancelRsp; }
      case CancelRsp =>
        status := DeviceScanCancelRsp(i);
        if status == 0 { state := LinkReq; }
      case LinkReq =>
        status := Write(EstablishLink(mac), i);
        if status == 0 { state := LinkRsp; }
      case LinkRsp =>
        status := DeviceEstablishLinkRsp(i);
        if status == 0 { state := Linked; }
      case Linked =>
    }
  }

  // ---------- runs ----------

  /** `ms[k]` is the machine before turn `k`; any inputs may come. */
  ghost predicate IsRun(ms: seq<Machine>, ins: seq<Input>) {
    && |ms| == |ins| + 1 && ms[0].state == Start
    && forall k {:trigger ins[k]} :: 0 <= k < |ins| ==> ms[k + 1] == Turn(ms[k], ins[k]).0
  }

  /** How far the thread has come: matched, cancelled, confirmed, requested, linked. */
  function Rank(s: State): nat {
    match s
    case Start => 0 case ScanReq => 0 case ScanData => 0
    case CancelReq => 1 case CancelRsp => 2 case LinkReq => 3 case LinkRsp => 4 case Linked => 5
  }

  function Actions(ms: seq<Machine>, ins: seq<Input>, k: nat): seq<Action>
    requires k < |ins| && k < |ms|
  {
    Turn(ms[k], ins[k]).1
  }

  /** Turn `k` takes an advertisement that matches. */
  predicate MatchTurn(ms: seq<Machine>, ins: seq<Input>, k: nat)
    requires k < |ins| && k < |ms|
  {
    ms[k].state == ScanData && Matches(Receive(ms[k].buffer, ins[k].message))
  }

  /** Turn `k` receives the end of the scan with status 0x30. */
  predicate ConfirmTurn(ms: seq<Machine>, ins: seq<Input>, k: nat)
    requires k < |ins| && k < |ms|
  {
    var b := Receive(ms[k].buffer, ins[k].message);
    Actions(ms, ins, k) == [Got(b)] && Vendor(b) && Event(b) == 0x0601 && b[5] == 0x30
  }

  /** Bytes 8 to 13 of the advertisement taken in turn `k`, in the order received. */
  function Advertised(ms: seq<Machine>, ins: seq<Input>, k: nat): seq<byte>
    requires k < |ins| && k < |ms|
  {
    Receive(ms[k].buffer, ins[k].message)[8..14]
  }

  /** The thread never goes back, except between the first three states. */
  lemma {:induction false} RankGrows(ms: seq<Machine>, ins: seq<Input>, j: nat, k: nat)
    requires IsRun(ms, ins) && j <= k < |ms|
    ensures Rank(ms[j].state) <= Rank(ms[k].state)
    decreases k - j
  {
    if j < k {
      assert ms[j + 1] == Turn(ms[j], ins[j]).0;
      RankGrows(ms, ins, j + 1, k);
    }
  }

  /** The turn in which the thread left rank `r`; in between it stays at rank r + 1. */
  lemma {:induction false} Crossing(ms: seq<Machine>, ins: seq<Input>, r: nat, k: nat) returns (a: nat)
    requires IsRun(ms, ins) && k < |ms| && r < Rank(ms[k].state)
    ensures a < k && Rank(ms[a].state) == r && Rank(ms[a + 1].state) == r + 1
  {
    assert ms[k - 1 + 1] == Turn(ms[k - 1], ins[k - 1]).0;
    if r < Rank(ms[k - 1].state) {
      a := Crossing(ms, ins, r, k - 1);
    } else {
      a := k - 1;
    }
  }

  /** From the match to the answer of the link request, the address is kept. */
  lemma {:induction false} AddressIsKept(ms: seq<Machine>, ins: seq<Input>, a: nat, k: nat)
    requires IsRun(ms, ins) && a <= k < |ms| && Rank(ms[a].state) >= 1 && Rank(ms[k].state) <= 4
    ensures ms[k].mac == ms[a].mac
    decreases k - a
  {
    if a < k {
      assert ms[k - 1 + 1] == Turn(ms[k - 1], ins[k - 1]).0;
      RankGrows(ms, ins, a, k - 1);
      AddressIsKept(ms, ins, a, k - 1);
    }
  }

  /** A link request in turn `k` follows a match in turn `a`, a written cancel in turn
      `b` and its confirmation in turn `c`, and names the address of that match. */
  ghost predicate Justified(ms: seq<Machine>, ins: seq<Input>, k: nat, a: nat, b: nat, c: nat)
    requires |ms| == |ins| + 1 && k < |ins|
  {
    && a < b < c < k
    && MatchTurn(ms, ins, a) && Actions(ms, ins, b) == [Wrote(ScanCancel)] && ConfirmTurn(ms, ins, c)
    && (forall j :: a < j < k ==> !MatchTurn(ms, ins, j))
    && Encode(EstablishLink(ms[k].mac))[7..] == Advertised(ms, ins, a)
  }

  predicate AsksForLink(actions: seq<Action>) {
    exists x :: x in actions && (x.Wrote? || x.Failed?) && x.command.EstablishLink?
  }

  /** Only in this state is a link asked for, and for the address held then. */
  lemma LinkTurn(m: Machine, i: Input)
    ensures AsksForLink(Turn(m, i).1) <==> m.state == LinkReq
    ensures m.state == LinkReq ==> Turn(m, i).1 == [Send(EstablishLink(m.mac), i)]
  {
    if m.state == LinkReq {
      assert Send(EstablishLink(m.mac), i) in Turn(m, i).1;
    }
  }

  /** The address is reversed when it is stored and again when it is sent. */
  lemma TwoReversalsCancel(b: Buffer)
    ensures Encode(EstablishLink(Backwards(b, 13)))[7..] == b[8..14]
  {
    assert Encode(EstablishLink(Backwards(b, 13)))[7..] == [b[8], b[9], b[10], b[11], b[12], b[13]];
  }

  /** Every link request of every run, whether its write succeeds or not, is
      justified; reversing the address twice has changed nothing. */
  lemma LinkRequestsAreJustified(ms: seq<Machine>, ins: seq<Input>, k: nat)
    requires IsRun(ms, ins) && k < |ins| && AsksForLink(Actions(ms, ins, k))
    ensures exists a, b, c :: Justified(ms, ins, k, a, b, c)
  {
    LinkTurn(ms[k], ins[k]);
    var a := Crossing(ms, ins, 0, k);
    var b := Crossing(ms, ins, 1, k);
    var c := Crossing(ms, ins, 2, k);
    assert ms[a + 1] == Turn(ms[a], ins[a]).0;
    assert ms[b + 1] == Turn(ms[b], ins[b]).0;
    assert ms[c + 1] == Turn(ms[c], ins[c]).0;
    if b <= a { RankGrows(ms, ins, b, a); }
    if c <= b { RankGrows(ms, ins, c, b); }
    AddressIsKept(ms, ins, a + 1, k);
    forall j | a < j < k ensures !MatchTurn(ms, ins, j) { RankGrows(ms, ins, a + 1, j); }
    TwoReversalsCancel(Receive(ms[a].buffer, ins[a].message));
    assert Justified(ms, ins, k, a, b, c);
  }

  /** At most one link request is written in a run. */
  lemma OneLinkRequest(ms: seq<Machine>, ins: seq<Input>, j: nat, k: nat)
    requires IsRun(ms, ins) && j < k < |ins|
    requires AsksForLink(Actions(ms, ins, j)) && AsksForLink(Actions(ms, ins, k))
    ensures Actions(ms, ins, j) == [Failed(EstablishLink(ms[k].mac))]
  {
    LinkTurn(ms[j], ins[j]);
    LinkTurn(ms[k], ins[k]);
    assert ms[j + 1] == Turn(ms[j], ins[j]).0;
    RankGrows(ms, ins, j + 1, k);
    AddressIsKept(ms, ins, j, k);
  }

  /** After a match there is no more scanning: no scan request, no other match. */
  lemma ScanningDoesNotResume(ms: seq<Machine>, ins: seq<Input>, a: nat, k: nat)
    requires IsRun(ms, ins) && a < k < |ins| && MatchTurn(ms, ins, a)
    ensures !MatchTurn(ms, ins, k)
    ensures Wrote(ScanRequest) !in Actions(ms, ins, k) && Failed(ScanRequest) !in Actions(ms, ins, k)
  {
    assert ms[a + 1] == Turn(ms[a], ins[a]).0;
    RankGrows(ms, ins, a + 1, k);
  }

  // ---------- which bytes move the thread on ----------

  /** What turn `k` finds in the buffer if it receives a message. */
  function Heard(ms: seq<Machine>, ins: seq<Input>, k: nat): Buffer
    requires k < |ins| && k < |ms|
  {
    Receive(ms[k].buffer, ins[k].message)
  }

  /** A vendor event with this code, low byte first. */
  predicate IsEvent(b: Buffer, low: byte, high: byte) {
    b[0] == 0x04 && b[1] == 0xFF && b[3] == low && b[4] == high
  }

  /** A scan is under way exactly after a request that was written and answered with a
      successful command status; otherwise the thread starts over. */
  lemma ScanStarts(ms: seq<Machine>, ins: seq<Input>, k: nat)
    requires IsRun(ms, ins) && k < |ins| && ms[k].state == ScanReq
    ensures var b := Heard(ms, ins, k);
            var started := !ins[k].full && ins[k].written
                           && IsEvent(b, 0x7F, 0x06) && b[5] == 0x00 && b[6] == 0x04 && b[7] == 0xFE;
            ms[k + 1].state == if started then ScanData else Start
  {
    assert ms[k + 1] == Turn(ms[k], ins[k]).0;
  }

  /** A scanning turn ends with a match, with the end of the scan, or not at all. */
  lemma ScanEnds(ms: seq<Machine>, ins: seq<Input>, k: nat)
    requires IsRun(ms, ins) && k < |ins| && ms[k].state == ScanData
    ensures var b, m := Heard(ms, ins, k), ms[k + 1];
            var matches := IsEvent(b, 0x0D, 0x06) && b[16] == 0x02 && b[17] == 0x01
                          && b[21] == 0x9E && b[22] == 0xCA && b[23] == 0xDC && b[24] == 0x24;
            && m.state == (if matches then CancelReq else if IsEvent(b, 0x01, 0x06) then ScanReq else ScanData)
            && (matches ==> [m.mac[5], m.mac[4], m.mac[3], m.mac[2], m.mac[1], m.mac[0]] == b[8..14])
            && (!matches ==> m.mac == ms[k].mac)
  {
    assert ms[k + 1] == Turn(ms[k], ins[k]).0;
  }

  /** A cancelled scan is over exactly after a 0601 event with status 0x30. */
  lemma CancelIsConfirmed(ms: seq<Machine>, ins: seq<Input>, k: nat)
    requires IsRun(ms, ins) && k < |ins| && ms[k].state == CancelRsp
    ensures var b := Heard(ms, ins, k);
            ms[k + 1].state == if IsEvent(b, 0x01, 0x06) && b[5] == 0x30 then LinkReq else CancelRsp
  {
    assert ms[k + 1] == Turn(ms[k], ins[k]).0;
  }

  /** The thread is linked exactly after a 0605 event, whose bytes 7 to 12 are the address
      reversed and whose bytes 13 and 14 are the handle; anything else changes neither. */
  lemma LinkIsEstablished(ms: seq<Machine>, ins: seq<Input>, k: nat)
    requires IsRun(ms, ins) && k < |ins| && ms[k].state == LinkRsp
    ensures var b, m := Heard(ms, ins, k), ms[k + 1];
            && m.state == (if IsEvent(b, 0x05, 0x06) then Linked else LinkRsp)
            && (m.state == Linked ==>
                  && m.handle == 256 * (b[14] as int) + b[13]
                  && [m.mac[5], m.mac[4], m.mac[3], m.mac[2], m.mac[1], m.mac[0]] == b[7..13])
            && (m.state != Linked ==> m.handle == ms[k].handle && m.mac == ms[k].mac)
  {
    assert ms[k + 1] == Turn(ms[k], ins[k]).0;
  }

  /** And only then: the handle changes in no other turn. */
  lemma HandleIsFromTheLink(ms: seq<Machine>, ins: seq<Input>, k: nat)
    requires IsRun(ms, ins) && k < |ins|
    ensures ms[k + 1].state == Linked && ms[k].state != Linked <==>
            ms[k].state == LinkRsp && IsEvent(Heard(ms, ins, k), 0x05, 0x06)
    ensures ms[k + 1].handle != ms[k].handle ==> ms[k].state == LinkRsp && ms[k + 1].state == Linked
  {
    assert ms[k + 1] == Turn(ms[k], ins[k]).0;
  }

  /** A request is tried until it is written. */
  lemma RequestsAreRetried(ms: seq<Machine>, ins: seq<Input>, k: nat)
    requires IsRun(ms, ins) && k < |ins|
    ensures ms[k].state == CancelReq ==>
            && ms[k + 1].state == (if ins[k].written then CancelRsp else CancelReq)
            && Actions(ms, ins, k) == [if ins[k].written then Wrote(ScanCancel) else Failed(ScanCancel)]
    ensures ms[k].state == LinkReq ==>
            ms[k + 1].state == (if ins[k].written then LinkRsp else LinkReq)
    ensures ms[k].state == Start ==> ms[k + 1].state == ScanReq
    ensures ms[k].state == Linked ==> ms[k + 1] == ms[k]
  {
    assert ms[k + 1] == Turn(ms[k], ins[k]).0;
  }

  // ---------- packets that are neither ----------

  /** Turn `k` receives a packet that is neither a match nor the end of the scan. */
  predicate Ignored(ms: seq<Machine>, ins: seq<Input>, k: nat)
    requires k < |ins| && k < |ms|
  {
    var b := Receive(ms[k].buffer, ins[k].message);
    !Matches(b) && !(Vendor(b) && Event(b) == 0x0601)
  }

  lemma WaitingTurn(ms: seq<Machine>, ins: seq<Input>, k: nat)
    requires IsRun(ms, ins) && k < |ins| && ms[k].state == ScanData
    ensures ms[k + 1].state == ScanData <==> Ignored(ms, ins, k)
    ensures Actions(ms, ins, k) == [Got(ms[k + 1].buffer)] && (Ignored(ms, ins, k) ==> ms[k + 1].mac == ms[k].mac)
  {
    assert ms[k + 1] == Turn(ms[k], ins[k]).0;
  }

  lemma {:induction false} IgnoredIsWaitedOut(ms: seq<Machine>, ins: seq<Input>, j: nat, k: nat)
    requires IsRun(ms, ins) && j <= k < |ms| && ms[j].state == ScanData
    requires forall i :: j <= i < k ==> Ignored(ms, ins, i)
    ensures ms[k].state == ScanData && ms[k].mac == ms[j].mac
    decreases k - j
  {
    if j < k {
      IgnoredIsWaitedOut(ms, ins, j, k - 1);
      WaitingTurn(ms, ins, k - 1);
    }
  }

  /** From a scanning turn on, the thread is still waiting for advertisements exactly
      as long as every packet is one of those, and all it does is receive: the branch
      of line 710, which would scan again, is never taken. */
  lemma ErrorsAreWaitedOut(ms: seq<Machine>, ins: seq<Input>, j: nat, k: nat)
    requires IsRun(ms, ins) && j <= k < |ms| && ms[j].state == ScanData
    ensures (forall i :: j <= i <= k ==> ms[i].state == ScanData) <==> (forall i :: j <= i < k ==> Ignored(ms, ins, i))
    ensures (forall i :: j <= i < k ==> Ignored(ms, ins, i)) ==>
              ms[k].mac == ms[j].mac && forall i :: j <= i < k ==> Actions(ms, ins, i) == [Got(ms[i + 1].buffer)]
  {
    if forall i :: j <= i < k ==> Ignored(ms, ins, i) {
      forall i | j <= i <= k ensures ms[i].state == ScanData && ms[i].mac == ms[j].mac {
        IgnoredIsWaitedOut(ms, ins, j, i);
      }
      forall i | j <= i < k ensures Actions(ms, ins, i) == [Got(ms[i + 1].buffer)] { WaitingTurn(ms, ins, i); }
    }
    if forall i :: j <= i <= k ==> ms[i].state == ScanData {
      forall i | j <= i < k ensures Ignored(ms, ins, i) {
        WaitingTurn(ms, ins, i);
        assert ms[i + 1].state == ScanData;
      }
    }
  }
}
