/** The relay behind the router (UartCmdRxThread.c): the pipe thread repacks a
    packet, the forwarding thread turns it into commands and offers it to the other
    connections. */
module Relay {
  import opened Wrappers
  import opened Bytes
  import opened HciCommands
  import opened MessageQueue
  import opened Retry

  const PEERS := 5  // MAX_NUM_PERIPHERALS

  // ---------- the pipe thread ----------

  predicate IsWrite(p: seq<byte>)
    requires |p| == CAPACITY
  {
    Make16(p[4], p[3]) == 0x0512
  }

  /** Length of the value in a packet, from the length byte of its attribute header. */
  function ValueLength(p: seq<byte>): int
    requires |p| == CAPACITY
  {
    if IsWrite(p) then p[8] as int - 4 else p[8] as int - 2
  }

  /** Where the value starts. */
  function ValueStart(p: seq<byte>): nat
    requires |p| == CAPACITY
  {
    if IsWrite(p) then 13 else 11
  }

  /** The value the header declares lies inside the buffer.  A header that declares
      up to three bytes too few for itself still leaves a message to send. */
  predicate Forwardable(p: seq<byte>) {
    |p| == CAPACITY && -3 <= ValueLength(p) <= CAPACITY - ValueStart(p)
  }

  /** What the pipe thread passes on: connection 0, direction, length, value; cut
      short when the declared length is negative. */
  function Forwarded(p: seq<byte>): seq<byte>
    requires Forwardable(p)
  {
    var header: seq<byte> := [0x00, if IsWrite(p) then 0x01 else 0x00, ValueLength(p) % 256];
    if ValueLength(p) < 0 then header[..ValueLength(p) + 3]
    else header + p[ValueStart(p)..ValueStart(p) + ValueLength(p)]
  }

  /** A buffer after a message has been received into it. */
  function Received(message: seq<byte>, buf: seq<byte>): seq<byte>
    requires |message| <= |buf|
  {
    message + buf[|message|..]
  }

  class PipeThread {
    const source: Queue
    const target: Queue
    const buff: array<byte>
    const forward: array<byte>

    constructor (source: Queue, target: Queue)
      ensures this.source == source && this.target == target
      ensures fresh(buff) && fresh(forward) && Valid()
    {
      this.source, this.target := source, target;
      buff, forward := new byte[CAPACITY], new byte[CAPACITY];
    }

    ghost predicate Valid() {
      buff.Length == forward.Length == CAPACITY && buff != forward
    }

    /** One of the two copying loops of lines 322-338; nothing is copied when the
        length is not positive. */
    method CopyValue(start: nat, length: int)
      requires Valid() && start <= CAPACITY && start + length <= CAPACITY && length + 3 <= CAPACITY
      modifies forward
      ensures forward[..3] == old(forward[..3])
      ensures length >= 0 ==> forward[3..3 + length] == buff[start..start + length]
    {
      var idx, i := 3, start;
      while i < length + start
        invariant start <= i && (length >= 0 ==> i <= start + length) && (length < 0 ==> i == start)
        invariant idx == 3 + (i - start)
        invariant forward[..3] == old(forward[..3])
        invariant forward[3..idx] == buff[start..i]
      {
        forward[idx] := buff[i];
        assert forward[3..idx + 1] == forward[3..idx] + [buff[i]];
        idx, i := idx + 1, i + 1;
      }
    }

    /** One turn of the thread. */
    method Turn()
      requires Valid() && source != target && source.messages != [] && |source.messages[0]| <= CAPACITY
      requires Forwardable(Received(source.messages[0], buff[..]))
      modifies source, target, buff, forward
      ensures source.messages == old(source.messages[1..])
      ensures target.messages == old(target.messages) + [Forwarded(old(Received(source.messages[0], buff[..])))]
      ensures buff[..] == old(Received(source.messages[0], buff[..]))
    {
      var size := source.Recv(buff);
      ghost var p := buff[..];
      var length := buff[8] as int;
      var start: nat;
      if Make16(buff[4], buff[3]) == 0x0512 {
        length, start := length - 4, 13;
        forward[0], forward[1], forward[2] := 0x00, 0x01, length % 256;
        assert forward[..3] == [0x00, 0x01, length % 256];
        CopyValue(13, length);
      } else {
        length, start := length - 2, 11;
        forward[0], forward[1], forward[2] := 0x00, 0x00, length % 256;
        assert forward[..3] == [0x00, 0x00, length % 256];
        CopyValue(11, length);
      }
      if length >= 0 {
        assert buff[start..start + length] == p[start..start + length];
        assert forward[..length + 3] == forward[..3] + forward[3..3 + length];
      } else {
        assert forward[..length + 3] == forward[..3][..length + 3];
      }
      target.Send(forward, length + 3);
    }
  }

  // ---------- offering a message to the other connections ----------

  function Repeat<T>(x: T, n: nat): (s: seq<T>)
    ensures |s| == n && forall k :: 0 <= k < n ==> s[k] == x
  {
    seq(n, _ => x)
  }

  lemma OneMore<T>(base: seq<T>, x: T, n: nat)
    ensures base + Repeat(x, n) + [x] == base + Repeat(x, n + 1)
  {
  }

  /** The connections attempted, one entry per attempt, the responses left over, and
      whether every connection got its turn before the responses ran out. */
  datatype Outcome = Outcome(log: seq<nat>, rest: seq<byte>, finished: bool)

  /** A connection is offered the message if it is active and did not send it. */
  predicate Target(active: seq<bool>, sender: int, x: nat) {
    x < |active| && active[x] && x != sender
  }

  function FanOut(active: seq<bool>, sender: int, from: nat, trace: seq<byte>, cloud: bool): Outcome
    requires from <= |active|
    decreases |active| - from
  {
    if from == |active| then Outcome([], trace, true)
    else if !Target(active, sender, from) then FanOut(active, sender, from + 1, trace, cloud)
    else match Attempts(trace, 0, cloud)
      case None => Outcome(Repeat(from, |trace| + 1), [], false)
      case Some(n) =>
        var o := FanOut(active, sender, from + 1, trace[n..], cloud);
        o.(log := Repeat(from, n) + o.log)
  }

  predicate Ascending(log: seq<nat>) { forall i, j :: 0 <= i < j < |log| ==> log[i] <= log[j] }

  /** The last connection whose turn came. */
  function Reached(o: Outcome, peers: nat): int {
    if o.finished then peers else if o.log == [] then -1 else o.log[|o.log| - 1]
  }

  ghost predicate Covers(active: seq<bool>, sender: int, from: nat, o: Outcome) {
    && Ascending(o.log)
    && forall x :: x in o.log <==> from <= x <= Reached(o, |active|) && Target(active, sender, x)
  }

  /** A fan-out attempts exactly the active connections other than the sender, in
      ascending order, so each of them in one uninterrupted run; one that is left
      waiting for a response has covered those up to where it waits. */
  lemma {:induction false} FanOutCovers(active: seq<bool>, sender: int, from: nat, trace: seq<byte>, cloud: bool)
    requires from <= |active|
    ensures Covers(active, sender, from, FanOut(active, sender, from, trace, cloud))
    ensures FanOut(active, sender, from, trace, cloud).finished || FanOut(active, sender, from, trace, cloud).log != []
    decreases |active| - from
  {
    if from < |active| {
      if !Target(active, sender, from) {
        FanOutCovers(active, sender, from + 1, trace, cloud);
      } else {
        var n := Attempts(trace, 0, cloud);
        if n.Some? {
          FanOutCovers(active, sender, from + 1, trace[n.value..], cloud);
          OwnTurnFirst(active, sender, from, n.value, FanOut(active, sender, from + 1, trace[n.value..], cloud));
        } else {
          var o := FanOut(active, sender, from, trace, cloud);
          assert o.log[0] == from;
        }
      }
    }
  }

  lemma OwnTurnFirst(active: seq<bool>, sender: int, from: nat, n: nat, o: Outcome)
    requires n > 0 && Target(active, sender, from) && Covers(active, sender, from + 1, o)
    requires o.finished || o.log != []
    ensures Covers(active, sender, from, o.(log := Repeat(from, n) + o.log))
  {
    var own := Repeat(from, n);
    assert own[0] == from;
    assert forall x :: x in own <==> x == from;
    assert forall x :: x in own + o.log <==> x in own || x in o.log;
    SumAscends(own, o.log);
    var p := o.(log := own + o.log);
    assert Reached(p, |active|) == Reached(o, |active|);
    if !o.finished { assert o.log[|o.log| - 1] in o.log; }
  }

  lemma SumAscends(a: seq<nat>, b: seq<nat>)
    requires Ascending(a) && Ascending(b) && forall x, y :: x in a && y in b ==> x <= y
    ensures Ascending(a + b)
  {
    var s := a + b;
    forall i, j | 0 <= i < j < |s| ensures s[i] <= s[j] {
      if i < |a| <= j { assert s[i] in a && s[j] in b; }
    }
  }

  // ---------- the forwarding thread ----------

  /** The commands made from a message. */
  function NotifyCommand(b: seq<byte>, size: nat): seq<byte> { Encode(Notify(b, size)) }
  function WriteCommand(b: seq<byte>, size: nat): seq<byte> { Encode(WriteValue(b, size, 0)) }

  /** The retried attempts for the message in `b`: 0xFF comes from the cloud, 0xEE is
      a ping for one connection, anything else is the connection it came from. */
  function Offers(b: seq<byte>, active: seq<bool>, slaveCount: nat, trace: seq<byte>): Outcome
    requires |b| == CAPACITY
  {
    if b[0] == 0xFF then
      if slaveCount > 0 then FanOut(active, -1, 0, trace, true) else Outcome([], trace, true)
    else if b[0] == 0xEE then
      match Attempts(trace, 0, false)
      case None => Outcome(Repeat(b[1], |trace| + 1), [], false)
      case Some(n) => Outcome(Repeat(b[1], n), trace[n..], true)
    else if b[1] == 0x01 && slaveCount > 0 then FanOut(active, b[0], 0, trace, false)
    else Outcome([], trace, true)
  }

  /** The two commands a slave's message causes before any fan-out. */
  function Direct(b: seq<byte>, size: nat): seq<seq<byte>>
    requires |b| == CAPACITY
  {
    if b[0] != 0xFF && b[0] != 0xEE && b[1] == 0x01 then [NotifyCommand(b, size), WriteCommand(b, size)] else []
  }

  /** A message that is sent on fits the 100 bytes its commands are built in. */
  predicate Fits(b: seq<byte>, size: nat, active: seq<bool>, slaveCount: nat, trace: seq<byte>)
    requires |b| == CAPACITY
  {
    size <= 94 || (Direct(b, size) == [] && Offers(b, active, slaveCount, trace).log == [])
  }

  class Forwarder {
    const queue: Queue
    const buffer: array<byte>
    var wire: seq<seq<byte>>    // the commands handed to BLECOMWrite
    var responses: seq<byte>    // status bytes still to come on the write-response queue
    ghost var log: seq<nat>     // the connection each retried attempt was meant for

    constructor (queue: Queue, responses: seq<byte>)
      ensures this.queue == queue && this.responses == responses && wire == [] && log == []
      ensures buffer.Length == CAPACITY && fresh(buffer)
    {
      this.queue, this.responses := queue, responses;
      wire, log := [], [];
      buffer := new byte[CAPACITY];
    }

    /** Copies the payload behind a command's header. */
    method Append(pac: array<byte>, start: nat, size: nat) returns (idx: nat)
      requires buffer.Length == CAPACITY && pac != buffer && pac.Length == 100
      requires start <= 9 && size <= 94
      modifies pac
      ensures idx <= 100 && pac[..idx] == old(pac[..start]) + Payload(buffer[..], size)
    {
      idx := start;
      var i := 3;
      while i < size
        invariant 3 <= i && (size >= 3 ==> i <= size) && (size < 3 ==> i == 3)
        invariant idx == start + (i - 3) <= 100
        invariant pac[..start] == old(pac[..start])
        invariant pac[start..idx] == buffer[3..i]
      {
        pac[idx] := buffer[i];
        assert pac[start..idx + 1] == pac[start..idx] + [buffer[i]];
        idx, i := idx + 1, i + 1;
      }
      assert pac[..idx] == pac[..start] + pac[start..idx];
    }

    /** Stores a command's header. */
    method Header(pac: array<byte>, header: seq<byte>)
      requires |header| <= pac.Length
      modifies pac
      ensures pac[..|header|] == header
    {
      for idx := 0 to |header|
        invariant pac[..idx] == header[..idx]
      {
        pac[idx] := header[idx];
      }
    }

    /** Notify_data: the connection asked for does not reach the command. */
    method NotifyData(size: nat, idz: nat)
      requires buffer.Length == CAPACITY && size <= 94
      modifies this`wire
      ensures wire == old(wire) + [NotifyCommand(buffer[..], size)]
    {
      var pac := new byte[100];
      Header(pac, [0x01, 0x9B, 0xFD, (size - 3 + 5) % 256, 0x00, 0x00, 0x00, 0x07, 0x00]);
      var idx := Append(pac, 9, size);
      wire := wire + [pac[..idx]];
    }

    /** GATT_WRITE_VALUE for connection 0, the only one it is called with. */
    method GattWriteValue(size: nat)
      requires buffer.Length == CAPACITY && size <= 94
      modifies this`wire
      ensures wire == old(wire) + [WriteCommand(buffer[..], size)]
    {
      var pac := new byte[100];
      Header(pac, [0x01, 0x92, 0xFD, (size - 3 + 4) % 256, 0x00, 0x00, 0x03, 0x00]);
      var idx := Append(pac, 8, size);
      wire := wire + [pac[..idx]];
    }

    /** A do-while retry loop; false when it is left waiting for a response. */
    method Offer(size: nat, idz: nat, cloud: bool) returns (finished: bool)
      requires buffer.Length == CAPACITY && size <= 94
      modifies this
      ensures var n := Attempts(old(responses), 0, cloud);
              var tries := if n.Some? then n.value else |old(responses)| + 1;
              && finished == n.Some?
              && responses == (if n.Some? then old(responses)[n.value..] else [])
              && wire == old(wire) + Repeat(NotifyCommand(buffer[..], size), tries)
              && log == old(log) + Repeat(idz, tries)
    {
      ghost var trace, command, sent, logged := responses, NotifyCommand(buffer[..], size), wire, log;
      var needed: nat, tries: nat := 0, 0;
      while true
        invariant tries <= |trace| && responses == trace[tries..] && needed < LIMIT
        invariant wire == sent + Repeat(command, tries) && log == logged + Repeat(idz, tries)
        invariant Later(Attempts(trace, 0, cloud), Attempts(responses, needed, cloud), tries)
        decreases |responses|
      {
        NotifyData(size, idz);
        log := log + [idz];
        OneMore(sent, command, tries);
        OneMore(logged, idz, tries);
        tries := tries + 1;
        if responses == [] { return false; }
        needed := After(responses[0], needed, cloud);
        responses := responses[1..];
        if needed >= LIMIT { return true; }
      }
    }

    /** The loop over the connection table. */
    method OfferAll(size: nat, active: seq<bool>, sender: int, cloud: bool) returns (finished: bool)
      requires buffer.Length == CAPACITY
      requires size <= 94 || FanOut(active, sender, 0, responses, cloud).log == []
      modifies this
      ensures var o := FanOut(active, sender, 0, old(responses), cloud);
              && finished == o.finished && responses == o.rest && log == old(log) + o.log
              && wire == old(wire) + Repeat(NotifyCommand(buffer[..], size), |o.log|)
    {
      ghost var whole, command := FanOut(active, sender, 0, responses, cloud), NotifyCommand(buffer[..], size);
      ghost var sent, logged := wire, log;
      ghost var done: seq<nat> := [];
      var idz: nat := 0;
      while idz < |active|
        invariant idz <= |active| && log == logged + done && wire == sent + Repeat(command, |done|)
        invariant Continues(whole, done, FanOut(active, sender, idz, responses, cloud))
      {
        if active[idz] && idz != sender {
          ghost var before, n := responses, Attempts(responses, 0, cloud);
          ghost var turn := Repeat(idz, if n.Some? then n.value else |responses| + 1);
          finished := Offer(size, idz, cloud);
          Joined(logged, done, turn);
          Repeated(sent, command, |done|, |turn|);
          if !finished {
            assert whole.log == done + turn;
            return;
          }
          ContinuesLater(whole, done, turn, FanOut(active, sender, idz + 1, responses, cloud));
          done := done + turn;
        }
        idz := idz + 1;
      }
      assert done + [] == done;
      return true;
    }

    /** One turn of the thread; false when it is left waiting for a response. */
    method Turn(active: seq<bool>, slaveCount: nat) returns (finished: bool)
      requires buffer.Length == CAPACITY && queue.messages != [] && |queue.messages[0]| <= CAPACITY
      requires Fits(Received(queue.messages[0], buffer[..]), |queue.messages[0]|, active, slaveCount, responses)
      modifies this, queue, buffer
      ensures queue.messages == old(queue.messages[1..])
      ensures buffer[..] == old(Received(queue.messages[0], buffer[..]))
      ensures var m, b := old(queue.messages[0]), old(Received(queue.messages[0], buffer[..]));
              var o := Offers(b, active, slaveCount, old(responses));
              && finished == o.finished && responses == o.rest && log == old(log) + o.log
              && wire == old(wire) + Direct(b, |m|) + Repeat(NotifyCommand(b, |m|), |o.log|)
    {
      var size := queue.Recv(buffer);
      ghost var b := buffer[..];
      assert Repeat(NotifyCommand(b, size), 0) == [] && wire + [] == wire && log + [] == log;
      finished := true;
      if buffer[0] == 0xFF {
        if slaveCount > 0 { finished := OfferAll(size, active, -1, true); }
      } else if buffer[0] == 0xEE {
        finished := Offer(size, buffer[1], false);
      } else if buffer[1] == 0x01 {
        ghost var sent := wire;
        NotifyData(size, 0);
        GattWriteValue(size);
        assert wire == sent + Direct(b, size);
        assert wire + [] == wire;
        if slaveCount > 0 { finished := OfferAll(size, active, buffer[0], false); }
      }
    }
  }

  /** `rest` is what remains of `whole` after the attempts `done`. */
  ghost predicate Continues(whole: Outcome, done: seq<nat>, rest: Outcome) {
    whole.log == done + rest.log && whole.rest == rest.rest && whole.finished == rest.finished
  }

  lemma ContinuesLater(whole: Outcome, done: seq<nat>, turn: seq<nat>, rest: Outcome)
    requires Continues(whole, done, rest.(log := turn + rest.log))
    ensures Continues(whole, done + turn, rest)
  {
    assert done + (turn + rest.log) == done + turn + rest.log;
  }

  lemma Joined(a: seq<nat>, b: seq<nat>, c: seq<nat>)
    ensures a + b + c == a + (b + c)
  {
  }

  lemma Repeated<T>(base: seq<T>, x: T, m: nat, n: nat)
    ensures base + Repeat(x, m) + Repeat(x, n) == base + Repeat(x, m + n)
  {
  }

  /** `whole` is what `part` is after `tries` more attempts. */
  ghost predicate Later(whole: Option<nat>, part: Option<nat>, tries: nat) {
    whole == match part case None => None case Some(n) => Some(n + tries)
  }

  // ---------- which response ends what ----------

  /** The `n`th response to the attempts for one connection ends them. */
  predicate Ends(trace: seq<byte>, n: nat, cloud: bool)
    requires 1 <= n <= |trace|
  {
    if cloud then trace[n - 1] == SUCCESS || trace[n - 1] == DISCONNECTED else StopsAt(trace, 0, n)
  }

  lemma AttemptsEnd(trace: seq<byte>, n: nat, cloud: bool)
    requires 1 <= n <= |trace|
    ensures Attempts(trace, 0, cloud) == Some(n) <==>
            Ends(trace, n, cloud) && forall m :: 1 <= m < n ==> !Ends(trace, m, cloud)
  {
    if cloud {
      CloudStopsAtFirst(trace, n);
      if forall m :: 1 <= m < n ==> !Ends(trace, m, true) {
        forall m | 0 <= m < n - 1 ensures trace[m] != SUCCESS && trace[m] != DISCONNECTED {
          assert !Ends(trace, m + 1, true);
        }
      }
    } else {
      StopsAtFirst(trace, 0, n);
      assert forall m :: 1 <= m <= n ==> Ends(trace, m, false) == StopsAt(trace, 0, m);
      if forall m :: 1 <= m < n ==> !Ends(trace, m, false) {
        forall m | 1 <= m < n ensures !StopsAt(trace, 0, m) { assert !Ends(trace, m, false); }
      }
    }
  }

  lemma {:induction false} NothingEnds(trace: seq<byte>, n: nat, cloud: bool)
    requires Attempts(trace, 0, cloud) == None && n <= |trace|
    ensures forall m :: 1 <= m <= n ==> !Ends(trace, m, cloud)
  {
    if n > 0 {
      NothingEnds(trace, n - 1, cloud);
      AttemptsEnd(trace, n, cloud);
    }
  }

  /** Attempt `i` is the first for its connection. */
  predicate StartsTurn(log: seq<nat>, i: nat)
    requires i < |log|
  {
    i == 0 || log[i - 1] != log[i]
  }

  /** In the turn that starts with attempt `i`, the response to attempt `k` ends it exactly
      when attempt `k` is the last one for that connection. */
  predicate EndsRight(log: seq<nat>, trace: seq<byte>, cloud: bool, i: nat, k: nat)
    requires i <= k < |log| && k < |trace|
  {
    StartsTurn(log, i) && log[i] == log[k] ==>
      (Ends(trace[i..], k - i + 1, cloud) <==> k + 1 == |log| || log[k + 1] != log[k])
  }

  /** The attempts for a connection go on until a response ends them, and no longer. */
  predicate TurnsEnd(log: seq<nat>, trace: seq<byte>, cloud: bool) {
    forall i, k :: 0 <= i <= k < |log| && k < |trace| ==> EndsRight(log, trace, cloud, i, k)
  }

  /** One response is taken for each attempt, and one is still missing if not finished. */
  predicate Spends(o: Outcome, trace: seq<byte>) {
    if o.finished then |o.log| <= |trace| && o.rest == trace[|o.log|..]
    else |o.log| == |trace| + 1 && o.rest == []
  }

  /** The attempts for one connection. */
  lemma OneTurn(x: nat, trace: seq<byte>, cloud: bool)
    ensures var n := Attempts(trace, 0, cloud);
            TurnsEnd(Repeat(x, if n.Some? then n.value else |trace| + 1), trace, cloud)
  {
    var n := Attempts(trace, 0, cloud);
    var log := Repeat(x, if n.Some? then n.value else |trace| + 1);
    if n.Some? { AttemptsEnd(trace, n.value, cloud); } else { NothingEnds(trace, |trace|, cloud); }
    forall i: nat, k: nat | i <= k < |log| && k < |trace| ensures EndsRight(log, trace, cloud, i, k) {
      assert i > 0 ==> log[i - 1] == x == log[i];
      if StartsTurn(log, i) {
        assert trace[0..] == trace;
        assert k + 1 < |log| ==> log[k + 1] == log[k] == x;
        assert Ends(trace, k + 1, cloud) <==> k + 1 == |log|;
      }
    }
  }

  lemma TurnFirst(x: nat, n: nat, later: seq<nat>, trace: seq<byte>, cloud: bool)
    requires 1 <= n <= |trace| && TurnsEnd(Repeat(x, n), trace, cloud)
    requires x !in later && TurnsEnd(later, trace[n..], cloud)
    ensures TurnsEnd(Repeat(x, n) + later, trace, cloud)
  {
    var own := Repeat(x, n);
    var log := own + later;
    forall i: nat, k: nat | i <= k < |log| && k < |trace| ensures EndsRight(log, trace, cloud, i, k) {
      if i >= n {
        assert log[i] == later[i - n] && log[k] == later[k - n] && trace[n..][i - n..] == trace[i..];
        assert i > n ==> log[i - 1] == later[i - n - 1];
        assert k + 1 < |log| ==> log[k + 1] == later[k - n + 1];
        assert EndsRight(later, trace[n..], cloud, i - n, k - n);
      } else if k >= n {
        assert log[i] == x && log[k] == later[k - n];
      } else {
        assert log[i] == own[i] && log[k] == own[k];
        assert i > 0 ==> log[i - 1] == own[i - 1];
        assert EndsRight(own, trace, cloud, i, k);
        if k + 1 < |log| { assert log[k + 1] == if k + 1 < n then x else later[k + 1 - n]; }
      }
    }
  }

  /** A fan-out follows the responses, connection by connection. */
  lemma {:induction false} FanOutFollowsResponses(active: seq<bool>, sender: int, from: nat, trace: seq<byte>,
                                                  cloud: bool)
    requires from <= |active|
    ensures var o := FanOut(active, sender, from, trace, cloud);
            TurnsEnd(o.log, trace, cloud) && Spends(o, trace)
    decreases |active| - from
  {
    if from < |active| {
      if !Target(active, sender, from) {
        FanOutFollowsResponses(active, sender, from + 1, trace, cloud);
      } else {
        var n := Attempts(trace, 0, cloud);
        OneTurn(from, trace, cloud);
        if n.Some? {
          var later := FanOut(active, sender, from + 1, trace[n.value..], cloud);
          FanOutFollowsResponses(active, sender, from + 1, trace[n.value..], cloud);
          FanOutCovers(active, sender, from + 1, trace[n.value..], cloud);
          AttemptsEnd(trace, n.value, cloud);
          TurnFirst(from, n.value, later.log, trace, cloud);
        }
      }
    }
  }

  /** What a message is offered to, and which responses end that: a message from the
      cloud and one from a slave differ in the responses that end a turn, and a ping is
      attempted for the connection it names alone, whatever the table says. */
  lemma OffersFollowResponses(b: seq<byte>, active: seq<bool>, slaveCount: nat, trace: seq<byte>)
    requires |b| == CAPACITY
    ensures var o := Offers(b, active, slaveCount, trace);
            && TurnsEnd(o.log, trace, b[0] == 0xFF) && Spends(o, trace)
            && (b[0] == 0xEE ==> o.log != [] && forall x :: x in o.log ==> x == b[1])
            && (b[0] != 0xEE && o.log != [] ==> slaveCount > 0 && (b[0] == 0xFF || b[1] == 0x01))
  {
    if b[0] == 0xFF {
      FanOutFollowsResponses(active, -1, 0, trace, true);
    } else if b[0] == 0xEE {
      var x: nat, n := b[1], Attempts(trace, 0, false);
      OneTurn(x, trace, false);
      assert Offers(b, active, slaveCount, trace).log == Repeat(x, if n.Some? then n.value else |trace| + 1);
    } else {
      FanOutFollowsResponses(active, b[0], 0, trace, false);
    }
  }

  // ---------- whom the commands name ----------

  /** The connection a notification or write command names. */
  function Named(command: seq<byte>): uint16
    requires |command| >= 6
  {
    Make16(command[5], command[4])
  }

  /** Every command of a list names the connection it was meant for. */
  predicate Addressed(sent: seq<seq<byte>>, log: seq<nat>)
    requires |sent| == |log| && forall k :: 0 <= k < |sent| ==> |sent[k]| >= 6
  {
    forall k :: 0 <= k < |log| ==> Named(sent[k]) == log[k]
  }

  lemma NotifyNamesZero(b: seq<byte>, size: nat)
    ensures |NotifyCommand(b, size)| >= 6 && Named(NotifyCommand(b, size)) == 0
  {
    assert NotifyCommand(b, size)[4] == 0 && NotifyCommand(b, size)[5] == 0;
  }

  /** Connection 0 is the only one whose turn came. */
  ghost predicate OnlyZeroReached(active: seq<bool>, sender: int, o: Outcome) {
    forall x: nat :: x <= Reached(o, |active|) && Target(active, sender, x) ==> x == 0
  }

  lemma OnlyZeroIsAddressed(active: seq<bool>, sender: int, o: Outcome, command: seq<byte>)
    requires Covers(active, sender, 0, o) && |command| >= 6 && Named(command) == 0
    ensures Addressed(Repeat(command, |o.log|), o.log) <==> OnlyZeroReached(active, sender, o)
    ensures o.finished ==> (OnlyZeroReached(active, sender, o) <==> forall x :: Target(active, sender, x) ==> x == 0)
  {
    if Addressed(Repeat(command, |o.log|), o.log) {
      forall x: nat | x <= Reached(o, |active|) && Target(active, sender, x) ensures x == 0 {
        assert x in o.log;
        var k :| 0 <= k < |o.log| && o.log[k] == x;
        assert Named(Repeat(command, |o.log|)[k]) == 0;
      }
    }
    if OnlyZeroReached(active, sender, o) {
      forall k | 0 <= k < |o.log| ensures Named(Repeat(command, |o.log|)[k]) == o.log[k] { assert o.log[k] in o.log; }
    }
  }

  /** Notify_data writes the same command whichever connection it is called for, and
      that command names connection 0.  So the commands a fan-out writes all name the
      connection they are meant for exactly when only connection 0 has its turn; if
      all the responses come, when no other active connection is to be offered it. */
  lemma AttemptsNameConnectionZero(b: seq<byte>, size: nat, active: seq<bool>, sender: int, trace: seq<byte>,
                                   cloud: bool)
    ensures |NotifyCommand(b, size)| >= 6
    ensures var o := FanOut(active, sender, 0, trace, cloud);
            && (Addressed(Repeat(NotifyCommand(b, size), |o.log|), o.log) <==> OnlyZeroReached(active, sender, o))
            && (o.finished ==>
                  (OnlyZeroReached(active, sender, o) <==> forall x :: Target(active, sender, x) ==> x == 0))
  {
    NotifyNamesZero(b, size);
    FanOutCovers(active, sender, 0, trace, cloud);
    OnlyZeroIsAddressed(active, sender, FanOut(active, sender, 0, trace, cloud), NotifyCommand(b, size));
  }
}
