/** The three threads in a row, on any number of packets: the receive loop with the
    router's sends to pipe 0, the pipe thread's loop and the forwarding thread's loop
    (UartCmdRxThread.c).  Each loop is run until it would wait for input; the queues
    between them are first in, first out, so when each gets its turn does not matter. */
module Gateway {
  import opened Wrappers
  import opened Bytes
  import opened Framer
  import opened Router
  import opened HciCommands
  import opened Relay
  import opened Pipeline
  import MessageQueue

  const CAPACITY := MessageQueue.CAPACITY

  // ---------- receiving and routing ----------

  /** What is queued for pipe 0 when a packet is complete. */
  function Chosen(f: Frame): seq<seq<byte>> {
    if Route(f.mem).queue == Some(Pipe(0)) then [f.Packet()] else []
  }

  function FlatMap<A, B>(f: A -> seq<B>, s: seq<A>): seq<B> {
    if s == [] then [] else f(s[0]) + FlatMap(f, s[1..])
  }

  lemma {:induction false} FlatMapSplits<A, B>(f: A -> seq<B>, a: seq<A>, b: seq<A>)
    ensures FlatMap(f, a + b) == FlatMap(f, a) + FlatMap(f, b)
  {
    if a == [] {
      assert a + b == b;
    } else {
      assert (a + b)[0] == a[0] && (a + b)[1..] == a[1..] + b;
      FlatMapSplits(f, a[1..], b);
      assert f(a[0]) + (FlatMap(f, a[1..]) + FlatMap(f, b)) == f(a[0]) + FlatMap(f, a[1..]) + FlatMap(f, b);
    }
  }

  lemma FlatMapFirst<A, B>(f: A -> seq<B>, x: A, rest: seq<A>)
    ensures FlatMap(f, [x] + rest) == f(x) + FlatMap(f, rest)
    ensures FlatMap(f, [x]) == f(x)
  {
    assert ([x] + rest)[1..] == rest && [x][1..] == [] && f(x) + [] == f(x);
  }

  function ToPipe(frames: seq<Frame>): seq<seq<byte>> { FlatMap(Chosen, frames) }

  /** What queue messages may be: the structure has room for 100 bytes. */
  predicate Queueable(messages: seq<seq<byte>>) { forall m :: m in messages ==> |m| <= CAPACITY }

  /** One byte of the input, and the rest. */
  lemma ByteThenRest(m: Machine, s: seq<byte>)
    requires s != []
    ensures var (n, first) := Step(m, s[0]);
            && Feed(m, s).0 == Feed(n, s[1..]).0
            && ToPipe(Feed(m, s).1) == ToPipe(first) + ToPipe(Feed(n, s[1..]).1)
            && (Queueable(ToPipe(Feed(m, s).1)) ==>
                  Queueable(ToPipe(first)) && Queueable(ToPipe(Feed(n, s[1..]).1)))
  {
    var (n, first) := Step(m, s[0]);
    var later := Feed(n, s[1..]).1;
    FlatMapSplits(Chosen, first, later);
    assert forall x :: x in ToPipe(first) || x in ToPipe(later) ==> x in ToPipe(first) + ToPipe(later);
  }

  /** The receive loop, sending what the router has for pipe 0. */
  method ReceiveLoop(receiver: Receiver, pipe: MessageQueue.Queue, input: seq<byte>)
    requires receiver.rx.Length == RX_SIZE
    requires Queueable(ToPipe(Feed(receiver.View(), input).1))
    modifies receiver, receiver.rx, pipe
    ensures receiver.View() == Feed(old(receiver.View()), input).0
    ensures pipe.messages == old(pipe.messages) + ToPipe(Feed(old(receiver.View()), input).1)
  {
    ghost var end, all := Feed(receiver.View(), input).0, pipe.messages + ToPipe(Feed(receiver.View(), input).1);
    assert input[0..] == input;
    for i := 0 to |input|
      invariant end == Feed(receiver.View(), input[i..]).0
      invariant all == pipe.messages + ToPipe(Feed(receiver.View(), input[i..]).1)
      invariant Queueable(ToPipe(Feed(receiver.View(), input[i..]).1))
    {
      ByteThenRest(receiver.View(), input[i..]);
      assert input[i..][1..] == input[i + 1..];
      ReceiveOne(receiver, pipe, input[i], ToPipe(Feed(Step(receiver.View(), input[i]).0, input[i + 1..]).1));
    }
    assert pipe.messages + [] == pipe.messages;
  }

  /** One byte, and the router's send if it completes a packet. */
  method ReceiveOne(receiver: Receiver, pipe: MessageQueue.Queue, b: byte, ghost later: seq<seq<byte>>)
    requires receiver.rx.Length == RX_SIZE
    requires Queueable(ToPipe(Step(receiver.View(), b).1))
    modifies receiver, receiver.rx, pipe
    ensures receiver.View() == Step(old(receiver.View()), b).0
    ensures pipe.messages + later == old(pipe.messages) + (ToPipe(Step(old(receiver.View()), b).1) + later)
  {
    ghost var before, packets := pipe.messages, ToPipe(Step(receiver.View(), b).1);
    var done, size := receiver.OnByte(b);
    if done {
      FlatMapFirst(Chosen, Frame(receiver.rx[..], size), []);
      Send(receiver.rx, pipe, size);
    } else {
      assert pipe.messages == before + packets;
    }
    assert before + packets + later == before + (packets + later);
  }

  /** The router's send of a completed packet. */
  method Send(rx: array<byte>, pipe: MessageQueue.Queue, size: byte)
    requires rx.Length == RX_SIZE && Queueable(Chosen(Frame(rx[..], size)))
    modifies pipe
    ensures pipe.messages == old(pipe.messages) + Chosen(Frame(rx[..], size))
  {
    if Route(rx[..]).queue == Some(Pipe(0)) {
      assert Frame(rx[..], size).Packet() in Chosen(Frame(rx[..], size));
      assert rx[..][..size] == rx[..size];
      pipe.Send(rx, size);
    }
  }

  // ---------- the pipe thread ----------

  /** Every message is one the pipe thread can repack, over what the last one left. */
  predicate Repackable(buff: seq<byte>, messages: seq<seq<byte>>)
    requires |buff| == CAPACITY
    decreases |messages|
  {
    messages == [] ||
    (&& |messages[0]| <= CAPACITY && Forwardable(Received(messages[0], buff))
     && Repackable(Received(messages[0], buff), messages[1..]))
  }

  function Repacked(buff: seq<byte>, messages: seq<seq<byte>>): seq<seq<byte>>
    requires |buff| == CAPACITY && Repackable(buff, messages)
    decreases |messages|
  {
    if messages == [] then []
    else
      var p := Received(messages[0], buff);
      [Forwarded(p)] + Repacked(p, messages[1..])
  }

  method PipeLoop(thread: PipeThread)
    requires thread.Valid() && thread.source != thread.target
    requires Repackable(thread.buff[..], thread.source.messages)
    modifies thread.source, thread.target, thread.buff, thread.forward
    ensures thread.source.messages == []
    ensures thread.target.messages
            == old(thread.target.messages) + Repacked(old(thread.buff[..]), old(thread.source.messages))
  {
    ghost var all := Repacked(thread.buff[..], thread.source.messages);
    ghost var sent: seq<seq<byte>> := [];
    while thread.source.messages != []
      invariant Repackable(thread.buff[..], thread.source.messages)
      invariant thread.target.messages == old(thread.target.messages) + sent
      invariant all == sent + Repacked(thread.buff[..], thread.source.messages)
      decreases |thread.source.messages|
    {
      ghost var p := Received(thread.source.messages[0], thread.buff[..]);
      ghost var more := Repacked(p, thread.source.messages[1..]);
      thread.Turn();
      assert sent + ([Forwarded(p)] + more) == sent + [Forwarded(p)] + more;
      sent := sent + [Forwarded(p)];
    }
    assert sent + [] == sent;
  }

  // ---------- the forwarding thread ----------

  /** The commands written, the responses left, and whether all messages were handled. */
  datatype Written = Written(wire: seq<seq<byte>>, rest: seq<byte>, finished: bool)

  /** Every message that gets its turn fits its commands if it is sent on. */
  predicate Forwards(b: seq<byte>, messages: seq<seq<byte>>, active: seq<bool>, slaveCount: nat, trace: seq<byte>)
    requires |b| == CAPACITY
    decreases |messages|
  {
    messages == [] ||
    (&& |messages[0]| <= CAPACITY
     && var c := Received(messages[0], b);
        && Fits(c, |messages[0]|, active, slaveCount, trace)
        && var o := Offers(c, active, slaveCount, trace);
           o.finished ==> Forwards(c, messages[1..], active, slaveCount, o.rest))
  }

  function ForwardAll(b: seq<byte>, messages: seq<seq<byte>>, active: seq<bool>, slaveCount: nat, trace: seq<byte>)
    : Written
    requires |b| == CAPACITY && Forwards(b, messages, active, slaveCount, trace)
    decreases |messages|
  {
    if messages == [] then Written([], trace, true)
    else
      var c, n := Received(messages[0], b), |messages[0]|;
      var o := Offers(c, active, slaveCount, trace);
      var first := Direct(c, n) + Repeat(NotifyCommand(c, n), |o.log|);
      if !o.finished then Written(first, o.rest, false)
      else
        var w := ForwardAll(c, messages[1..], active, slaveCount, o.rest);
        w.(wire := first + w.wire)
  }

  method ForwardLoop(thread: Forwarder, active: seq<bool>, slaveCount: nat) returns (finished: bool)
    requires thread.buffer.Length == CAPACITY
    requires Forwards(thread.buffer[..], thread.queue.messages, active, slaveCount, thread.responses)
    modifies thread, thread.queue, thread.buffer
    ensures var w := old(ForwardAll(thread.buffer[..], thread.queue.messages, active, slaveCount, thread.responses));
            thread.wire == old(thread.wire) + w.wire && thread.responses == w.rest && finished == w.finished
    ensures finished ==> thread.queue.messages == []
  {
    ghost var all := ForwardAll(thread.buffer[..], thread.queue.messages, active, slaveCount, thread.responses);
    ghost var sent: seq<seq<byte>> := [];
    finished := true;
    while finished && thread.queue.messages != []
      invariant thread.wire == old(thread.wire) + sent
      invariant finished ==> Forwards(thread.buffer[..], thread.queue.messages, active, slaveCount, thread.responses)
      invariant finished ==>
                var w := ForwardAll(thread.buffer[..], thread.queue.messages, active, slaveCount, thread.responses);
                all == w.(wire := sent + w.wire)
      invariant !finished ==> all == Written(sent, thread.responses, false)
      decreases |thread.queue.messages|
    {
      ghost var m := thread.queue.messages[0];
      ghost var b := Received(m, thread.buffer[..]);
      ghost var o := Offers(b, active, slaveCount, thread.responses);
      ghost var direct, offered, before := Direct(b, |m|), Repeat(NotifyCommand(b, |m|), |o.log|), thread.wire;
      ghost var was := ForwardAll(thread.buffer[..], thread.queue.messages, active, slaveCount, thread.responses);
      finished := thread.Turn(active, slaveCount);
      ghost var later := if finished
        then ForwardAll(thread.buffer[..], thread.queue.messages, active, slaveCount, thread.responses).wire else [];
      Regroup(old(thread.wire), sent, direct, offered);
      Regroup(sent, direct + offered, later, []);
      assert was.wire == direct + offered + later;
      sent := sent + (direct + offered);
    }
    assert sent + [] == sent;
  }

  lemma Regroup(a: seq<seq<byte>>, b: seq<seq<byte>>, c: seq<seq<byte>>, d: seq<seq<byte>>)
    ensures a + b + c + d == a + (b + (c + d)) && a + (b + (c + d)) == a + b + (c + d) && a + (b + c) == a + b + c
  {
  }

  // ---------- from line to line ----------

  datatype Kind = Write | Prepared | Notified

  /** An event on the serial line that carries a value: noise before it, the value, and
      the bytes of its header that do not matter. */
  datatype Request = Request(noise: seq<byte>, kind: Kind, value: seq<byte>, status: byte, first: byte, second: byte)
  {
    /** It fits, and a value that is written is not taken for a command or a ping. */
    predicate Plain() {
      && Noise(noise)
      && if kind.Notified? then |value| <= 89
         else 2 <= |value| <= 87 && value[..2] != [0x30, 0x31] && value[..2] != [0x50, 0x42]
    }

    function Event(): seq<byte>
      requires Plain()
    {
      match kind
      case Write => WriteRequest(value, status, first, second)
      case Prepared => PreparedWrite(value, status, first, second)
      case Notified => Notification(value, status, first, second)
    }

    /** What the forwarding thread is to receive. */
    function Packed(): seq<byte>
      requires Plain()
    {
      match kind
      case Write => [0x00, 0x01, |value|] + value
      case Prepared => [0x00, 0x00, |value| + 2, 0x03, 0x00] + value
      case Notified => [0x00, 0x00, |value|] + value
    }
  }

  predicate AllPlain(rs: seq<Request>) { forall r :: r in rs ==> r.Plain() }

  /** What is on the line. */
  function Line(rs: seq<Request>): seq<byte>
    requires AllPlain(rs)
  {
    if rs == [] then []
    else
      assert rs[0].Plain();
      rs[0].noise + (rs[0].Event() + Line(rs[1..]))
  }

  function Requests(rs: seq<Request>): seq<seq<byte>>
    requires AllPlain(rs)
  {
    if rs == [] then []
    else
      assert rs[0].Plain();
      [rs[0].Event()] + Requests(rs[1..])
  }

  function AllPacked(rs: seq<Request>): seq<seq<byte>>
    requires AllPlain(rs)
  {
    if rs == [] then []
    else
      assert rs[0].Plain();
      [rs[0].Packed()] + AllPacked(rs[1..])
  }

  lemma WriteIsChosen(mem: Memory, r: Request)
    requires r.Plain() && r.kind.Write?
    ensures Chosen(Frame(Over(r.Event(), mem), |r.Event()|)) == [r.Event()]
  {
    var p := Over(r.Event(), mem);
    assert p[13] == r.value[0] && p[14] == r.value[1] && r.value[..2] == [r.value[0], r.value[1]];
    WriteIsRouted(mem, r.value, r.status, r.first, r.second);
  }

  lemma PreparedIsChosen(mem: Memory, r: Request)
    requires r.Plain() && r.kind.Prepared?
    ensures Chosen(Frame(Over(r.Event(), mem), |r.Event()|)) == [r.Event()]
  {
    var p := Over(r.Event(), mem);
    assert p[13] == r.value[0] && p[14] == r.value[1] && r.value[..2] == [r.value[0], r.value[1]];
    PreparedWriteIsRouted(mem, r.value, r.status, r.first, r.second);
  }

  lemma NotificationIsChosen(mem: Memory, r: Request)
    requires r.Plain() && r.kind.Notified?
    ensures Chosen(Frame(Over(r.Event(), mem), |r.Event()|)) == [r.Event()]
  {
    NotificationIsRouted(mem, r.value, r.status, r.first, r.second);
  }

  lemma EventIsWellFormed(r: Request)
    requires r.Plain()
    ensures |r.Event()| <= CAPACITY && WellFormed(r.Event()) && 1 <= r.Event()[2] <= 252
  {
  }

  /** A request is chosen, whatever the buffer held. */
  lemma RequestIsChosen(mem: Memory, r: Request)
    requires r.Plain() && |r.Event()| <= CAPACITY
    ensures Chosen(Frame(Over(r.Event(), mem), |r.Event()|)) == [r.Event()]
  {
    match r.kind
    case Write => WriteIsChosen(mem, r);
    case Prepared => PreparedIsChosen(mem, r);
    case Notified => NotificationIsChosen(mem, r);
  }

  lemma OneRequest(mem: Memory, r: Request, rest: seq<byte>)
    requires r.Plain()
    ensures |r.Event()| <= CAPACITY
    ensures ToPipe(Feed(Framer.Ready(mem), r.noise + (r.Event() + rest)).1)
            == [r.Event()] + ToPipe(Feed(Framer.Ready(Over(r.Event(), mem)), rest).1)
  {
    var e := r.Event();
    EventIsWellFormed(r);
    RequestIsChosen(mem, r);
    SkipNoise(mem, r.noise, e + rest);
    FeedEvent(mem, e, rest);
    FlatMapFirst(Chosen, Frame(Over(e, mem), |e|), Feed(Framer.Ready(Over(e, mem)), rest).1);
  }

  /** The framer and the router pass on exactly the requests, in order. */
  lemma {:induction false} RequestsAreQueued(mem: Memory, rs: seq<Request>)
    requires AllPlain(rs)
    ensures ToPipe(Feed(Framer.Ready(mem), Line(rs)).1) == Requests(rs)
    ensures Queueable(Requests(rs))
    decreases |rs|
  {
    if rs != [] {
      assert rs[0].Plain();
      OneRequest(mem, rs[0], Line(rs[1..]));
      RequestsAreQueued(Over(rs[0].Event(), mem), rs[1..]);
    }
  }

  lemma RequestIsRepacked(buff: seq<byte>, r: Request)
    requires r.Plain() && |buff| == CAPACITY
    ensures |r.Event()| <= CAPACITY
    ensures Forwardable(Received(r.Event(), buff)) && Forwarded(Received(r.Event(), buff)) == r.Packed()
  {
    match r.kind
    case Write => WriteIsRepacked(r.value, r.status, r.first, r.second, buff);
    case Prepared => PreparedWriteIsRepacked(r.value, r.status, r.first, r.second, buff);
    case Notified => OtherIsRepacked(r.value, 0x1B, 0x05, r.status, r.first, r.second, buff);
  }

  /** The pipe thread passes on exactly the values, whatever its buffer held. */
  lemma {:induction false} ValuesAreRepacked(buff: seq<byte>, rs: seq<Request>)
    requires AllPlain(rs) && |buff| == CAPACITY
    ensures Repackable(buff, Requests(rs)) && Repacked(buff, Requests(rs)) == AllPacked(rs)
    decreases |rs|
  {
    if rs != [] {
      var r := rs[0];
      assert r.Plain();
      RequestIsRepacked(buff, r);
      assert Requests(rs)[0] == r.Event() && Requests(rs)[1..] == Requests(rs[1..]);
      ValuesAreRepacked(Received(r.Event(), buff), rs[1..]);
    }
  }

  /** The two commands of a value. */
  function NotifyOf(v: seq<byte>): seq<byte>
    requires |v| <= 87
  {
    [0x01, 0x9B, 0xFD, |v| + 5, 0x00, 0x00, 0x00, 0x07, 0x00] + v
  }

  function WriteOf(v: seq<byte>): seq<byte>
    requires |v| <= 87
  {
    [0x01, 0x92, 0xFD, |v| + 4, 0x00, 0x00, 0x03, 0x00] + v
  }

  /** What should be written: for each value in order that a write request carries, its
      two commands, then the notification once more for each attempt to offer it to
      another connection; for anything else, nothing. */
  function Expected(rs: seq<Request>, active: seq<bool>, slaveCount: nat, trace: seq<byte>): Written
    requires AllPlain(rs)
    decreases |rs|
  {
    if rs == [] then Written([], trace, true)
    else
      assert rs[0].Plain();
      if !rs[0].kind.Write? then Expected(rs[1..], active, slaveCount, trace)
      else
        var v := rs[0].value;
        var o := if slaveCount > 0 then FanOut(active, 0, 0, trace, false) else Outcome([], trace, true);
        var first := [NotifyOf(v), WriteOf(v)] + Repeat(NotifyOf(v), |o.log|);
        if !o.finished then Written(first, o.rest, false)
        else
          var w := Expected(rs[1..], active, slaveCount, o.rest);
          w.(wire := first + w.wire)
  }

  /** One packed value of a write request, over any leftovers. */
  lemma CommandsOf(r: Request, b: seq<byte>)
    requires r.Plain() && r.kind.Write? && |b| == CAPACITY
    ensures |r.Packed()| <= CAPACITY
    ensures var c, n := Received(r.Packed(), b), |r.Packed()|;
            && c[0] == 0x00 && c[1] == 0x01 && n == |r.value| + 3
            && NotifyCommand(c, n) == NotifyOf(r.value) && WriteCommand(c, n) == WriteOf(r.value)
            && Direct(c, n) == [NotifyOf(r.value), WriteOf(r.value)]
  {
    assert Received(r.Packed(), b)[3..|r.value| + 3] == r.value;
  }

  /** One of anything else. */
  lemma NoCommandsOf(r: Request, b: seq<byte>, active: seq<bool>, slaveCount: nat, trace: seq<byte>)
    requires r.Plain() && !r.kind.Write? && |b| == CAPACITY
    ensures |r.Packed()| <= CAPACITY
    ensures var c := Received(r.Packed(), b);
            && Direct(c, |r.Packed()|) == []
            && Offers(c, active, slaveCount, trace) == Outcome([], trace, true)
  {
    if r.kind.Notified? {
      OtherIsNotForwarded(r.value, b, active, slaveCount, trace);
    } else {
      OtherIsNotForwarded([0x03, 0x00] + r.value, b, active, slaveCount, trace);
      assert r.Packed() == [0x00, 0x00, |r.value| + 2] + ([0x03, 0x00] + r.value);
    }
  }

  lemma {:induction false} ValuesAreForwarded(b: seq<byte>, rs: seq<Request>, active: seq<bool>, slaveCount: nat,
                                              trace: seq<byte>)
    requires AllPlain(rs) && |b| == CAPACITY
    ensures Forwards(b, AllPacked(rs), active, slaveCount, trace)
    ensures ForwardAll(b, AllPacked(rs), active, slaveCount, trace) == Expected(rs, active, slaveCount, trace)
    decreases |rs|
  {
    if rs != [] {
      assert rs[0].Plain();
      if rs[0].kind.Write? { CommandsOf(rs[0], b); } else { NoCommandsOf(rs[0], b, active, slaveCount, trace); }
      var m := rs[0].Packed();
      var c := Received(m, b);
      var o := Offers(c, active, slaveCount, trace);
      assert AllPacked(rs)[0] == m && AllPacked(rs)[1..] == AllPacked(rs[1..]);
      ValuesAreForwarded(c, rs[1..], active, slaveCount, o.rest);
      if !rs[0].kind.Write? {
        NothingFirst(ForwardAll(c, AllPacked(rs[1..]), active, slaveCount, o.rest), NotifyCommand(c, |m|));
      }
    }
  }

  lemma NothingFirst(w: Written, c: seq<byte>)
    ensures w.(wire := [] + Repeat(c, 0) + w.wire) == w
  {
  }

  // ---------- the stream that leaves ----------

  function Join(commands: seq<seq<byte>>): seq<byte> {
    if commands == [] then [] else commands[0] + Join(commands[1..])
  }

  lemma {:induction false} CompleteIsCut(commands: seq<seq<byte>>)
    requires forall c :: c in commands ==> Complete(c)
    ensures Cut(Join(commands)) == Some(commands)
  {
    if commands != [] {
      var c, rest := commands[0], Join(commands[1..]);
      assert Complete(c);
      CompleteIsCut(commands[1..]);
      assert (c + rest)[..|c|] == c && (c + rest)[|c|..] == rest;
      assert (c + rest)[0] == c[0] && (c + rest)[3] == c[3];
      assert commands == [c] + commands[1..];
    }
  }

  /** Every command written ends in the value of one of the requests. */
  lemma {:induction false} CommandsCarryValues(rs: seq<Request>, active: seq<bool>, slaveCount: nat, trace: seq<byte>)
    requires AllPlain(rs)
    ensures forall c :: c in Expected(rs, active, slaveCount, trace).wire ==>
              exists r :: r in rs && CarriesValue(c, r.value)
    decreases |rs|
  {
    if rs != [] {
      assert rs[0].Plain();
      if !rs[0].kind.Write? {
        CommandsCarryValues(rs[1..], active, slaveCount, trace);
        return;
      }
      var v, w := rs[0].value, Expected(rs, active, slaveCount, trace).wire;
      var o := if slaveCount > 0 then FanOut(active, 0, 0, trace, false) else Outcome([], trace, true);
      var first := [NotifyOf(v), WriteOf(v)] + Repeat(NotifyOf(v), |o.log|);
      var later := if o.finished then Expected(rs[1..], active, slaveCount, o.rest).wire else [];
      CommandsCarryValues(rs[1..], active, slaveCount, o.rest);
      assert w == first + later;
      assert NotifyOf(v)[9..] == v && WriteOf(v)[8..] == v;
      forall c | c in w ensures exists r :: r in rs && CarriesValue(c, r.value) {
        if c in first {
          assert c == NotifyOf(v) || c == WriteOf(v);
          assert rs[0] in rs && CarriesValue(c, rs[0].value);
        } else {
          assert c in later;
          var r :| r in rs[1..] && CarriesValue(c, r.value);
          assert r in rs;
        }
      }
    }
  }

  /** So the stream that leaves can be cut apart into exactly those commands. */
  lemma RelayedStreamIsCut(rs: seq<Request>, active: seq<bool>, slaveCount: nat, trace: seq<byte>)
    requires AllPlain(rs)
    ensures var w := Expected(rs, active, slaveCount, trace).wire; Cut(Join(w)) == Some(w)
  {
    CommandsCarryValues(rs, active, slaveCount, trace);
    CompleteIsCut(Expected(rs, active, slaveCount, trace).wire);
  }

  // ---------- the threads together ----------

  /** End to end: any number of write requests, prepared writes and notifications, mixed and
      with anything but 02 and 04 between them, over whatever the buffers held before, cause
      exactly the commands of the values written, in the order of the requests; the rest
      waits if a response does not come. */
  method RelayWrites(receiver: Receiver, pipe: PipeThread, forwarder: Forwarder, rs: seq<Request>,
                     active: seq<bool>, slaveCount: nat) returns (finished: bool)
    requires AllPlain(rs) && receiver.rx.Length == RX_SIZE && receiver.View() == Framer.Ready(receiver.rx[..])
    requires pipe.Valid() && pipe.source != pipe.target && pipe.target == forwarder.queue
    requires pipe.source.messages == [] && pipe.target.messages == [] && forwarder.buffer.Length == CAPACITY
    requires forwarder.buffer != pipe.buff && forwarder.buffer != pipe.forward
    requires receiver.rx != pipe.buff && receiver.rx != forwarder.buffer
    modifies receiver, receiver.rx, pipe.source, pipe.target, pipe.buff, pipe.forward, forwarder, forwarder.buffer
    ensures var w := Expected(rs, active, slaveCount, old(forwarder.responses));
            forwarder.wire == old(forwarder.wire) + w.wire && forwarder.responses == w.rest && finished == w.finished
    ensures pipe.source.messages == [] && (finished ==> forwarder.queue.messages == [])
  {
    RequestsAreQueued(receiver.rx[..], rs);
    ReceiveLoop(receiver, pipe.source, Line(rs));
    assert pipe.source.messages == Requests(rs);
    ValuesAreRepacked(pipe.buff[..], rs);
    PipeLoop(pipe);
    assert pipe.target.messages == AllPacked(rs);
    ValuesAreForwarded(forwarder.buffer[..], rs, active, slaveCount, forwarder.responses);
    finished := ForwardLoop(forwarder, active, slaveCount);
  }
}
