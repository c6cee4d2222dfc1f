/** The byte-at-a-time event framer of UartCmdRxThread (UartCmdRxThread.c).

    It collects HCI events `04 code length parameters` (Bluetooth Core
    Specification, Vol 4 Part A section 2 and Part E section 5.4.4) in a buffer that
    is never cleared, with an 8-bit index.  The reference is a parser that looks at
    the whole stream at once. */
module Framer {
  import opened Bytes

  const EVENT: byte := 4   // BLE_EVT_PKT
  const ASYNC: byte := 2   // BLE_ASD_PKT
  const RX_SIZE := 2048

  type Memory = m: seq<byte> | |m| == RX_SIZE witness seq(RX_SIZE, _ => 0)

  datatype State = Idle | Init | EventResponse | EventLength | PacketWait | Error

  datatype Machine = Machine(state: State, index: byte, count: int, mem: Memory)

  /** A completed packet as the router sees it: the whole buffer, and `index`. */
  datatype Frame = Frame(mem: Memory, size: byte)
  {
    /** The bytes the framer says were received. */
    function Packet(): seq<byte> { mem[..size] }
  }

  function Ready(mem: Memory): Machine { Machine(Idle, 0, 0, mem) }

  function Put(m: Machine, b: byte): Machine {
    m.(mem := m.mem[m.index := b], index := Increment(m.index))
  }

  /** One received byte: the next state, and the packet it completes, if any. */
  function Step(m: Machine, b: byte): (Machine, seq<Frame>) {
    var state := if m.index == 0 && m.state == Idle && (b == EVENT || b == ASYNC) then Init else m.state;
    match state
    case Idle => (m.(index := 0, count := 0), [])
    case Init =>
      if b == EVENT then (Put(m, b).(state := EventResponse), [])
      else if b == ASYNC then (Put(m, b).(state := Init), [])
      else (m.(state := Error), [])
    case EventResponse => (Put(m, b).(state := EventLength), [])
    case EventLength => (Put(m, b).(state := PacketWait, count := b), [])
    case PacketWait =>
      var n := Put(m, b).(count := m.count - 1);
      if n.count <= 0 then (Ready(n.mem), [Frame(n.mem, n.index)]) else (n, [])
    case Error => (m, [])
  }

  /** A whole input, byte by byte. */
  function Feed(m: Machine, s: seq<byte>): (Machine, seq<Frame>)
    decreases |s|
  {
    if s == [] then (m, [])
    else
      var (n, first) := Step(m, s[0]);
      var (end, later) := Feed(n, s[1..]);
      (end, first + later)
  }

  // ---------- the receiver ----------

  class Receiver {
    var state: State
    var index: byte
    var count: int
    const rx: array<byte>

    constructor ()
      ensures rx.Length == RX_SIZE && state == Idle && index == 0 && count == 0 && fresh(rx)
    {
      state, index, count := Idle, 0, 0;
      rx := new byte[RX_SIZE];
    }

    ghost function View(): Machine
      requires rx.Length == RX_SIZE
      reads this, rx
    {
      Machine(state, index, count, rx[..])
    }

    method Store(b: byte)
      requires rx.Length == RX_SIZE
      modifies rx, this`index
      ensures View() == Put(old(View()), b)
    {
      rx[index] := b;
      index := Increment(index);
    }

    /** The switch on `current_state`. */
    method OnByte(b: byte) returns (done: bool, size: byte)
      requires rx.Length == RX_SIZE
      modifies this, rx
      ensures View() == Step(old(View()), b).0
      ensures Step(old(View()), b).1 == if done then [Frame(rx[..], size)] else []
    {
      done, size := false, 0;
      if index == 0 && state == Idle && (b == EVENT || b == ASYNC) { state := Init; }
      match state
      case Idle =>
        index, count := 0, 0;
      case Init =>
        if b == EVENT {
          Store(b);
          state := EventResponse;
        } else if b == ASYNC {
          Store(b);
        } else {
          state := Error;
        }
      case EventResponse =>
        Store(b);
        state := EventLength;
      case EventLength =>
        Store(b);
        count := b;
        state := PacketWait;
      case PacketWait =>
        Store(b);
        count := count - 1;
        if count <= 0 {
          done, size := true, index;
          state, index, count := Idle, 0, 0;
        }
      case Error =>
    }

    /** The receive loop over a finite input. */
    method Receive(input: seq<byte>) returns (frames: seq<Frame>)
      requires rx.Length == RX_SIZE
      modifies this, rx
      ensures (View(), frames) == Feed(old(View()), input)
    {
      frames := [];
      for i := 0 to |input|
        invariant Feed(old(View()), input).0 == Feed(View(), input[i..]).0
        invariant Feed(old(View()), input).1 == frames + Feed(View(), input[i..]).1
      {
        ghost var was, rest, before := View(), input[i..], frames;
        var done, size := OnByte(input[i]);
        if done { frames := frames + [Frame(rx[..], size)]; }
        assert rest[1..] == input[i + 1..];
        assert before + (Step(was, input[i]).1 + Feed(View(), rest[1..]).1)
            == before + Step(was, input[i]).1 + Feed(View(), rest[1..]).1;
      }
      assert frames + [] == frames;
    }
  }

  // ---------- the reference parser ----------

  /** Bytes written one after the other from `index`, which wraps after 255. */
  function Fill(mem: Memory, index: byte, s: seq<byte>): Memory
    decreases |s|
  {
    if s == [] then mem else Fill(mem[index := s[0]], Increment(index), s[1..])
  }

  /** How many 0x02 the stream begins with. */
  function Twos(s: seq<byte>): (k: nat)
    ensures k <= |s| && (k < |s| ==> s[k] != ASYNC)
  {
    if s == [] || s[0] != ASYNC then 0 else 1 + Twos(s[1..])
  }

  /** Parameter bytes taken for a declared length: never none. */
  function Taken(length: byte): nat { if length == 0 then 1 else length }

  /** The packets of a stream.  Bytes other than 02 and 04 are skipped; a run of 02
      must be followed by an event, and is kept in front of it; otherwise nothing
      more is ever received. */
  function Parse(mem: Memory, s: seq<byte>): seq<Frame>
    decreases |s|
  {
    if s == [] then []
    else if s[0] != EVENT && s[0] != ASYNC then Parse(mem, s[1..])
    else
      var k := Twos(s);
      if |s| < k + 3 || s[k] != EVENT then []
      else
        var n := k + 3 + Taken(s[k + 2]);
        if |s| < n then []
        else
          var after := Fill(mem, 0, s[..n]);
          [Frame(after, n % 256)] + Parse(after, s[n..])
  }

  // ---------- the machine is the parser ----------

  lemma {:induction false} FillOneMore(mem: Memory, index: byte, s: seq<byte>, b: byte)
    ensures Fill(mem, index, s + [b]) == Fill(mem, index, s)[(index + |s|) % 256 := b]
    decreases |s|
  {
    if s == [] {
      assert Fill(mem[index := b], Increment(index), []) == mem[index := b];
    } else {
      assert (s + [b])[1..] == s[1..] + [b];
      FillOneMore(mem[index := s[0]], Increment(index), s[1..], b);
    }
  }

  /** Position `j` lies inside the packet that the stream starts with. */
  predicate Inside(s: seq<byte>, j: nat) {
    && s != [] && (s[0] == EVENT || s[0] == ASYNC) && j <= |s|
    && var k := Twos(s);
       && (j > k ==> s[k] == EVENT)
       && (j > k + 2 ==> j < k + 3 + Taken(s[k + 2]))
  }

  /** The machine's state there. */
  function Mid(mem: Memory, s: seq<byte>, j: nat): Machine
    requires Inside(s, j)
  {
    var k := Twos(s);
    Machine(
      if j == 0 then Idle else if j <= k then Init else if j == k + 1 then EventResponse
      else if j == k + 2 then EventLength else PacketWait,
      j % 256,
      if j <= k + 2 then 0 else s[k + 2] - (j - k - 3),
      Fill(mem, 0, s[..j]))
  }

  /** A byte that is stored extends what has been filled in. */
  lemma MidPut(mem: Memory, s: seq<byte>, j: nat)
    requires Inside(s, j) && j < |s|
    ensures Put(Mid(mem, s, j), s[j]).mem == Fill(mem, 0, s[..j + 1])
    ensures Put(Mid(mem, s, j), s[j]).index == (j + 1) % 256
  {
    assert s[..j + 1] == s[..j] + [s[j]];
    FillOneMore(mem, 0, s[..j], s[j]);
    assert (0 + |s[..j]|) % 256 == j % 256;
  }

  /** One more byte inside the packet moves the machine on. */
  lemma MidStep(mem: Memory, s: seq<byte>, j: nat)
    requires Inside(s, j) && j < |s| && Inside(s, j + 1)
    ensures Step(Mid(mem, s, j), s[j]) == (Mid(mem, s, j + 1), [])
  {
    MidPut(mem, s, j);
    if j < Twos(s) { TwosAre(s, j); }
  }

  /** The last byte of the packet delivers it. */
  lemma LastStep(mem: Memory, s: seq<byte>, j: nat)
    requires Inside(s, j) && j < |s|
    requires var k := Twos(s); j > k + 2 && j + 1 == k + 3 + Taken(s[k + 2])
    ensures var after := Fill(mem, 0, s[..j + 1]);
            Step(Mid(mem, s, j), s[j]) == (Ready(after), [Frame(after, (j + 1) % 256)])
  {
    MidPut(mem, s, j);
    assert Mid(mem, s, j).state == PacketWait && Mid(mem, s, j).count <= 1;
  }

  /** A run of 02 that no event follows is an error. */
  lemma ErrorStep(mem: Memory, s: seq<byte>)
    requires var k := Twos(s); 0 < k < |s| && s[k] != EVENT
    ensures var k := Twos(s);
            && Inside(s, k)
            && Step(Mid(mem, s, k), s[k]).0.state == Error && Step(Mid(mem, s, k), s[k]).1 == []
  {
  }

  lemma {:induction false} TwosAre(s: seq<byte>, j: nat)
    requires j < Twos(s)
    ensures s[j] == ASYNC
  {
    if j > 0 { TwosAre(s[1..], j - 1); }
  }

  /** A byte that completes nothing only moves the machine on. */
  lemma FeedQuiet(m: Machine, s: seq<byte>)
    requires s != [] && Step(m, s[0]).1 == []
    ensures Feed(m, s) == Feed(Step(m, s[0]).0, s[1..])
  {
    var later := Feed(Step(m, s[0]).0, s[1..]);
    assert [] + later.1 == later.1;
  }

  /** Inside a packet nothing is delivered. */
  lemma {:induction false} Advance(mem: Memory, s: seq<byte>, i: nat, j: nat)
    requires i <= j && Inside(s, j)
    ensures Inside(s, i) && Feed(Mid(mem, s, i), s[i..]) == Feed(Mid(mem, s, j), s[j..])
    decreases j - i
  {
    if i < j {
      MidStep(mem, s, i);
      Advance(mem, s, i + 1, j);
      assert s[i..][1..] == s[i + 1..] && s[i..][0] == s[i];
      FeedQuiet(Mid(mem, s, i), s[i..]);
    }
  }

  /** In STATE_ERROR nothing is ever received again. */
  lemma {:induction false} ErrorIsFinal(m: Machine, s: seq<byte>)
    requires m.state == Error
    ensures Feed(m, s) == (m, [])
    decreases |s|
  {
    if s != [] {
      FeedQuiet(m, s);
      ErrorIsFinal(m, s[1..]);
    }
  }

  /** A whole packet at the front of the stream is delivered, and the rest goes on from there. */
  lemma FeedPacket(mem: Memory, s: seq<byte>)
    requires s != [] && (s[0] == EVENT || s[0] == ASYNC)
    requires var k := Twos(s); |s| >= k + 3 && s[k] == EVENT && |s| >= k + 3 + Taken(s[k + 2])
    ensures var n := Twos(s) + 3 + Taken(s[Twos(s) + 2]);
            var after := Fill(mem, 0, s[..n]);
            && Feed(Ready(mem), s).0 == Feed(Ready(after), s[n..]).0
            && Feed(Ready(mem), s).1 == [Frame(after, n % 256)] + Feed(Ready(after), s[n..]).1
  {
    var n := Twos(s) + 3 + Taken(s[Twos(s) + 2]);
    assert s[..0] == [] && s[0..] == s;
    Advance(mem, s, 0, n - 1);
    LastStep(mem, s, n - 1);
    assert s[n - 1..][1..] == s[n..];
  }

  /** A run of 02 that no event follows leads there. */
  lemma Stick(mem: Memory, s: seq<byte>)
    requires var k := Twos(s); 0 < k < |s| && s[k] != EVENT
    ensures Feed(Ready(mem), s).0.state == Error && Feed(Ready(mem), s).1 == []
  {
    var k := Twos(s);
    assert s[..0] == [] && s[0..] == s;
    Advance(mem, s, 0, k);
    ErrorStep(mem, s);
    FeedQuiet(Mid(mem, s, k), s[k..]);
    ErrorIsFinal(Step(Mid(mem, s, k), s[k]).0, s[k..][1..]);
  }

  /** A packet that is not complete keeps the machine inside it. */
  lemma Incomplete(mem: Memory, s: seq<byte>)
    requires s != [] && (s[0] == EVENT || s[0] == ASYNC)
    requires var k := Twos(s); k < |s| ==> s[k] == EVENT && (|s| < k + 3 || |s| < k + 3 + Taken(s[k + 2]))
    ensures Feed(Ready(mem), s).0.state != Error && Feed(Ready(mem), s).1 == []
  {
    assert s[..0] == [] && s[0..] == s && s[|s|..] == [];
    Advance(mem, s, 0, |s|);
  }

  /** On every stream and every leftover memory, the byte-at-a-time machine delivers
      exactly the packets of the parser, in order. */
  lemma {:induction false} FramerIsParser(mem: Memory, s: seq<byte>)
    ensures Feed(Ready(mem), s).1 == Parse(mem, s)
    decreases |s|
  {
    if s == [] {
    } else if s[0] != EVENT && s[0] != ASYNC {
      FeedQuiet(Ready(mem), s);
      FramerIsParser(mem, s[1..]);
    } else {
      var k := Twos(s);
      if k < |s| && s[k] != EVENT {
        Stick(mem, s);
      } else if |s| < k + 3 || |s| < k + 3 + Taken(s[k + 2]) {
        Incomplete(mem, s);
      } else {
        var n := k + 3 + Taken(s[k + 2]);
        FeedPacket(mem, s);
        FramerIsParser(Fill(mem, 0, s[..n]), s[n..]);
      }
    }
  }

  // ---------- where reception stops ----------

  /** Somewhere a packet of the stream starts with a run of 02 that is followed by
      something other than 04. */
  predicate Sticks(s: seq<byte>)
    decreases |s|
  {
    s != [] &&
    if s[0] != EVENT && s[0] != ASYNC then Sticks(s[1..])
    else
      var k := Twos(s);
      if k < |s| && s[k] != EVENT then true
      else if |s| < k + 3 || |s| < k + 3 + Taken(s[k + 2]) then false
      else Sticks(s[k + 3 + Taken(s[k + 2])..])
  }

  /** After any stream, over any leftovers, the machine is in STATE_ERROR, where it
      stays, exactly when the stream has such a place. */
  lemma {:induction false} StuckExactly(mem: Memory, s: seq<byte>)
    ensures Feed(Ready(mem), s).0.state == Error <==> Sticks(s)
    decreases |s|
  {
    if s == [] {
    } else if s[0] != EVENT && s[0] != ASYNC {
      FeedQuiet(Ready(mem), s);
      StuckExactly(mem, s[1..]);
    } else {
      var k := Twos(s);
      if k < |s| && s[k] != EVENT {
        Stick(mem, s);
      } else if |s| < k + 3 || |s| < k + 3 + Taken(s[k + 2]) {
        Incomplete(mem, s);
      } else {
        var n := k + 3 + Taken(s[k + 2]);
        FeedPacket(mem, s);
        StuckExactly(Fill(mem, 0, s[..n]), s[n..]);
      }
    }
  }

  /** A stream splits: what comes later is fed to the machine that the rest left. */
  lemma {:induction false} FeedSplits(m: Machine, s: seq<byte>, t: seq<byte>)
    ensures Feed(m, s + t).0 == Feed(Feed(m, s).0, t).0
    ensures Feed(m, s + t).1 == Feed(m, s).1 + Feed(Feed(m, s).0, t).1
    decreases |s|
  {
    if s == [] {
      assert s + t == t && [] + Feed(m, t).1 == Feed(m, t).1;
    } else {
      var (n, first) := Step(m, s[0]);
      assert (s + t)[1..] == s[1..] + t;
      FeedSplits(n, s[1..], t);
      assert first + (Feed(n, s[1..]).1 + Feed(Feed(m, s).0, t).1) == Feed(m, s).1 + Feed(Feed(m, s).0, t).1;
    }
  }

  predicate IdleAtZero(m: Machine) { m.state == Idle ==> m.index == 0 }

  lemma {:induction false} FeedKeepsIdleAtZero(m: Machine, s: seq<byte>)
    requires IdleAtZero(m)
    ensures IdleAtZero(Feed(m, s).0)
    decreases |s|
  {
    if s != [] { FeedKeepsIdleAtZero(Step(m, s[0]).0, s[1..]); }
  }

  /** The parameters of a packet can always be brought to an end. */
  lemma {:induction false} ParametersEnd(m: Machine) returns (t: seq<byte>)
    requires m.state == PacketWait
    ensures Feed(m, t).1 != []
    decreases m.count
  {
    var n := Step(m, 0).0;
    if m.count <= 1 {
      t := [0];
    } else {
      var u := ParametersEnd(n);
      t := [0] + u;
      assert t[1..] == u;
    }
  }

  /** Bytes a packet still needs before its parameters. */
  function HeaderLeft(state: State): nat {
    match state case PacketWait => 0 case EventLength => 1 case EventResponse => 2 case _ => 3
  }

  /** From every state but STATE_ERROR some bytes complete a packet. */
  lemma {:induction false} SomethingCompletes(m: Machine) returns (t: seq<byte>)
    requires m.state != Error && IdleAtZero(m)
    ensures Feed(m, t).1 != []
    decreases HeaderLeft(m.state)
  {
    if m.state == PacketWait {
      t := ParametersEnd(m);
    } else {
      var b := if HeaderLeft(m.state) == 3 then EVENT else 0;
      var u := SomethingCompletes(Step(m, b).0);
      t := [b] + u;
      assert t[1..] == u;
    }
  }

  /** Nothing more is ever delivered after a stream, whatever follows, exactly when the
      stream sticks. */
  lemma ReceptionStops(mem: Memory, s: seq<byte>)
    ensures (forall t :: Feed(Ready(mem), s + t).1 == Feed(Ready(mem), s).1) <==> Sticks(s)
  {
    var m, frames := Feed(Ready(mem), s).0, Feed(Ready(mem), s).1;
    StuckExactly(mem, s);
    if Sticks(s) {
      forall t ensures Feed(Ready(mem), s + t).1 == frames {
        FeedSplits(Ready(mem), s, t);
        ErrorIsFinal(m, t);
        assert frames + [] == frames;
      }
    } else {
      FeedKeepsIdleAtZero(Ready(mem), s);
      var t := SomethingCompletes(m);
      FeedSplits(Ready(mem), s, t);
      assert |Feed(Ready(mem), s + t).1| > |frames|;
    }
  }

  // ---------- round trip ----------

  /** An HCI event whose length byte counts what follows. */
  predicate WellFormed(e: seq<byte>) { |e| >= 3 && e[0] == EVENT && |e| - 3 == e[2] }

  /** Something else than 02 and 04 on the line between events. */
  predicate Noise(s: seq<byte>) { EVENT !in s && ASYNC !in s }

  datatype Item = Item(noise: seq<byte>, event: seq<byte>)

  function Stream(items: seq<Item>): seq<byte> {
    if items == [] then [] else items[0].noise + (items[0].event + Stream(items[1..]))
  }

  function Packets(frames: seq<Frame>): seq<seq<byte>> {
    if frames == [] then [] else [frames[0].Packet()] + Packets(frames[1..])
  }

  function Events(items: seq<Item>): seq<seq<byte>> {
    if items == [] then [] else [items[0].event] + Events(items[1..])
  }

  lemma {:induction false} FillIsOverlay(mem: Memory, i: nat, s: seq<byte>)
    requires i + |s| <= 256
    ensures i < 256 ==> Fill(mem, i, s) == mem[..i] + s + mem[i + |s|..]
    decreases |s|
  {
    if s != [] && i < 256 {
      if i == 255 {
        assert s[1..] == [];
        assert Fill(mem, i, s) == mem[i := s[0]];
      } else {
        FillIsOverlay(mem[i := s[0]], i + 1, s[1..]);
      }
      assert mem[..i] + s + mem[i + |s|..] == mem[i := s[0]][..i] + [s[0]] + s[1..] + mem[i + |s|..];
    }
  }

  lemma {:induction false} SkipNoise(mem: Memory, noise: seq<byte>, s: seq<byte>)
    requires Noise(noise)
    ensures Feed(Ready(mem), noise + s) == Feed(Ready(mem), s)
    decreases |noise|
  {
    if noise == [] {
      assert noise + s == s;
    } else {
      assert (noise + s)[1..] == noise[1..] + s;
      FeedQuiet(Ready(mem), noise + s);
      SkipNoise(mem, noise[1..], s);
    }
  }

  /** One event of length 1 to 252 in front of anything else. */
  lemma FeedEvent(mem: Memory, e: seq<byte>, rest: seq<byte>)
    requires WellFormed(e) && 1 <= e[2] <= 252
    ensures var after: Memory := e + mem[|e|..];
            && Feed(Ready(mem), e + rest).0 == Feed(Ready(after), rest).0
            && Feed(Ready(mem), e + rest).1 == [Frame(after, |e|)] + Feed(Ready(after), rest).1
  {
    var s := e + rest;
    assert Twos(s) == 0 && s[..|e|] == e && s[|e|..] == rest;
    FeedPacket(mem, s);
    FillIsOverlay(mem, 0, e);
    assert mem[..0] + e + mem[|e|..] == e + mem[|e|..];
  }

  /** The first packet delivered for an event is that event exactly when its declared
      length is between 1 and 252: a length of 0 swallows the next byte, and from 253
      on the 8-bit index has wrapped. */
  lemma LengthIsExact(mem: Memory, e: seq<byte>, rest: seq<byte>)
    requires WellFormed(e) && (e[2] == 0 ==> rest != [])
    ensures var frames := Feed(Ready(mem), e + rest).1;
            frames != [] && (frames[0].Packet() == e <==> 1 <= e[2] <= 252)
  {
    var s := e + rest;
    assert s[0] == e[0] && s[2] == e[2] && Twos(s) == 0;
    FeedPacket(mem, s);
    if 1 <= e[2] <= 252 {
      FeedEvent(mem, e, rest);
      assert Frame(e + mem[|e|..], |e|).Packet() == e;
    } else {
      assert Feed(Ready(mem), s).1[0].size != |e|;
    }
  }

  /** Every declared length is one the framer can count. */
  predicate Countable(items: seq<Item>) { forall it :: it in items ==> |it.event| >= 3 && 1 <= it.event[2] <= 252 }

  /** The framer gives back exactly the events that were sent, byte for byte and in
      order, whatever lies between them and whatever was received before, if and only
      if their declared lengths are 1 to 252; it is then idle again. */
  lemma {:induction false} RoundTrip(mem: Memory, items: seq<Item>)
    requires forall it :: it in items ==> Noise(it.noise) && WellFormed(it.event)
    ensures Packets(Feed(Ready(mem), Stream(items)).1) == Events(items) <==> Countable(items)
    ensures Countable(items) ==> exists end :: Feed(Ready(mem), Stream(items)).0 == Ready(end)
    decreases |items|
  {
    if items == [] {
      assert Feed(Ready(mem), Stream(items)).0 == Ready(mem);
    } else {
      var e, rest := items[0].event, Stream(items[1..]);
      SkipNoise(mem, items[0].noise, e + rest);
      assert Events(items)[0] == e && Events(items)[1..] == Events(items[1..]);
      assert forall it :: it in items <==> it == items[0] || it in items[1..];
      if 1 <= e[2] <= 252 {
        var after: Memory := e + mem[|e|..];
        FeedEvent(mem, e, rest);
        RoundTrip(after, items[1..]);
        PacketsAfter(Frame(after, |e|), Feed(Ready(after), rest).1);
        assert Frame(after, |e|).Packet() == e;
      } else {
        FirstIsLost(mem, e, rest);
      }
    }
  }

  lemma PacketsAfter(f: Frame, later: seq<Frame>)
    ensures Packets([f] + later) == [f.Packet()] + Packets(later)
    ensures Packets([f] + later)[0] == f.Packet() && Packets([f] + later)[1..] == Packets(later)
  {
    assert ([f] + later)[1..] == later;
  }

  /** Of an event of any other length, nothing or something else is delivered. */
  lemma FirstIsLost(mem: Memory, e: seq<byte>, rest: seq<byte>)
    requires WellFormed(e) && !(1 <= e[2] <= 252)
    ensures var packets := Packets(Feed(Ready(mem), e + rest).1); packets == [] || packets[0] != e
  {
    if e[2] == 0 && rest == [] {
      assert e + rest == e && Twos(e) == 0;
      Incomplete(mem, e);
    } else {
      LengthIsExact(mem, e, rest);
    }
  }

  // ---------- a 02 at the wrong place ----------

  /** A 02 at the start of a packet that is followed, after any more of them, by
      something other than 04 stops reception for good. */
  lemma AsyncSticks(mem: Memory, twos: seq<byte>, b: byte, rest: seq<byte>)
    requires twos != [] && (forall k :: 0 <= k < |twos| ==> twos[k] == ASYNC) && b != ASYNC && b != EVENT
    ensures Feed(Ready(mem), twos + [b] + rest).1 == []
    ensures Feed(Ready(mem), twos + [b] + rest).0.state == Error
  {
    var s := twos + [b] + rest;
    CountTwos(s, |twos|);
    StuckExactly(mem, s);
    Stick(mem, s);
  }

  lemma {:induction false} CountTwos(s: seq<byte>, n: nat)
    requires n < |s| && s[n] != ASYNC && forall k :: 0 <= k < n ==> s[k] == ASYNC
    ensures Twos(s) == n
  {
    if n > 0 { CountTwos(s[1..], n - 1); }
  }
}
