/** The disconnect handshake of the line publisher (pub_client.c).

    The main loop and the network thread share four globals without a lock.  Each
    read and write of a shared variable is one step here, and a run is any
    interleaving of the two threads with the broker's acknowledgements.  Publishing
    succeeds, messages are acknowledged in the order they were sent (section 4.6 of
    MQTT 3.1.1), and a message id is not in use when it is given out (section 2.3.1). */
module PubHandshake {
  datatype Status = Connecting | ConnackReceived | Waiting

  datatype Globals = Globals(
    status: Status, midSent: int, lastMid: int, lastMidSent: int, disconnectSent: bool, connected: bool)

  /** Where the main thread is; the numbers are lines of the source. */
  datatype MainPc =
    | LoopTest       // 431: while (... && connected)
    | TestConnack    // 388: status == STATUS_CONNACK_RECVD
    | TestWaiting    // 416: status == STATUS_WAITING
    | ReadLine       // 391: fgets, then publish or notice the end of input
    | SetLastMid     // 413
    | SetWaiting     // 414
    | CompareMids    // 417: last_mid_sent == last_mid
    | TestSent       // 417: disconnect_sent == false
    | MainRequest    // 418
    | MainMark       // 419
    | Exited

  /** Where the publish callback is: lines 112, 113 and 114. */
  datatype CallbackPc = Idle | CompareAck(mid: int) | CallbackRequest | CallbackMark

  /** Messages published, the ids not yet acknowledged in order, end of input. */
  datatype World = World(published: nat, inFlight: seq<int>, eof: bool)

  /** `byMain` and `byCallback` count the disconnects each thread has requested. */
  datatype State = State(
    g: Globals, main: MainPc, callback: CallbackPc, w: World, byMain: nat, byCallback: nat)
  {
    /** The main thread has seen the two ids agree. */
    predicate Deciding() { main.TestSent? || main.MainRequest? || main.MainMark? }

    /** So has the callback. */
    predicate Requesting() { callback.CallbackRequest? || callback.CallbackMark? }

    function Requests(): nat { byMain + byCallback }

    /** The input is at its end and every message, of which there are some, is acknowledged. */
    predicate Finished() { w.eof && w.inFlight == [] && w.published > 0 }
  }

  predicate Initial(s: State) {
    && s.g.status.Connecting? && s.g.midSent == 0 && s.g.lastMid == -1 && s.g.lastMidSent == -1
    && !s.g.disconnectSent && s.g.connected
    && s.main.LoopTest? && s.callback.Idle? && s.w.published == 0 && s.w.inFlight == [] && !s.w.eof
    && s.byMain == 0 && s.byCallback == 0
  }

  datatype Event =
    | Main               // the main thread takes a step that is not a read of the input
    | Line(mid: int)     // the main thread reads a line and publishes it under this id
    | EndOfInput         // the main thread finds the input at its end
    | Callback           // the publish callback takes a step
    | Ack                // the next acknowledgement arrives and starts the callback (line 110)
    | Connack            // the connect callback runs (line 71), on connecting or reconnecting
    | Disconnected       // the disconnect callback runs (line 105)

  function MainStep(s: State): State {
    match s.main
    case LoopTest => s.(main := if s.g.connected then TestConnack else Exited)
    case TestConnack => s.(main := if s.g.status.ConnackReceived? then ReadLine else TestWaiting)
    case TestWaiting => s.(main := if s.g.status.Waiting? then CompareMids else LoopTest)
    case ReadLine => s
    case SetLastMid => s.(g := s.g.(lastMid := s.g.midSent), main := SetWaiting)
    case SetWaiting => s.(g := s.g.(status := Waiting), main := LoopTest)
    case CompareMids => s.(main := if s.g.lastMidSent == s.g.lastMid then TestSent else LoopTest)
    case TestSent => s.(main := if s.g.disconnectSent then LoopTest else MainRequest)
    case MainRequest => s.(byMain := s.byMain + 1, main := MainMark)
    case MainMark => s.(g := s.g.(disconnectSent := true), main := LoopTest)
    case Exited => s
  }

  function CallbackStep(s: State): State {
    match s.callback
    case Idle => s
    case CompareAck(mid) => s.(callback := if mid == s.g.lastMid then CallbackRequest else Idle)
    case CallbackRequest => s.(byCallback := s.byCallback + 1, callback := CallbackMark)
    case CallbackMark => s.(g := s.g.(disconnectSent := true), callback := Idle)
  }

  /** Whether an event can happen. */
  predicate Enabled(s: State, e: Event) {
    match e
    case Main => true
    case Line(mid) => s.main.ReadLine? && !s.w.eof && 1 <= mid <= 65535 && mid !in s.w.inFlight
    case EndOfInput => s.main.ReadLine?
    case Callback => true
    case Ack => s.callback.Idle? && s.w.inFlight != []
    case Connack => s.callback.Idle?
    case Disconnected => s.callback.Idle?
  }

  /** Its effect. */
  function Apply(s: State, e: Event): State
    requires Enabled(s, e)
  {
    match e
    case Main => MainStep(s)
    case Line(mid) =>
      s.(g := s.g.(midSent := mid), w := World(s.w.published + 1, s.w.inFlight + [mid], false), main := LoopTest)
    case EndOfInput => s.(w := s.w.(eof := true), main := SetLastMid)
    case Callback => CallbackStep(s)
    case Ack =>
      var mid := s.w.inFlight[0];
      s.(g := s.g.(lastMidSent := mid), w := s.w.(inFlight := s.w.inFlight[1..]), callback := CompareAck(mid))
    case Connack => s.(g := s.g.(status := ConnackReceived))
    case Disconnected => s.(g := s.g.(connected := false))
  }

  /** The id most recently acknowledged is given out again. */
  predicate Reuses(s: State, e: Event) { e.Line? && e.mid == s.g.lastMidSent }

  /** A run: any sequence of events that can happen, one after the other. */
  ghost predicate IsRun(states: seq<State>, events: seq<Event>) {
    && |states| == |events| + 1 && Initial(states[0])
    && forall k {:trigger events[k]} :: 0 <= k < |events| ==> Follows(states[k], events[k], states[k + 1])
  }

  ghost predicate Follows(s: State, e: Event, t: State) { Enabled(s, e) && t == Apply(s, e) }

  /** That does harm only while the connection is up. */
  predicate Harmful(s: State, e: Event) { Reuses(s, e) && s.g.connected }

  /** No line of the run reuses the id acknowledged last while connected. */
  ghost predicate Careful(states: seq<State>, events: seq<Event>)
    requires |states| == |events| + 1
  {
    forall k {:trigger events[k]} :: 0 <= k < |events| ==> !Harmful(states[k], events[k])
  }

  // ---------- the invariant ----------

  /** How the ids in the globals relate to the messages sent and acknowledged. */
  ghost predicate Ids(g: Globals, w: World) {
    && |w.inFlight| <= w.published
    && (forall k :: 0 <= k < |w.inFlight| ==> 1 <= w.inFlight[k])
    && -1 <= g.lastMidSent != 0
    && (g.lastMidSent == -1 <==> w.published == |w.inFlight|)
    && g.midSent == (if w.published == 0 then 0
                     else if w.inFlight == [] then g.lastMidSent else w.inFlight[|w.inFlight| - 1])
    && (g.lastMid == -1 || (w.eof && g.lastMid == g.midSent))
    && (w.published > 0 ==> !g.status.Connecting?)
  }

  /** What each program point knows. */
  ghost predicate Points(s: State) {
    && (s.callback.CompareAck? ==> s.g.lastMidSent != -1 && s.callback.mid == s.g.lastMidSent)
    && (s.callback.CallbackMark? ==> s.byCallback > 0)
    && (s.main.ReadLine? ==> s.g.status.ConnackReceived?)
    && (s.main.SetLastMid? ==> s.w.eof && !s.g.status.Connecting?)
    && (s.main.SetWaiting? ==> !s.g.status.Connecting?)
    && (s.main.SetWaiting? || s.g.status.Waiting? || s.main.CompareMids? || s.Deciding() ==>
          s.w.eof && s.g.lastMid == s.g.midSent)
    && (s.g.disconnectSent ==> s.Requests() > 0)
    && (s.Requests() > 0 || s.Requesting() ==> s.w.eof)
  }

  /** The main thread asks at most once. */
  ghost predicate OnceByMain(s: State) {
    && s.byMain <= 1
    && (s.main.MainRequest? ==> s.byMain == 0)
    && (s.main.MainMark? ==> s.byMain == 1)
    && (s.byMain == 1 ==> s.g.disconnectSent || s.main.MainMark?)
  }

  ghost predicate Inv(s: State) { Ids(s.g, s.w) && Points(s) && OnceByMain(s) }

  /** Until the connection is down, ids in careful runs repeat neither in flight nor on the one acknowledged last. */
  ghost predicate Distinct(s: State) {
    && s.g.lastMidSent !in s.w.inFlight
    && forall i, j :: 0 <= i < j < |s.w.inFlight| ==> s.w.inFlight[i] != s.w.inFlight[j]
  }

  /** So whoever asks for a disconnect does so at the end, and the callback once. */
  ghost predicate Settled(s: State) {
    && (s.Requests() > 0 || s.Deciding() || s.Requesting() ==> s.Finished())
    && s.byCallback <= 1
    && (s.callback.CompareAck? || s.callback.CallbackRequest? ==> s.byCallback == 0)
  }

  lemma StepKeepsIds(s: State, e: Event)
    requires Inv(s) && Enabled(s, e)
    ensures Ids(Apply(s, e).g, Apply(s, e).w)
  {
    var t := Apply(s, e);
    assert e.Ack? && t.w.inFlight != [] ==> t.w.inFlight[|t.w.inFlight| - 1] == s.w.inFlight[|s.w.inFlight| - 1];
  }

  lemma StepKeepsPoints(s: State, e: Event)
    requires Inv(s) && Enabled(s, e)
    ensures Points(Apply(s, e))
  {
    assert s.main.SetLastMid? ==> s.w.eof;
  }

  lemma StepKeepsInv(s: State, e: Event)
    requires Inv(s) && Enabled(s, e)
    ensures Inv(Apply(s, e))
  {
    StepKeepsIds(s, e);
    StepKeepsPoints(s, e);
  }

  lemma StepKeepsDistinct(s: State, e: Event)
    requires Inv(s) && Distinct(s) && Enabled(s, e) && !Reuses(s, e)
    ensures Distinct(Apply(s, e))
  {
  }

  lemma StepKeepsSettled(s: State, e: Event)
    requires Inv(s) && Distinct(s) && Settled(s) && Enabled(s, e)
    ensures Settled(Apply(s, e))
  {
    assert s.w.inFlight != [] ==> s.g.lastMidSent != s.g.midSent;
  }

  /** The connection is down before the end of the input, and the main thread is on
      its way out without having asked. */
  ghost predicate Dead(s: State) {
    && !s.g.connected && !s.w.eof && s.Requests() == 0 && !s.Requesting()
    && (s.main.LoopTest? || s.main.Exited?)
  }

  ghost predicate Calm(s: State) { (Distinct(s) && Settled(s)) || Dead(s) }

  lemma StepKeepsDead(s: State, e: Event)
    requires Inv(s) && Dead(s) && Enabled(s, e)
    ensures Dead(Apply(s, e))
  {
  }

  /** A careful step keeps everything. */
  lemma CarefulStep(s: State, e: Event, t: State)
    requires Inv(s) && Calm(s) && Follows(s, e, t) && !Harmful(s, e)
    ensures Calm(t)
  {
    if Dead(s) {
      StepKeepsDead(s, e);
    } else if Reuses(s, e) {
      assert Dead(t);
    } else {
      StepKeepsDistinct(s, e);
      StepKeepsSettled(s, e);
    }
  }

  lemma InitialHolds(s: State)
    requires Initial(s)
    ensures Inv(s) && Distinct(s) && Settled(s)
  {
  }

  lemma {:induction false} RunKeepsInv(states: seq<State>, events: seq<Event>, k: nat)
    requires IsRun(states, events) && k < |states|
    ensures Inv(states[k])
  {
    if k == 0 {
      InitialHolds(states[0]);
    } else {
      RunKeepsInv(states, events, k - 1);
      assert Follows(states[k - 1], events[k - 1], states[k]);
      StepKeepsInv(states[k - 1], events[k - 1]);
    }
  }

  lemma {:induction false} CarefulRunSettles(states: seq<State>, events: seq<Event>, k: nat)
    requires IsRun(states, events) && Careful(states, events) && k < |states|
    ensures Calm(states[k])
  {
    if k == 0 {
      InitialHolds(states[0]);
    } else {
      RunKeepsInv(states, events, k - 1);
      CarefulRunSettles(states, events, k - 1);
      assert Follows(states[k - 1], events[k - 1], states[k - 1 + 1]);
      CarefulStep(states[k - 1], events[k - 1], states[k]);
    }
  }

  // ---------- safety ----------

  /** In every careful run, whoever asks for a disconnect does so after the end of
      the input and after the last message was acknowledged; each thread asks at
      most once; and with nothing published there is no request at all. */
  lemma DisconnectsAreSafe(states: seq<State>, events: seq<Event>, k: nat)
    requires IsRun(states, events) && Careful(states, events) && k < |states|
    ensures states[k].Requests() > 0 ==> states[k].Finished()
    ensures states[k].byMain <= 1 && states[k].byCallback <= 1
  {
    RunKeepsInv(states, events, k);
    CarefulRunSettles(states, events, k);
  }

  // ---------- when the callback asks ----------

  /** `i` is where the callback started by event `k` takes its first step, or the end
      `x` of the stretch looked at if it has taken none. */
  predicate FirstStep(events: seq<Event>, k: nat, i: nat, x: nat) {
    && k < i <= x <= |events|
    && (forall y :: k < y < i ==> !events[y].Callback?)
    && (i < x ==> events[i].Callback?)
  }

  /** How far the callback has come that found `lastMid` to be its own id or not. */
  predicate Progress(s: State, before: nat, same: bool) {
    if same then
      || (s.callback.CallbackRequest? && s.byCallback == before)
      || (s.callback.CallbackMark? && s.byCallback == before + 1)
      || (s.callback.Idle? && s.byCallback == before + 1 && s.g.disconnectSent)
    else s.callback.Idle? && s.byCallback == before
  }

  /** The callback from an acknowledgement in event `k` until it is idle again,
      whatever else happens in between. */
  lemma {:induction false} CallbackRuns(states: seq<State>, events: seq<Event>, k: nat, x: nat) returns (i: nat)
    requires IsRun(states, events) && k < x <= |events| && events[k].Ack?
    requires forall y :: k < y < x ==> !states[y].callback.Idle?
    ensures FirstStep(events, k, i, x)
    ensures states[k].w.inFlight != []
    ensures forall y :: k < y <= i ==>
              states[y].callback == CompareAck(states[k].w.inFlight[0]) && states[y].byCallback == states[k].byCallback
    ensures i < x ==>
              Progress(states[x], states[k].byCallback, states[i].g.lastMid == states[k].w.inFlight[0])
    decreases x - k
  {
    assert Follows(states[x - 1], events[x - 1], states[x - 1 + 1]);
    if x == k + 1 {
      i := x;
    } else {
      i := CallbackRuns(states, events, k, x - 1);
      if i == x - 1 && !events[x - 1].Callback? { i := x; }
    }
  }

  /** An acknowledgement of id m makes the callback ask for one disconnect if the id
      in last_mid is m when the callback takes its first step, and for none otherwise,
      whatever the main thread and the broker do in between. */
  lemma CallbackAsksExactly(states: seq<State>, events: seq<Event>, k: nat, j: nat) returns (i: nat)
    requires IsRun(states, events) && k < j <= |events| && events[k].Ack?
    requires states[j].callback.Idle? && forall y :: k < y < j ==> !states[y].callback.Idle?
    ensures FirstStep(events, k, i, j) && i < j && states[k].w.inFlight != []
    ensures var asks := states[i].g.lastMid == states[k].w.inFlight[0];
            && states[j].byCallback == states[k].byCallback + (if asks then 1 else 0)
            && (asks ==> states[j].g.disconnectSent)
  {
    i := CallbackRuns(states, events, k, j);
  }

  /** Once the main thread has noted the last id, it keeps it. */
  lemma {:induction false} LastMidIsKept(states: seq<State>, events: seq<Event>, k: nat, i: nat)
    requires IsRun(states, events) && k <= i <= |events| && states[k].g.lastMid != -1
    ensures states[i].g.lastMid == states[k].g.lastMid && states[i].g.midSent == states[k].g.midSent
    ensures states[i].w.eof
    decreases i - k
  {
    RunKeepsInv(states, events, k);
    if k < i {
      LastMidIsKept(states, events, k, i - 1);
      RunKeepsInv(states, events, i - 1);
      assert Follows(states[i - 1], events[i - 1], states[i - 1 + 1]);
    }
  }

  /** So if the last acknowledgement comes after line 413, the callback asks. */
  lemma LastAckAsks(states: seq<State>, events: seq<Event>, k: nat, j: nat)
    requires IsRun(states, events) && k < j <= |events| && events[k].Ack?
    requires states[j].callback.Idle? && forall y :: k < y < j ==> !states[y].callback.Idle?
    requires |states[k].w.inFlight| == 1 && states[k].g.lastMid != -1
    ensures states[j].byCallback == states[k].byCallback + 1 && states[j].g.disconnectSent
  {
    var i := CallbackAsksExactly(states, events, k, j);
    RunKeepsInv(states, events, k);
    LastMidIsKept(states, events, k, i);
  }

  /** In a careful run the callback asks exactly when, at its first step, line 413 has
      been passed and nothing is left to be acknowledged. */
  lemma CarefulCallbackAsks(states: seq<State>, events: seq<Event>, k: nat, j: nat) returns (i: nat)
    requires IsRun(states, events) && Careful(states, events) && k < j <= |events| && events[k].Ack?
    requires states[j].callback.Idle? && forall y :: k < y < j ==> !states[y].callback.Idle?
    ensures FirstStep(events, k, i, j) && i < j
    ensures states[j].byCallback > states[k].byCallback
            <==> states[i].g.lastMid != -1 && states[i].w.inFlight == []
  {
    i := CallbackAsksExactly(states, events, k, j);
    RunKeepsInv(states, events, i);
    CarefulRunSettles(states, events, i);
    StepsBefore(states, events, k, i);
  }

  /** While the callback waits to take its first step, it holds the id acknowledged last. */
  lemma {:induction false} StepsBefore(states: seq<State>, events: seq<Event>, k: nat, i: nat)
    requires IsRun(states, events) && k < i <= |events| && events[k].Ack?
    requires forall y :: k < y < i ==> !events[y].Callback?
    ensures states[k].w.inFlight != [] && states[i].callback == CompareAck(states[k].w.inFlight[0])
    ensures states[i].g.lastMidSent == states[k].w.inFlight[0]
    decreases i - k
  {
    assert Follows(states[i - 1], events[i - 1], states[i - 1 + 1]);
    if i > k + 1 { StepsBefore(states, events, k, i - 1); }
  }

  // ---------- no wakeup is lost ----------

  /** The main thread's own next event, with its input at the end. */
  function Own(s: State): Event { if s.main.ReadLine? then EndOfInput else Main }

  /** The main thread running alone for `n` steps. */
  function Alone(s: State, n: nat): State
    decreases n
  {
    if n == 0 then s else Alone(Apply(s, Own(s)), n - 1)
  }

  /** Nobody has asked yet, and the id acknowledged last is the id published last. */
  ghost predicate Ready(s: State) {
    && Inv(s) && s.w.published > 0 && s.g.lastMidSent == s.g.midSent
    && s.g.connected && !s.main.Exited? && s.Requests() == 0
  }

  /** Steps the main thread is away from asking. */
  function Distance(s: State): nat {
    match s.main
    case MainRequest => 1
    case TestSent => 2
    case CompareMids => 3
    case TestWaiting => if s.g.status.Waiting? then 4 else 12
    case TestConnack => if s.g.status.Waiting? then 5 else 10
    case LoopTest => if s.g.status.Waiting? then 6 else 11
    case SetWaiting => 7
    case SetLastMid => 8
    case ReadLine => 9
    case MainMark => 0
    case Exited => 0
  }

  lemma OwnStep(s: State)
    requires Ready(s)
    ensures var t := Apply(s, Own(s));
            && t.w.inFlight == s.w.inFlight && t.w.published == s.w.published
            && (Distance(s) > 1 ==> Ready(t) && Distance(t) == Distance(s) - 1)
            && (Distance(s) <= 1 ==> Distance(s) == 1 && t.Requests() == 1)
  {
    StepKeepsInv(s, Own(s));
  }

  lemma {:induction false} AloneAsks(s: State)
    requires Ready(s)
    ensures 1 <= Distance(s) <= 12
    ensures var t := Alone(s, Distance(s)); t.Requests() == 1 && t.w.inFlight == s.w.inFlight
    decreases Distance(s)
  {
    OwnStep(s);
    var t := Apply(s, Own(s));
    if Distance(s) > 1 {
      AloneAsks(t);
    } else {
      assert Alone(t, 0) == t;
    }
  }

  /** The main thread's own steps from state `k` to state `j`, counted from the last
      time the connect callback ran in between. */
  function OwnSteps(states: seq<State>, events: seq<Event>, k: nat, j: nat): nat
    requires k <= j <= |events| < |states|
  {
    if j == k || events[j - 1].Connack? then 0
    else OwnSteps(states, events, k, j - 1) + if events[j - 1] == Own(states[j - 1]) then 1 else 0
  }

  /** No further line is published and the connection stays up. */
  ghost predicate Quiet(events: seq<Event>, k: nat, j: nat) {
    forall i :: k <= i < j && i < |events| ==> !events[i].Line? && !events[i].Disconnected?
  }

  lemma QuietStep(s: State, e: Event)
    requires Ready(s) && s.w.inFlight == [] && Enabled(s, e) && !e.Line? && !e.Disconnected?
    ensures var t := Apply(s, e);
            t.Requests() == 0 ==>
              && Ready(t) && t.w.inFlight == []
              && (e != Own(s) && !e.Connack? ==> Distance(t) == Distance(s))
              && (e == Own(s) ==> Distance(t) == Distance(s) - 1)
  {
    StepKeepsInv(s, e);
    if e == Own(s) {
      OwnStep(s);
    }
  }

  /** Once the last acknowledgement is in, no wakeup is lost: however the run goes on,
      with the callback still busy or not and with any number of reconnections, as
      long as no line follows and the connection stays up, a disconnect is requested by
      the time the main thread has taken twelve steps since the last reconnection. */
  lemma {:induction false} NoWakeupIsLost(states: seq<State>, events: seq<Event>, k: nat, j: nat)
    requires IsRun(states, events) && k <= j <= |events| && Quiet(events, k, j)
    requires var s := states[k]; s.w.published > 0 && s.w.inFlight == []
    requires var s := states[k]; s.g.connected && !s.main.Exited? && s.Requests() == 0
    ensures states[j].Requests() == 0 ==>
            Ready(states[j]) && states[j].w.inFlight == [] && OwnSteps(states, events, k, j) + Distance(states[j]) <= 12
    ensures OwnSteps(states, events, k, j) >= 12 ==> states[j].Requests() > 0
    decreases j - k
  {
    RunKeepsInv(states, events, k);
    if k < j {
      NoWakeupIsLost(states, events, k, j - 1);
      var s, e := states[j - 1], events[j - 1];
      assert Follows(s, e, states[j - 1 + 1]);
      if s.Requests() == 0 { QuietStep(s, e); }
    }
    if states[j].Requests() == 0 { OwnStep(states[j]); }
  }

  // ---------- what a reused id does ----------

  /** The rule of section 2.3.1 is not enough: from any point of any run where the
      connection is up, publishing under the id acknowledged last lets the main thread
      disconnect while that message is still unacknowledged. */
  lemma ReuseDisconnectsEarly(states: seq<State>, events: seq<Event>, k: nat, mid: int)
    requires IsRun(states, events) && k < |states|
    requires Enabled(states[k], Line(mid)) && Harmful(states[k], Line(mid))
    ensures var t := Alone(Apply(states[k], Line(mid)), 11); t.Requests() == 1 && !t.Finished()
  {
    RunKeepsInv(states, events, k);
    var s := Apply(states[k], Line(mid));
    StepKeepsInv(states[k], Line(mid));
    assert s.w.inFlight != [];
    AloneAsks(s);
  }

  /** The states and events of the main thread running alone. */
  function AloneStates(s: State, n: nat): (states: seq<State>)
    ensures |states| == n + 1 && states[0] == s && states[n] == Alone(s, n)
    decreases n
  {
    if n == 0 then [s] else [s] + AloneStates(Apply(s, Own(s)), n - 1)
  }

  function AloneEvents(s: State, n: nat): (events: seq<Event>)
    ensures |events| == n
    decreases n
  {
    if n == 0 then [] else [Own(s)] + AloneEvents(Apply(s, Own(s)), n - 1)
  }

  lemma {:induction false} AloneFollows(s: State, n: nat, k: nat)
    requires k < n
    ensures Follows(AloneStates(s, n)[k], AloneEvents(s, n)[k], AloneStates(s, n)[k + 1])
    ensures !AloneEvents(s, n)[k].Line?
    decreases n
  {
    if k > 0 { AloneFollows(Apply(s, Own(s)), n - 1, k - 1); }
  }

  /** A run that begins with another one, goes on with this line, and reuses the id
      acknowledged last no more while connected. */
  ghost predicate GoesOn(states: seq<State>, events: seq<Event>, mid: int, ss: seq<State>, es: seq<Event>)
    requires |states| == |events| + 1
  {
    && IsRun(ss, es)
    && |es| > |events| && ss[..|states|] == states && es[..|events|] == events && es[|events|] == Line(mid)
    && forall k {:trigger es[k]} :: |events| < k < |es| ==> !Harmful(ss[k], es[k])
  }

  /** Whoever has asked for a disconnect has done so at the end. */
  ghost predicate Safe(states: seq<State>) {
    forall k :: 0 <= k < |states| && states[k].Requests() > 0 ==> states[k].Finished()
  }

  lemma GoingOnIsCareful(states: seq<State>, events: seq<Event>, mid: int, ss: seq<State>, es: seq<Event>)
    requires IsRun(states, events) && Careful(states, events) && GoesOn(states, events, mid, ss, es)
    requires !Harmful(states[|events|], Line(mid))
    ensures Careful(ss, es)
  {
    forall k | 0 <= k < |es| ensures !Harmful(ss[k], es[k]) {
      if k <= |events| {
        assert ss[k] == ss[..|states|][k] == states[k];
        if k < |events| { assert es[k] == es[..|events|][k] == events[k]; }
      }
    }
  }

  lemma GoAlone(states: seq<State>, events: seq<Event>, mid: int, n: nat) returns (ss: seq<State>, es: seq<Event>)
    requires IsRun(states, events) && Enabled(states[|events|], Line(mid))
    ensures GoesOn(states, events, mid, ss, es)
    ensures ss[|ss| - 1] == Alone(Apply(states[|events|], Line(mid)), n)
  {
    var t := Apply(states[|events|], Line(mid));
    var more, moves := AloneStates(t, n), AloneEvents(t, n);
    ss, es := states + more, events + [Line(mid)] + moves;
    forall k | 0 <= k < |es| ensures Follows(ss[k], es[k], ss[k + 1]) && (k > |events| ==> !es[k].Line?) {
      if k < |events| {
        assert ss[k] == states[k] && ss[k + 1] == states[k + 1] && es[k] == events[k];
        assert Follows(states[k], events[k], states[k + 1]);
      } else if k == |events| {
        assert ss[k] == states[k] && ss[k + 1] == t && es[k] == Line(mid);
      } else {
        var i := k - |states|;
        AloneFollows(t, n, i);
        assert ss[k] == more[i] && ss[k + 1] == more[i + 1] && es[k] == moves[i];
      }
    }
    assert ss[0] == states[0];
    assert ss[..|states|] == states && es[..|events|] == events;
  }

  /** A line published at any point of a careful run keeps every continuation safe, as
      long as that is careful, too, exactly when it does not reuse the id acknowledged
      last while connected. */
  lemma OnlyReuseDoesHarm(states: seq<State>, events: seq<Event>, mid: int)
    requires IsRun(states, events) && Careful(states, events) && Enabled(states[|events|], Line(mid))
    ensures (forall ss, es :: GoesOn(states, events, mid, ss, es) ==> Safe(ss))
            <==> !Harmful(states[|events|], Line(mid))
  {
    if Harmful(states[|events|], Line(mid)) {
      ReuseDisconnectsEarly(states, events, |events|, mid);
      var ss, es := GoAlone(states, events, mid, 11);
      assert ss[|ss| - 1].Requests() > 0 && !ss[|ss| - 1].Finished();
    } else {
      forall ss: seq<State>, es: seq<Event> | GoesOn(states, events, mid, ss, es) ensures Safe(ss) {
        GoingOnIsCareful(states, events, mid, ss, es);
        forall k | 0 <= k < |ss| && ss[k].Requests() > 0 ensures ss[k].Finished() { DisconnectsAreSafe(ss, es, k); }
      }
    }
  }

  /** Such a point is reached after a single acknowledged line. */
  lemma ReuseCanHappen() returns (states: seq<State>, events: seq<Event>)
    ensures IsRun(states, events)
    ensures var s := states[|states| - 1];
            && Enabled(s, Line(1)) && Reuses(s, Line(1))
            && s.callback.Idle? && s.g.connected && s.Requests() == 0
  {
    var s0 := State(Globals(Connecting, 0, -1, -1, false, true), LoopTest, Idle, World(0, [], false), 0, 0);
    events := [Connack, Main, Main, Line(1), Ack, Callback, Main, Main];
    var s1 := Apply(s0, Connack);
    var s2 := Apply(s1, Main);
    var s3 := Apply(s2, Main);
    var s4 := Apply(s3, Line(1));
    var s5 := Apply(s4, Ack);
    var s6 := Apply(s5, Callback);
    var s7 := Apply(s6, Main);
    var s8 := Apply(s7, Main);
    states := [s0, s1, s2, s3, s4, s5, s6, s7, s8];
  }
}
