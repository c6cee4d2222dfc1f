/** Command-line and configuration-file options (client_shared.c,
    client_config_line_proc and client_config_load), in a build with SOCKS and
    without TLS, PSK and SRV.  Text options are values; topic checks are whatever
    the MQTT library says. */
module ClientConfig {
  import opened Wrappers
  import opened CStrings
  import opened SocksGrammar

  datatype Role = Pub | Sub

  /** Which program is asking, the library's verdicts on topics, and the options by
      name.  Both programs use `Classify` for the names (see LoadClient); what is proved
      holds for any. */
  datatype Env = Env(role: Role, pubTopicOk: string -> bool, subTopicOk: string -> bool, option: string -> Opt)

  datatype Mode = NoMessage | Cmd | StdinLines | StdinFile | File | Null

  datatype Net = Net(
    id: Option<string>, idPrefix: Option<string>, host: Option<string>, bind: Option<string>, port: int,
    keepalive: int, maxInflight: int, protocol: int, username: Option<string>, password: Option<string>,
    proxy: Option<Proxy>)

  datatype Message = Message(
    mode: Mode, file: Option<string>, text: Option<string>, length: int, topic: Option<string>, qos: int, retain: bool)

  datatype Will = Will(topic: Option<string>, payload: Option<string>, length: int, qos: int, retain: bool)

  datatype Subscription = Subscription(
    cleanSession: bool, topics: seq<string>, topicCount: nat, filters: seq<string>, filterCount: nat,
    noRetain: bool, verbose: bool, eol: bool, msgCount: int)

  /** struct mosq_config, its members grouped by what they are for. */
  datatype Config = Config(net: Net, msg: Message, will: Will, sub: Subscription, debug: bool, quiet: bool)

  /** init_config. */
  function Initial(): Config {
    Config(
      Net(None, None, None, None, 1883, 60, 20, 3, None, None, None),
      Message(NoMessage, None, None, 0, None, 0, false),
      Will(None, None, 0, 0, false),
      Subscription(true, [], 0, [], 0, false, false, true, 0),
      false, false)
  }

  // ---------- one option ----------

  datatype Opt =
    | Port | Bind | Count | Debug | FileOpt | Help | Host | Id | IdPrefix | Keepalive | Lines | Text | MaxInflight
    | NullOpt | Protocol | ProxyUrl | Qos | Quiet | Retain | WholeInput | Topic | FilterOut | Username | Password
    | WillPayload | WillQos | WillRetain | WillTopic | NoCleanSession | NoEol | NoRetain | Verbose | Unknown

  /** The chain of strcmp. */
  function Classify(name: string): Opt {
    if name == "-p" || name == "--port" then Port
    else if name == "-A" then Bind
    else if name == "-C" then Count
    else if name == "-d" || name == "--debug" then Debug
    else if name == "-f" || name == "--file" then FileOpt
    else if name == "--help" then Help
    else if name == "-h" || name == "--host" then Host
    else if name == "-i" || name == "--id" then Id
    else if name == "-I" || name == "--id-prefix" then IdPrefix
    else if name == "-k" || name == "--keepalive" then Keepalive
    else if name == "-l" || name == "--stdin-line" then Lines
    else if name == "-m" || name == "--message" then Text
    else if name == "-M" then MaxInflight
    else if name == "-n" || name == "--null-message" then NullOpt
    else if name == "-V" || name == "--protocol-version" then Protocol
    else if name == "--proxy" then ProxyUrl
    else if name == "-q" || name == "--qos" then Qos
    else if name == "--quiet" then Quiet
    else if name == "-r" || name == "--retain" then Retain
    else if name == "-s" || name == "--stdin-file" then WholeInput
    else if name == "-t" || name == "--topic" then Topic
    else if name == "-T" || name == "--filter-out" then FilterOut
    else if name == "-u" || name == "--username" then Username
    else if name == "-P" || name == "--pw" then Password
    else if name == "--will-payload" then WillPayload
    else if name == "--will-qos" then WillQos
    else if name == "--will-retain" then WillRetain
    else if name == "--will-topic" then WillTopic
    else if name == "-c" || name == "--disable-clean-session" then NoCleanSession
    else if name == "-N" then NoEol
    else if name == "-R" then NoRetain
    else if name == "-v" || name == "--verbose" then Verbose
    else Unknown
  }

  predicate TakesValue(o: Opt) {
    match o
    case Port | Bind | Count | FileOpt | Host | Id | IdPrefix | Keepalive | Text | MaxInflight | Protocol | ProxyUrl
       | Qos | Topic | FilterOut | Username | Password | WillPayload | WillQos | WillTopic => true
    case _ => false
  }

  /** `goto unknown_option`: not an option, or one of the other program. */
  predicate Foreign(o: Opt, role: Role) {
    match o
    case FileOpt | Lines | Text | NullOpt | Retain | WholeInput => role == Sub
    case Count | FilterOut | NoCleanSession | NoEol | NoRetain | Verbose => role == Pub
    case Unknown => true
    case _ => false
  }

  /** Return code and new configuration. */
  datatype Outcome = Outcome(rc: int, cfg: Config)

  function Refuse(c: Config): Outcome { Outcome(1, c) }
  function Accept(c: Config): Outcome { Outcome(0, c) }

  /** Network options that take a value. */
  function SetNet(n: Net, o: Opt, v: string): (int, Net) {
    match o
    case Port => (if 1 <= Atoi(v) <= 65535 then 0 else 1, n.(port := Atoi(v)))
    case Bind => (0, n.(bind := Some(v)))
    case Host => (0, n.(host := Some(v)))
    case Id => if n.idPrefix.Some? then (1, n) else (0, n.(id := Some(v)))
    case IdPrefix => if n.id.Some? then (1, n) else (0, n.(idPrefix := Some(v)))
    case Keepalive => (if Atoi(v) > 65535 then 1 else 0, n.(keepalive := Atoi(v)))
    case MaxInflight => (0, n.(maxInflight := Atoi(v) % 0x1_0000_0000))
    case Protocol =>
      if v == "mqttv31" then (0, n.(protocol := 3))
      else if v == "mqttv311" then (0, n.(protocol := 4))
      else (1, n)
    case ProxyUrl => (match ParseUrl(v) case None => (1, n) case Some(x) => (0, n.(proxy := Some(x))))
    case Username => (0, n.(username := Some(v)))
    case Password => (0, n.(password := Some(v)))
    case _ => (1, n)
  }

  /** Options of the published message that take a value. */
  function SetMessage(m: Message, o: Opt, v: string): (int, Message) {
    match o
    case FileOpt => if m.mode != NoMessage then (1, m) else (0, m.(mode := File, file := Some(v)))
    case Text => if m.mode != NoMessage then (1, m) else (0, m.(text := Some(v), length := |v|, mode := Cmd))
    case Qos => (if 0 <= Atoi(v) <= 2 then 0 else 1, m.(qos := Atoi(v)))
    case _ => (1, m)
  }

  function SetWill(env: Env, w: Will, o: Opt, v: string): (int, Will) {
    match o
    case WillPayload => (0, w.(payload := Some(v), length := |v|))
    case WillQos => (if 0 <= Atoi(v) <= 2 then 0 else 1, w.(qos := Atoi(v)))
    case WillTopic => if env.pubTopicOk(v) then (0, w.(topic := Some(v))) else (1, w)
    case _ => (1, w)
  }

  function SetSub(env: Env, s: Subscription, o: Opt, v: string): (int, Subscription) {
    match o
    case Count => (if Atoi(v) < 1 then 1 else 0, s.(msgCount := Atoi(v)))
    case Topic =>
      if env.subTopicOk(v) then (0, s.(topics := s.topics + [v], topicCount := s.topicCount + 1)) else (1, s)
    case FilterOut =>
      if env.subTopicOk(v) then (0, s.(filters := s.filters + [v], filterCount := s.filterCount + 1)) else (1, s)
    case _ => (1, s)
  }

  /** An option with its value. */
  function SetValue(env: Env, c: Config, o: Opt, v: string): Outcome {
    match o
    case FileOpt | Text | Qos => var (rc, m) := SetMessage(c.msg, o, v); Outcome(rc, c.(msg := m))
    case WillPayload | WillQos | WillTopic => var (rc, w) := SetWill(env, c.will, o, v); Outcome(rc, c.(will := w))
    case Count | FilterOut => var (rc, s) := SetSub(env, c.sub, o, v); Outcome(rc, c.(sub := s))
    case Topic =>
      if env.role == Pub then
        if env.pubTopicOk(v) then Accept(c.(msg := c.msg.(topic := Some(v)))) else Refuse(c)
      else var (rc, s) := SetSub(env, c.sub, o, v); Outcome(rc, c.(sub := s))
    case _ => var (rc, n) := SetNet(c.net, o, v); Outcome(rc, c.(net := n))
  }

  /** The three options that choose a mode by themselves. */
  function SetMode(c: Config, mode: Mode): Outcome {
    if c.msg.mode != NoMessage then Refuse(c) else Accept(c.(msg := c.msg.(mode := mode)))
  }

  function SetSubFlag(s: Subscription, o: Opt): Subscription {
    match o
    case NoCleanSession => s.(cleanSession := false)
    case NoEol => s.(eol := false)
    case NoRetain => s.(noRetain := true)
    case _ => s.(verbose := true)
  }

  /** An option without a value. */
  function SetFlag(c: Config, o: Opt): Outcome {
    match o
    case Help => Outcome(2, c)
    case Debug => Accept(c.(debug := true))
    case Quiet => Accept(c.(quiet := true))
    case Lines => SetMode(c, StdinLines)
    case NullOpt => SetMode(c, Null)
    case WholeInput => SetMode(c, StdinFile)
    case Retain => Accept(c.(msg := c.msg.(retain := true)))
    case WillRetain => Accept(c.(will := c.will.(retain := true)))
    case NoCleanSession | NoEol | NoRetain | Verbose => Accept(c.(sub := SetSubFlag(c.sub, o)))
    case _ => Refuse(c)
  }

  /** How many arguments the option at the front of `args` takes up. */
  function Width(env: Env, args: seq<string>): (n: nat)
    requires args != []
    ensures 1 <= n <= |args|
  {
    if TakesValue(env.option(args[0])) && |args| > 1 then 2 else 1
  }

  /** The option at the front of `args`. */
  function One(env: Env, c: Config, args: seq<string>): Outcome
    requires args != []
  {
    var o := env.option(args[0]);
    if Foreign(o, env.role) then Refuse(c)
    else if !TakesValue(o) then SetFlag(c, o)
    else if |args| == 1 then Refuse(c)
    else SetValue(env, c, o, args[1])
  }

  // ---------- a vector of options ----------

  /** client_config_line_proc over argv[1..]. */
  function Process(env: Env, c: Config, args: seq<string>): Outcome
    decreases |args|
  {
    if args == [] then Accept(c)
    else
      var r := One(env, c, args);
      if r.rc != 0 then r else Process(env, r.cfg, args[Width(env, args)..])
  }

  /** The lines of the configuration file, until one fails. */
  function ProcessLines(env: Env, c: Config, lines: seq<seq<string>>): Outcome
    decreases |lines|
  {
    if lines == [] then Accept(c)
    else
      var r := Process(env, c, lines[0]);
      if r.rc != 0 then r else ProcessLines(env, r.cfg, lines[1..])
  }

  /** The checks of lines 204-245. */
  function Validate(env: Env, c: Config): Outcome {
    if c.will.payload.Some? && c.will.topic.None? then Refuse(c)
    else if c.will.retain && c.will.topic.None? then Refuse(c)
    else if env.role == Sub && !c.sub.cleanSession && (c.net.idPrefix.Some? || c.net.id.None?) then Refuse(c)
    else if env.role == Sub && c.sub.topicCount == 0 then Refuse(c)
    else Accept(if c.net.host.None? then c.(net := c.net.(host := Some("localhost"))) else c)
  }

  /** client_config_load. */
  function Load(env: Env, lines: seq<seq<string>>, args: seq<string>): Outcome {
    var r := ProcessLines(env, Initial(), lines);
    if r.rc != 0 then r
    else
      var s := Process(env, r.cfg, args);
      if s.rc != 0 then s else Validate(env, s.cfg)
  }

  // ---------- the object ----------

  class MosqConfig {
    var cfg: Config

    constructor ()
      ensures cfg == Initial()
    {
      cfg := Initial();
    }

    method LineProc(env: Env, args: seq<string>) returns (rc: int)
      modifies this
      ensures Outcome(rc, cfg) == Process(env, old(cfg), args)
    {
      var i := 0;
      while i < |args|
        invariant 0 <= i <= |args|
        invariant Process(env, old(cfg), args) == Process(env, cfg, args[i..])
      {
        var r := One(env, cfg, args[i..]);
        cfg := r.cfg;
        if r.rc != 0 { return r.rc; }
        var n := Width(env, args[i..]);
        assert args[i..][n..] == args[i + n..];
        i := i + n;
      }
      return 0;
    }

    method LoadAll(env: Env, lines: seq<seq<string>>, args: seq<string>) returns (rc: int)
      modifies this
      ensures Outcome(rc, cfg) == Load(env, lines, args)
    {
      cfg := Initial();
      var k := 0;
      while k < |lines|
        invariant 0 <= k <= |lines|
        invariant ProcessLines(env, Initial(), lines) == ProcessLines(env, cfg, lines[k..])
      {
        rc := LineProc(env, lines[k]);
        if rc != 0 { return; }
        assert lines[k..][1..] == lines[k + 1..];
        k := k + 1;
      }
      rc := LineProc(env, args);
      if rc != 0 { return; }
      var r := Validate(env, cfg);
      cfg := r.cfg;
      return r.rc;
    }

    /** The same with the options by the names both programs give them. */
    method LoadClient(role: Role, pubTopicOk: string -> bool, subTopicOk: string -> bool,
                      lines: seq<seq<string>>, args: seq<string>) returns (rc: int)
      modifies this
      ensures Outcome(rc, cfg) == Load(Env(role, pubTopicOk, subTopicOk, Classify), lines, args)
    {
      rc := LoadAll(Env(role, pubTopicOk, subTopicOk, Classify), lines, args);
    }
  }

  // ---------- vectors compose ----------

  /** An option that was accepted means the same with more arguments behind it. */
  lemma OneWithMore(env: Env, c: Config, a: seq<string>, b: seq<string>)
    requires a != [] && One(env, c, a).rc == 0
    ensures One(env, c, a + b) == One(env, c, a) && Width(env, a + b) == Width(env, a)
  {
    if |a| > 1 { assert (a + b)[1] == a[1]; }
  }

  /** If the vector `a` is accepted, processing `a` and then anything else is
      processing `a` first and the rest from the configuration it leaves. */
  lemma {:induction false} ProcessComposes(env: Env, c: Config, a: seq<string>, b: seq<string>)
    requires Process(env, c, a).rc == 0
    ensures Process(env, c, a + b) == Process(env, Process(env, c, a).cfg, b)
    decreases |a|
  {
    if a == [] {
      assert a + b == b;
    } else {
      OneWithMore(env, c, a, b);
      var n := Width(env, a);
      assert (a + b)[n..] == a[n..] + b;
      ProcessComposes(env, One(env, c, a).cfg, a[n..], b);
    }
  }

  function Flatten(lines: seq<seq<string>>): seq<string> {
    if lines == [] then [] else lines[0] + Flatten(lines[1..])
  }

  /** No option that takes a value is left without one at the end. */
  predicate Complete(env: Env, args: seq<string>)
    decreases |args|
  {
    args != [] ==>
      && (!Foreign(env.option(args[0]), env.role) && TakesValue(env.option(args[0])) ==> |args| > 1)
      && Complete(env, args[Width(env, args)..])
  }

  /** Processing goes on only after success. */
  function Then(env: Env, r: Outcome, args: seq<string>): Outcome {
    if r.rc != 0 then r else Process(env, r.cfg, args)
  }

  /** A complete vector means the same with more arguments behind it, refused or not. */
  lemma {:induction false} CompleteComposes(env: Env, c: Config, a: seq<string>, b: seq<string>)
    requires Complete(env, a)
    ensures Process(env, c, a + b) == Then(env, Process(env, c, a), b)
    decreases |a|
  {
    if a == [] {
      assert a + b == b;
    } else {
      var n := Width(env, a);
      assert |a| > 1 ==> (a + b)[1] == a[1];
      assert One(env, c, a + b) == One(env, c, a);
      if One(env, c, a).rc == 0 {
        assert (a + b)[n..] == a[n..] + b;
        CompleteComposes(env, One(env, c, a).cfg, a[n..], b);
      }
    }
  }

  /** A vector that is not complete is refused from every configuration. */
  lemma {:induction false} DanglingIsRefused(env: Env, c: Config, a: seq<string>)
    requires !Complete(env, a)
    ensures Process(env, c, a).rc != 0
    decreases |a|
  {
    if One(env, c, a).rc == 0 {
      DanglingIsRefused(env, One(env, c, a).cfg, a[Width(env, a)..]);
    }
  }

  /** If no line dangles, a configuration file is the same as its words written in
      front of the command line, whether it is accepted or refused. */
  lemma {:induction false} LinesAreOneVector(env: Env, c: Config, lines: seq<seq<string>>, args: seq<string>)
    requires forall line :: line in lines ==> Complete(env, line)
    ensures Process(env, c, Flatten(lines) + args) == Then(env, ProcessLines(env, c, lines), args)
    decreases |lines|
  {
    if lines == [] {
      assert Flatten(lines) + args == args;
    } else {
      var r, rest := Process(env, c, lines[0]), Flatten(lines[1..]) + args;
      CompleteComposes(env, c, lines[0], rest);
      assert Flatten(lines) + args == lines[0] + rest;
      if r.rc == 0 { LinesAreOneVector(env, r.cfg, lines[1..], args); }
    }
  }

  /** A file with a line that dangles is refused. */
  lemma {:induction false} DanglingFileIsRefused(env: Env, c: Config, lines: seq<seq<string>>)
    requires exists line :: line in lines && !Complete(env, line)
    ensures ProcessLines(env, c, lines).rc != 0
    decreases |lines|
  {
    if !Complete(env, lines[0]) {
      DanglingIsRefused(env, c, lines[0]);
    } else if Process(env, c, lines[0]).rc == 0 {
      DanglingFileIsRefused(env, Process(env, c, lines[0]).cfg, lines[1..]);
    }
  }

  /** A file is accepted line by line exactly when no line dangles and its words are
      accepted as one vector; both then lead to the same configuration. */
  lemma FileIsAccepted(env: Env, c: Config, lines: seq<seq<string>>)
    ensures ProcessLines(env, c, lines).rc == 0
            <==> (forall line :: line in lines ==> Complete(env, line)) && Process(env, c, Flatten(lines)).rc == 0
    ensures ProcessLines(env, c, lines).rc == 0 ==> Process(env, c, Flatten(lines)) == ProcessLines(env, c, lines)
  {
    if forall line :: line in lines ==> Complete(env, line) {
      LinesAreOneVector(env, c, lines, []);
      assert Flatten(lines) + [] == Flatten(lines);
    } else {
      DanglingFileIsRefused(env, c, lines);
    }
  }

  /** What a dangling option does, whichever it is: after an accepted vector `a`, a
      line that ends in it is refused and changes nothing more, while in one vector it
      takes the next word.  The two agree exactly when it would refuse that word, too. */
  lemma DanglingLineDiffers(env: Env, c: Config, a: seq<string>, name: string, v: string)
    requires Process(env, c, a).rc == 0
    requires !Foreign(env.option(name), env.role) && TakesValue(env.option(name))
    ensures var d := Process(env, c, a).cfg;
            && Process(env, c, a + [name]) == Refuse(d)
            && Process(env, c, a + [name, v]) == SetValue(env, d, env.option(name), v)
            && (Process(env, c, a + [name]) == Process(env, c, a + [name, v])
                <==> SetValue(env, d, env.option(name), v) == Refuse(d))
  {
    ProcessComposes(env, c, a, [name]);
    ProcessComposes(env, c, a, [name, v]);
    assert [name, v][2..] == [];
  }

  // ---------- what survives ----------

  predicate NetOk(n: Net) {
    && !(n.id.Some? && n.idPrefix.Some?)
    && 1 <= n.port <= 65535 && n.keepalive <= 65535 && 0 <= n.maxInflight < 0x1_0000_0000
    && (n.protocol == 3 || n.protocol == 4)
    && (n.proxy.Some? ==> 1 <= n.proxy.value.port <= 65535 && n.proxy.value.host != [] && Plain(n.proxy.value.host))
  }

  predicate MessageOk(env: Env, m: Message) {
    && (m.text.Some? <==> m.mode == Cmd) && (m.text.Some? ==> m.length == |m.text.value|)
    && (m.file.Some? <==> m.mode == File)
    && 0 <= m.qos <= 2
    && (m.topic.Some? ==> env.role == Pub && env.pubTopicOk(m.topic.value))
    && (env.role == Sub ==> m.mode == NoMessage && !m.retain)
  }

  predicate WillOk(env: Env, w: Will) {
    && 0 <= w.qos <= 2
    && (w.payload.Some? ==> w.length == |w.payload.value|)
    && (w.topic.Some? ==> env.pubTopicOk(w.topic.value))
  }

  predicate SubOk(env: Env, s: Subscription) {
    && s.topicCount == |s.topics| && s.filterCount == |s.filters| && 0 <= s.msgCount
    && (forall t :: t in s.topics ==> env.subTopicOk(t)) && (forall t :: t in s.filters ==> env.subTopicOk(t))
    && (env.role == Pub ==>
          s.topics == [] && s.filters == [] && s.cleanSession && s.eol && !s.noRetain && !s.verbose && s.msgCount == 0)
  }

  predicate ConfigOk(env: Env, c: Config) {
    NetOk(c.net) && MessageOk(env, c.msg) && WillOk(env, c.will) && SubOk(env, c.sub)
  }

  /** A proxy that was accepted has a host and a port in range. */
  lemma ProxyOk(v: string)
    ensures ParseUrl(v).Some? ==>
              var x := ParseUrl(v).value; 1 <= x.port <= 65535 && x.host != [] && Plain(x.host)
  {
    if ParseUrl(v).Some? { SplitSound(v[|SCHEME|..]); }
  }

  lemma NetStaysOk(n: Net, o: Opt, v: string)
    requires NetOk(n) && SetNet(n, o, v).0 == 0
    ensures NetOk(SetNet(n, o, v).1)
  {
    ProxyOk(v);
  }

  lemma MessageStaysOk(env: Env, m: Message, o: Opt, v: string)
    requires MessageOk(env, m) && !Foreign(o, env.role) && SetMessage(m, o, v).0 == 0
    ensures MessageOk(env, SetMessage(m, o, v).1)
  {
    assert o.FileOpt? || o.Text? || o.Qos?;
  }

  lemma SubStaysOk(env: Env, s: Subscription, o: Opt, v: string)
    requires SubOk(env, s) && env.role == Sub && SetSub(env, s, o, v).0 == 0
    ensures SubOk(env, SetSub(env, s, o, v).1)
  {
    assert o.Count? || o.Topic? || o.FilterOut?;
  }

  /** Which part of the configuration an option with a value changes. */
  predicate ForMessage(o: Opt) { o.FileOpt? || o.Text? || o.Qos? }
  predicate ForWill(o: Opt) { o.WillPayload? || o.WillQos? || o.WillTopic? }
  predicate ForSub(o: Opt) { o.Count? || o.FilterOut? }

  lemma WillStaysOk(env: Env, w: Will, o: Opt, v: string)
    requires WillOk(env, w) && SetWill(env, w, o, v).0 == 0
    ensures WillOk(env, SetWill(env, w, o, v).1)
  {
    assert o.WillPayload? || o.WillQos? || o.WillTopic?;
  }

  lemma ValueForNet(env: Env, c: Config, o: Opt, v: string)
    requires !ForMessage(o) && !ForWill(o) && !ForSub(o) && !o.Topic?
    ensures SetValue(env, c, o, v) == Outcome(SetNet(c.net, o, v).0, c.(net := SetNet(c.net, o, v).1))
  {
  }

  lemma ValueForMessage(env: Env, c: Config, o: Opt, v: string)
    requires ForMessage(o)
    ensures SetValue(env, c, o, v) == Outcome(SetMessage(c.msg, o, v).0, c.(msg := SetMessage(c.msg, o, v).1))
  {
  }

  lemma ValueForWill(env: Env, c: Config, o: Opt, v: string)
    requires ForWill(o)
    ensures SetValue(env, c, o, v) == Outcome(SetWill(env, c.will, o, v).0, c.(will := SetWill(env, c.will, o, v).1))
  {
  }

  lemma ValueForSub(env: Env, c: Config, o: Opt, v: string)
    requires ForSub(o) || (o.Topic? && env.role == Sub)
    ensures SetValue(env, c, o, v) == Outcome(SetSub(env, c.sub, o, v).0, c.(sub := SetSub(env, c.sub, o, v).1))
  {
  }

  lemma ValueForPubTopic(env: Env, c: Config, v: string)
    requires env.role == Pub && SetValue(env, c, Topic, v).rc == 0
    ensures SetValue(env, c, Topic, v).cfg == c.(msg := c.msg.(topic := Some(v))) && env.pubTopicOk(v)
  {
  }

  lemma NetPartOk(env: Env, c: Config, o: Opt, v: string)
    requires ConfigOk(env, c) && SetValue(env, c, o, v).rc == 0
    requires !ForMessage(o) && !ForWill(o) && !ForSub(o) && !o.Topic?
    ensures ConfigOk(env, SetValue(env, c, o, v).cfg)
  {
    ValueForNet(env, c, o, v);
    NetStaysOk(c.net, o, v);
  }

  lemma MessagePartOk(env: Env, c: Config, o: Opt, v: string)
    requires ConfigOk(env, c) && !Foreign(o, env.role) && SetValue(env, c, o, v).rc == 0 && ForMessage(o)
    ensures ConfigOk(env, SetValue(env, c, o, v).cfg)
  {
    ValueForMessage(env, c, o, v);
    MessageStaysOk(env, c.msg, o, v);
  }

  lemma WillPartOk(env: Env, c: Config, o: Opt, v: string)
    requires ConfigOk(env, c) && SetValue(env, c, o, v).rc == 0 && ForWill(o)
    ensures ConfigOk(env, SetValue(env, c, o, v).cfg)
  {
    ValueForWill(env, c, o, v);
    WillStaysOk(env, c.will, o, v);
  }

  lemma SubPartOk(env: Env, c: Config, o: Opt, v: string)
    requires ConfigOk(env, c) && !Foreign(o, env.role) && SetValue(env, c, o, v).rc == 0 && (ForSub(o) || o.Topic?)
    ensures ConfigOk(env, SetValue(env, c, o, v).cfg)
  {
    if env.role == Sub {
      ValueForSub(env, c, o, v);
      SubStaysOk(env, c.sub, o, v);
    } else {
      ValueForPubTopic(env, c, v);
    }
  }

  lemma ValueStaysOk(env: Env, c: Config, o: Opt, v: string)
    requires ConfigOk(env, c) && !Foreign(o, env.role) && SetValue(env, c, o, v).rc == 0
    ensures ConfigOk(env, SetValue(env, c, o, v).cfg)
  {
    if ForMessage(o) {
      MessagePartOk(env, c, o, v);
    } else if ForWill(o) {
      WillPartOk(env, c, o, v);
    } else if ForSub(o) || o.Topic? {
      SubPartOk(env, c, o, v);
    } else {
      NetPartOk(env, c, o, v);
    }
  }

  lemma FlagStaysOk(env: Env, c: Config, o: Opt)
    requires ConfigOk(env, c) && !Foreign(o, env.role) && SetFlag(c, o).rc == 0
    ensures ConfigOk(env, SetFlag(c, o).cfg)
  {
    assert !TakesValue(o);
  }

  lemma OneStaysOk(env: Env, c: Config, args: seq<string>)
    requires ConfigOk(env, c) && args != [] && One(env, c, args).rc == 0
    ensures ConfigOk(env, One(env, c, args).cfg)
  {
    var o := env.option(args[0]);
    if TakesValue(o) { ValueStaysOk(env, c, o, args[1]); } else { FlagStaysOk(env, c, o); }
  }

  lemma {:induction false} ProcessStaysOk(env: Env, c: Config, args: seq<string>)
    requires ConfigOk(env, c) && Process(env, c, args).rc == 0
    ensures ConfigOk(env, Process(env, c, args).cfg)
    decreases |args|
  {
    if args != [] {
      OneStaysOk(env, c, args);
      ProcessStaysOk(env, One(env, c, args).cfg, args[Width(env, args)..]);
    }
  }

  lemma {:induction false} LinesStayOk(env: Env, c: Config, lines: seq<seq<string>>)
    requires ConfigOk(env, c) && ProcessLines(env, c, lines).rc == 0
    ensures ConfigOk(env, ProcessLines(env, c, lines).cfg)
    decreases |lines|
  {
    if lines != [] {
      ProcessStaysOk(env, c, lines[0]);
      LinesStayOk(env, Process(env, c, lines[0]).cfg, lines[1..]);
    }
  }

  lemma InitialIsOk(env: Env)
    ensures ConfigOk(env, Initial())
  {
  }

  /** Whatever the file and the command line say, a load that succeeds leaves a
      configuration that is consistent, has a host, ties a will to a topic, and for a
      subscriber has a topic and, with a persistent session, an id of its own. */
  lemma LoadIsConsistent(env: Env, lines: seq<seq<string>>, args: seq<string>)
    requires Load(env, lines, args).rc == 0
    ensures var c := Load(env, lines, args).cfg;
            && ConfigOk(env, c) && c.net.host.Some?
            && (c.will.payload.Some? || c.will.retain ==> c.will.topic.Some?)
            && (env.role == Sub ==> c.sub.topics != [] && (!c.sub.cleanSession ==> c.net.id.Some?))
  {
    InitialIsOk(env);
    LinesStayOk(env, Initial(), lines);
    ProcessStaysOk(env, ProcessLines(env, Initial(), lines).cfg, args);
  }

  // ---------- what the options add up to ----------

  /** The value of the option at the front, if it is of kind `o`. */
  function Value(env: Env, args: seq<string>, o: Opt): seq<string>
    requires args != []
  {
    if env.option(args[0]) == o && Width(env, args) == 2 then [args[1]] else []
  }

  /** The values given to the options of kind `o`, in order. */
  function Values(env: Env, args: seq<string>, o: Opt): seq<string>
    decreases |args|
  {
    if args == [] then []
    else Value(env, args, o) + Values(env, args[Width(env, args)..], o)
  }

  predicate ChoosesMode(o: Opt) {
    match o case FileOpt | Lines | Text | NullOpt | WholeInput => true case _ => false
  }

  /** How many options of a vector choose a mode. */
  function ModeOptions(env: Env, args: seq<string>): nat
    decreases |args|
  {
    if args == [] then 0
    else (if ChoosesMode(env.option(args[0])) then 1 else 0) + ModeOptions(env, args[Width(env, args)..])
  }

  lemma SubFlagAddsNothing(s: Subscription, o: Opt)
    ensures SetSubFlag(s, o).topics == s.topics && SetSubFlag(s, o).filters == s.filters
  {
  }

  lemma FlagAddsNothing(c: Config, o: Opt)
    ensures SetFlag(c, o).cfg.sub.topics == c.sub.topics && SetFlag(c, o).cfg.sub.filters == c.sub.filters
  {
    SubFlagAddsNothing(c.sub, o);
    assert SetFlag(c, o).cfg.sub == c.sub || SetFlag(c, o).cfg.sub == SetSubFlag(c.sub, o);
  }

  lemma ValueAddsTopics(env: Env, c: Config, o: Opt, v: string)
    requires env.role == Sub && SetValue(env, c, o, v).rc == 0
    ensures SetValue(env, c, o, v).cfg.sub.topics == c.sub.topics + (if o == Topic then [v] else [])
    ensures SetValue(env, c, o, v).cfg.sub.filters == c.sub.filters + (if o == FilterOut then [v] else [])
  {
    if ForMessage(o) {
      ValueForMessage(env, c, o, v);
    } else if ForWill(o) {
      ValueForWill(env, c, o, v);
    } else if ForSub(o) || o.Topic? {
      ValueForSub(env, c, o, v);
    } else {
      ValueForNet(env, c, o, v);
    }
  }

  lemma OneAddsTopics(env: Env, c: Config, args: seq<string>)
    requires env.role == Sub && args != [] && One(env, c, args).rc == 0
    ensures One(env, c, args).cfg.sub.topics == c.sub.topics + Value(env, args, Topic)
    ensures One(env, c, args).cfg.sub.filters == c.sub.filters + Value(env, args, FilterOut)
  {
    var o := env.option(args[0]);
    if TakesValue(o) { ValueAddsTopics(env, c, o, args[1]); } else { FlagAddsNothing(c, o); }
  }

  lemma OneChoosesMode(env: Env, c: Config, args: seq<string>)
    requires args != [] && One(env, c, args).rc == 0
    ensures var o, d := env.option(args[0]), One(env, c, args).cfg;
            if ChoosesMode(o) then c.msg.mode == NoMessage && d.msg.mode != NoMessage
            else d.msg.mode == c.msg.mode
  {
    var o := env.option(args[0]);
    if TakesValue(o) && !ForMessage(o) && !ForWill(o) && !ForSub(o) && !o.Topic? {
      ValueForNet(env, c, o, args[1]);
    }
  }

  /** A subscriber's topics and filters are the values given, in order. */
  lemma {:induction false} TopicsAreTheArguments(env: Env, c: Config, args: seq<string>)
    requires env.role == Sub && Process(env, c, args).rc == 0
    ensures var d := Process(env, c, args).cfg;
            && d.sub.topics == c.sub.topics + Values(env, args, Topic)
            && d.sub.filters == c.sub.filters + Values(env, args, FilterOut)
    decreases |args|
  {
    if args != [] {
      OneAddsTopics(env, c, args);
      var rest := args[Width(env, args)..];
      TopicsAreTheArguments(env, One(env, c, args).cfg, rest);
      Regroup(c.sub.topics, Value(env, args, Topic), Values(env, rest, Topic));
      Regroup(c.sub.filters, Value(env, args, FilterOut), Values(env, rest, FilterOut));
    }
  }

  lemma Regroup(a: seq<string>, b: seq<string>, c: seq<string>)
    ensures a + b + c == a + (b + c)
  {
  }

  /** At most one option chooses what is published, and one has if anything is. */
  lemma {:induction false} OneModeOption(env: Env, c: Config, args: seq<string>)
    requires Process(env, c, args).rc == 0
    ensures var d := Process(env, c, args).cfg;
            ModeOptions(env, args)
            == (if d.msg.mode != NoMessage then 1 else 0) - (if c.msg.mode != NoMessage then 1 else 0)
    decreases |args|
  {
    if args != [] {
      OneChoosesMode(env, c, args);
      OneModeOption(env, One(env, c, args).cfg, args[Width(env, args)..]);
    }
  }

  /** What a load takes from its options, apart from filling in the host. */
  lemma LoadIsProcess(env: Env, lines: seq<seq<string>>, args: seq<string>)
    requires Load(env, lines, args).rc == 0
    ensures var c, d := Load(env, lines, args).cfg, Process(env, Initial(), Flatten(lines) + args);
            d.rc == 0
            && c == d.cfg.(net := d.cfg.net.(
                 host := if d.cfg.net.host.None? then Some("localhost") else d.cfg.net.host))
  {
    FileIsAccepted(env, Initial(), lines);
    LinesAreOneVector(env, Initial(), lines, args);
  }

  /** Altogether, a load that succeeds is one vector of options, the file's in front:
      it has at most one mode option, and a subscriber's topics and filters are the
      arguments of that vector in order. */
  lemma LoadIsOneVector(env: Env, lines: seq<seq<string>>, args: seq<string>)
    requires Load(env, lines, args).rc == 0
    ensures var c, all := Load(env, lines, args).cfg, Flatten(lines) + args;
            && ModeOptions(env, all) == (if c.msg.mode == NoMessage then 0 else 1)
            && (env.role == Sub ==>
                  c.sub.topics == Values(env, all, Topic) && c.sub.filters == Values(env, all, FilterOut))
  {
    var all := Flatten(lines) + args;
    LoadIsProcess(env, lines, args);
    OneModeOption(env, Initial(), all);
    if env.role == Sub {
      TopicsAreTheArguments(env, Initial(), all);
      StartsEmpty(Values(env, all, Topic));
      StartsEmpty(Values(env, all, FilterOut));
    }
  }

  lemma StartsEmpty(a: seq<string>)
    ensures Initial().sub.topics + a == a && Initial().sub.filters + a == a
  {
  }

  // ---------- every member is what its option last said ----------

  /** Options whose argument is kept as it is, and where. */
  predicate IsText(o: Opt, role: Role) {
    match o
    case Bind | Host | Id | IdPrefix | Username | Password | FileOpt | Text | WillPayload | WillTopic => true
    case Topic => role == Pub
    case _ => false
  }

  function TextOf(c: Config, o: Opt): Option<string> {
    match o
    case Bind => c.net.bind
    case Host => c.net.host
    case Id => c.net.id
    case IdPrefix => c.net.idPrefix
    case Username => c.net.username
    case Password => c.net.password
    case FileOpt => c.msg.file
    case Text => c.msg.text
    case Topic => c.msg.topic
    case WillPayload => c.will.payload
    case WillTopic => c.will.topic
    case _ => None
  }

  /** Options whose argument is a number or names one, and where it goes. */
  predicate IsNumber(o: Opt) {
    match o
    case Port | Keepalive | MaxInflight | Protocol | Qos | WillQos | Count => true
    case _ => false
  }

  function NumberOf(c: Config, o: Opt): int {
    match o
    case Port => c.net.port
    case Keepalive => c.net.keepalive
    case MaxInflight => c.net.maxInflight
    case Protocol => c.net.protocol
    case Qos => c.msg.qos
    case WillQos => c.will.qos
    case _ => c.sub.msgCount
  }

  function Meaning(o: Opt, v: string): int {
    match o
    case MaxInflight => Atoi(v) % 0x1_0000_0000
    case Protocol => if v == "mqttv31" then 3 else 4
    case _ => Atoi(v)
  }

  /** Options that are remembered as given or not; a mode is one that cannot be taken back. */
  predicate IsFlag(o: Opt) {
    match o
    case Debug | Quiet | Retain | WillRetain | NoCleanSession | NoEol | NoRetain | Verbose => true
    case FileOpt | Lines | Text | NullOpt | WholeInput => true
    case _ => false
  }

  predicate FlagOf(c: Config, o: Opt) {
    match o
    case Debug => c.debug
    case Quiet => c.quiet
    case Retain => c.msg.retain
    case WillRetain => c.will.retain
    case NoCleanSession => !c.sub.cleanSession
    case NoEol => !c.sub.eol
    case NoRetain => c.sub.noRetain
    case Verbose => c.sub.verbose
    case FileOpt => c.msg.mode == File
    case Lines => c.msg.mode == StdinLines
    case Text => c.msg.mode == Cmd
    case NullOpt => c.msg.mode == Null
    case _ => c.msg.mode == StdinFile
  }

  predicate Given(env: Env, args: seq<string>, o: Opt)
    decreases |args|
  {
    args != [] && (env.option(args[0]) == o || Given(env, args[Width(env, args)..], o))
  }

  ghost predicate TextChanged(env: Env, c: Config, d: Config, o: Opt, value: seq<string>) {
    IsText(o, env.role) ==> TextOf(d, o) == if value == [] then TextOf(c, o) else Some(value[|value| - 1])
  }

  ghost predicate NumberChanged(c: Config, d: Config, o: Opt, value: seq<string>) {
    IsNumber(o) ==> NumberOf(d, o) == if value == [] then NumberOf(c, o) else Meaning(o, value[|value| - 1])
  }

  ghost predicate FlagChanged(c: Config, d: Config, o: Opt, given: bool) {
    IsFlag(o) ==> FlagOf(d, o) == (FlagOf(c, o) || given)
  }

  ghost predicate ProxyChanged(c: Config, d: Config, o: Opt, value: seq<string>) {
    o.ProxyUrl? ==> d.net.proxy == if value == [] then c.net.proxy else ParseUrl(value[|value| - 1])
  }

  /** From `c` to `d`, what the configuration says about option `o` changes as these
      occurrences of `o` say. */
  ghost predicate Changed(env: Env, c: Config, d: Config, o: Opt, given: bool, value: seq<string>) {
    && TextChanged(env, c, d, o, value) && NumberChanged(c, d, o, value)
    && FlagChanged(c, d, o, given) && ProxyChanged(c, d, o, value)
  }

  predicate ForNet(o: Opt) { !ForMessage(o) && !ForWill(o) && !ForSub(o) && !o.Topic? }

  lemma NetValueTexts(env: Env, c: Config, p: Opt, v: string, o: Opt)
    requires SetNet(c.net, p, v).0 == 0
    ensures IsText(o, env.role) ==>
            TextOf(c.(net := SetNet(c.net, p, v).1), o) == if o == p then Some(v) else TextOf(c, o)
  {
  }

  lemma NetValueNumbers(c: Config, p: Opt, v: string, o: Opt)
    requires SetNet(c.net, p, v).0 == 0
    ensures IsNumber(o) ==>
            NumberOf(c.(net := SetNet(c.net, p, v).1), o) == if o == p then Meaning(o, v) else NumberOf(c, o)
  {
  }

  lemma NetValueRest(c: Config, p: Opt, v: string, o: Opt)
    requires SetNet(c.net, p, v).0 == 0
    ensures FlagChanged(c, c.(net := SetNet(c.net, p, v).1), o, false)
    ensures ProxyChanged(c, c.(net := SetNet(c.net, p, v).1), ProxyUrl, if p.ProxyUrl? then [v] else [])
  {
  }

  lemma NetValueChanges(env: Env, c: Config, p: Opt, v: string, o: Opt)
    requires ForNet(p) && TakesValue(p) && SetValue(env, c, p, v).rc == 0
    ensures Changed(env, c, SetValue(env, c, p, v).cfg, o, o == p, if o == p then [v] else [])
  {
    ValueForNet(env, c, p, v);
    NetValueTexts(env, c, p, v, o);
    NetValueNumbers(c, p, v, o);
    NetValueRest(c, p, v, o);
  }

  lemma MessageValueTexts(env: Env, c: Config, p: Opt, v: string, o: Opt)
    requires SetMessage(c.msg, p, v).0 == 0
    ensures IsText(o, env.role) ==>
            TextOf(c.(msg := SetMessage(c.msg, p, v).1), o) == if o == p then Some(v) else TextOf(c, o)
  {
  }

  lemma MessageValueNumbers(c: Config, p: Opt, v: string, o: Opt)
    requires SetMessage(c.msg, p, v).0 == 0
    ensures IsNumber(o) ==>
            NumberOf(c.(msg := SetMessage(c.msg, p, v).1), o) == if o == p then Meaning(o, v) else NumberOf(c, o)
  {
  }

  lemma MessageValueFlags(c: Config, p: Opt, v: string, o: Opt)
    requires SetMessage(c.msg, p, v).0 == 0
    ensures FlagChanged(c, c.(msg := SetMessage(c.msg, p, v).1), o, o == p)
  {
  }

  lemma MessageValueChanges(env: Env, c: Config, p: Opt, v: string, o: Opt)
    requires ForMessage(p) && SetValue(env, c, p, v).rc == 0
    ensures Changed(env, c, SetValue(env, c, p, v).cfg, o, o == p, if o == p then [v] else [])
  {
    ValueForMessage(env, c, p, v);
    MessageValueTexts(env, c, p, v, o);
    MessageValueNumbers(c, p, v, o);
    MessageValueFlags(c, p, v, o);
  }

  lemma WillValueChanges(env: Env, c: Config, p: Opt, v: string, o: Opt)
    requires ForWill(p) && SetValue(env, c, p, v).rc == 0
    ensures Changed(env, c, SetValue(env, c, p, v).cfg, o, o == p, if o == p then [v] else [])
  {
    ValueForWill(env, c, p, v);
  }

  lemma SubValueTexts(env: Env, c: Config, p: Opt, v: string, o: Opt)
    requires SetSub(env, c.sub, p, v).0 == 0
    ensures TextOf(c.(sub := SetSub(env, c.sub, p, v).1), o) == TextOf(c, o)
    ensures FlagChanged(c, c.(sub := SetSub(env, c.sub, p, v).1), o, false)
  {
  }

  lemma SubValueNumbers(env: Env, c: Config, p: Opt, v: string, o: Opt)
    requires SetSub(env, c.sub, p, v).0 == 0
    ensures IsNumber(o) ==>
            NumberOf(c.(sub := SetSub(env, c.sub, p, v).1), o) == if o == p then Meaning(o, v) else NumberOf(c, o)
  {
  }

  lemma SubValueChanges(env: Env, c: Config, p: Opt, v: string, o: Opt)
    requires (ForSub(p) || (p.Topic? && env.role == Sub)) && SetValue(env, c, p, v).rc == 0
    ensures Changed(env, c, SetValue(env, c, p, v).cfg, o, o == p, if o == p then [v] else [])
  {
    ValueForSub(env, c, p, v);
    SubValueTexts(env, c, p, v, o);
    SubValueNumbers(env, c, p, v, o);
    assert o == p ==> !IsText(o, env.role) && !IsFlag(o);
  }

  lemma PubTopicChanges(env: Env, c: Config, v: string, o: Opt)
    requires env.role == Pub && SetValue(env, c, Topic, v).rc == 0
    ensures Changed(env, c, SetValue(env, c, Topic, v).cfg, o, o == Topic, if o == Topic then [v] else [])
  {
    ValueForPubTopic(env, c, v);
  }

  lemma FlagLeavesTexts(c: Config, p: Opt, o: Opt)
    ensures TextOf(SetFlag(c, p).cfg, o) == TextOf(c, o)
  {
  }

  lemma FlagLeavesNumbers(c: Config, p: Opt, o: Opt)
    ensures NumberOf(SetFlag(c, p).cfg, o) == NumberOf(c, o) && SetFlag(c, p).cfg.net == c.net
  {
  }

  lemma ModeIsGiven(c: Config, p: Opt, o: Opt)
    requires !TakesValue(p) && SetFlag(c, p).rc == 0 && ChoosesMode(o)
    ensures FlagOf(SetFlag(c, p).cfg, o) == (FlagOf(c, o) || o == p)
  {
    if p.Lines? || p.NullOpt? || p.WholeInput? {
      assert c.msg.mode == NoMessage;
    } else {
      assert SetFlag(c, p).cfg.msg.mode == c.msg.mode;
    }
  }

  lemma SwitchIsGiven(c: Config, p: Opt, o: Opt)
    requires !TakesValue(p) && SetFlag(c, p).rc == 0 && IsFlag(o) && !ChoosesMode(o)
    ensures FlagOf(SetFlag(c, p).cfg, o) == (FlagOf(c, o) || o == p)
  {
  }

  lemma FlagChanges(env: Env, c: Config, p: Opt, o: Opt)
    requires !TakesValue(p) && SetFlag(c, p).rc == 0
    ensures Changed(env, c, SetFlag(c, p).cfg, o, o == p, [])
  {
    FlagLeavesTexts(c, p, o);
    FlagLeavesNumbers(c, p, o);
    if ChoosesMode(o) { ModeIsGiven(c, p, o); } else if IsFlag(o) { SwitchIsGiven(c, p, o); }
  }

  lemma OneChanges(env: Env, c: Config, args: seq<string>, o: Opt)
    requires args != [] && One(env, c, args).rc == 0
    ensures Changed(env, c, One(env, c, args).cfg, o, env.option(args[0]) == o, Value(env, args, o))
  {
    var p := env.option(args[0]);
    if !TakesValue(p) { FlagChanges(env, c, p, o); }
    else if ForMessage(p) { MessageValueChanges(env, c, p, args[1], o); }
    else if ForWill(p) { WillValueChanges(env, c, p, args[1], o); }
    else if p.Topic? && env.role == Pub { PubTopicChanges(env, c, args[1], o); }
    else if ForSub(p) || p.Topic? { SubValueChanges(env, c, p, args[1], o); }
    else { NetValueChanges(env, c, p, args[1], o); }
  }

  /** After any accepted vector, every member of the configuration is what the last
      occurrence of its option says, or what it was if the option does not occur. */
  lemma {:induction false} LastOptionWins(env: Env, c: Config, args: seq<string>, o: Opt)
    requires Process(env, c, args).rc == 0
    ensures Changed(env, c, Process(env, c, args).cfg, o, Given(env, args, o), Values(env, args, o))
    decreases |args|
  {
    if args != [] {
      var d, rest := One(env, c, args).cfg, args[Width(env, args)..];
      OneChanges(env, c, args, o);
      LastOptionWins(env, d, rest, o);
      var x, y := Value(env, args, o), Values(env, rest, o);
      assert Values(env, args, o) == x + y;
      ChangesCompose(env, c, d, Process(env, d, rest).cfg, o, env.option(args[0]) == o, x, Given(env, rest, o), y);
    }
  }

  lemma ChangesCompose(env: Env, c: Config, d: Config, e: Config, o: Opt,
                       g: bool, x: seq<string>, h: bool, y: seq<string>)
    requires Changed(env, c, d, o, g, x) && Changed(env, d, e, o, h, y)
    ensures Changed(env, c, e, o, g || h, x + y)
  {
    if y == [] { assert x + y == x; } else { assert (x + y)[|x + y| - 1] == y[|y| - 1]; }
  }

  /** So after a load: every member but the host, which has a default of its own, is
      what the file and the command line say last, or what init_config put there. */
  lemma LoadedOptions(env: Env, lines: seq<seq<string>>, args: seq<string>, o: Opt)
    requires Load(env, lines, args).rc == 0 && !o.Host?
    ensures var all := Flatten(lines) + args;
            Changed(env, Initial(), Load(env, lines, args).cfg, o, Given(env, all, o), Values(env, all, o))
  {
    var all := Flatten(lines) + args;
    LoadIsProcess(env, lines, args);
    LastOptionWins(env, Initial(), all, o);
    HostAlone(env, Process(env, Initial(), all).cfg, Load(env, lines, args).cfg, o);
  }

  lemma HostAlone(env: Env, d: Config, c: Config, o: Opt)
    requires c == d.(net := d.net.(host := c.net.host)) && !o.Host?
    ensures TextOf(c, o) == TextOf(d, o) && NumberOf(c, o) == NumberOf(d, o) && FlagOf(c, o) == FlagOf(d, o)
  {
  }

  // ---------- which words are accepted ----------

  /** What the argument of an option has to be. */
  predicate InRange(env: Env, o: Opt, v: string) {
    match o
    case Port => 1 <= Atoi(v) <= 65535
    case Keepalive => Atoi(v) <= 65535
    case Qos => 0 <= Atoi(v) <= 2
    case WillQos => 0 <= Atoi(v) <= 2
    case Count => 1 <= Atoi(v)
    case Protocol => v == "mqttv31" || v == "mqttv311"
    case ProxyUrl => ParseUrl(v).Some?
    case Topic => if env.role == Pub then env.pubTopicOk(v) else env.subTopicOk(v)
    case FilterOut => env.subTopicOk(v)
    case WillTopic => env.pubTopicOk(v)
    case _ => true
  }

  /** Each word is an option of this program or its argument, and each argument is one
      its option can have; nobody asks for help. */
  predicate Acceptable(env: Env, args: seq<string>)
    decreases |args|
  {
    args != [] ==>
      var o := env.option(args[0]);
      && !Foreign(o, env.role) && !o.Help?
      && (TakesValue(o) ==> |args| > 1 && InRange(env, o, args[1]))
      && Acceptable(env, args[Width(env, args)..])
  }

  /** Two ways to say what is published, or two ways to name the client, exclude each other. */
  predicate Allowed(c: Config, o: Opt) {
    && (ChoosesMode(o) ==> c.msg.mode == NoMessage)
    && (o.Id? ==> c.net.idPrefix.None?) && (o.IdPrefix? ==> c.net.id.None?)
  }

  lemma NetValueAccepted(env: Env, c: Config, o: Opt, v: string)
    requires ForNet(o) && TakesValue(o)
    ensures SetValue(env, c, o, v).rc == 0 <==> InRange(env, o, v) && Allowed(c, o)
  {
    ValueForNet(env, c, o, v);
  }

  lemma MessageValueAccepted(env: Env, c: Config, o: Opt, v: string)
    requires ForMessage(o)
    ensures SetValue(env, c, o, v).rc == 0 <==> InRange(env, o, v) && Allowed(c, o)
  {
    ValueForMessage(env, c, o, v);
  }

  lemma WillValueAccepted(env: Env, c: Config, o: Opt, v: string)
    requires ForWill(o)
    ensures SetValue(env, c, o, v).rc == 0 <==> InRange(env, o, v) && Allowed(c, o)
  {
    ValueForWill(env, c, o, v);
  }

  lemma SubValueAccepted(env: Env, c: Config, o: Opt, v: string)
    requires ForSub(o) || o.Topic?
    ensures SetValue(env, c, o, v).rc == 0 <==> InRange(env, o, v) && Allowed(c, o)
  {
    if ForSub(o) || env.role == Sub { ValueForSub(env, c, o, v); }
  }

  lemma FlagAccepted(c: Config, o: Opt)
    requires !TakesValue(o) && !o.Unknown?
    ensures SetFlag(c, o).rc == 0 <==> !o.Help? && Allowed(c, o)
  {
  }

  /** One option is accepted exactly when it is one of this program, has an argument in
      range if it takes one, and is not excluded by an earlier one. */
  lemma OneAccepted(env: Env, c: Config, args: seq<string>)
    requires args != []
    ensures var o := env.option(args[0]);
            One(env, c, args).rc == 0
            <==> && !Foreign(o, env.role) && !o.Help? && Allowed(c, o)
                 && (TakesValue(o) ==> |args| > 1 && InRange(env, o, args[1]))
  {
    var o := env.option(args[0]);
    if Foreign(o, env.role) {
    } else if !TakesValue(o) {
      FlagAccepted(c, o);
    } else if |args| > 1 {
      if ForMessage(o) { MessageValueAccepted(env, c, o, args[1]); }
      else if ForWill(o) { WillValueAccepted(env, c, o, args[1]); }
      else if ForSub(o) || o.Topic? { SubValueAccepted(env, c, o, args[1]); }
      else { NetValueAccepted(env, c, o, args[1]); }
    }
  }

  /** What a configuration and the words to come say together. */
  predicate Named(env: Env, c: Config, args: seq<string>) { c.net.id.Some? || Given(env, args, Id) }
  predicate Prefixed(env: Env, c: Config, args: seq<string>) { c.net.idPrefix.Some? || Given(env, args, IdPrefix) }

  function Modes(env: Env, c: Config, args: seq<string>): nat {
    (if c.msg.mode == NoMessage then 0 else 1) + ModeOptions(env, args)
  }

  /** A configuration in which nothing excludes anything yet. */
  predicate Unambiguous(c: Config) { !(c.net.id.Some? && c.net.idPrefix.Some?) }

  lemma OneKeepsCount(env: Env, c: Config, args: seq<string>)
    requires args != [] && Unambiguous(c) && One(env, c, args).rc == 0
    ensures var d, rest := One(env, c, args).cfg, args[Width(env, args)..];
            && Unambiguous(d) && Modes(env, d, rest) == Modes(env, c, args)
            && Named(env, d, rest) == Named(env, c, args) && Prefixed(env, d, rest) == Prefixed(env, c, args)
  {
    OneAccepted(env, c, args);
    OneChoosesMode(env, c, args);
    OneChanges(env, c, args, Id);
    OneChanges(env, c, args, IdPrefix);
    assert TakesValue(Id) && TakesValue(IdPrefix);
  }

  /** A vector is accepted exactly when its words are acceptable, at most one of them
      chooses what is published, and the client is not both named and prefixed. */
  lemma {:induction false} ProcessAccepted(env: Env, c: Config, args: seq<string>)
    requires Unambiguous(c)
    ensures Process(env, c, args).rc == 0
            <==> Acceptable(env, args) && Modes(env, c, args) <= 1
                 && !(Named(env, c, args) && Prefixed(env, c, args))
    decreases |args|
  {
    if args != [] {
      OneAccepted(env, c, args);
      if One(env, c, args).rc == 0 {
        OneKeepsCount(env, c, args);
        ProcessAccepted(env, One(env, c, args).cfg, args[Width(env, args)..]);
      }
    }
  }

  /** In an acceptable vector an option that takes a value has one wherever it is given. */
  lemma {:induction false} GivenHasValue(env: Env, args: seq<string>, o: Opt)
    requires Acceptable(env, args) && TakesValue(o)
    ensures Given(env, args, o) <==> Values(env, args, o) != []
    decreases |args|
  {
    if args != [] { GivenHasValue(env, args[Width(env, args)..], o); }
  }

  /** What has to go together: a will with its topic, a subscriber with a topic and, when
      its session is to be kept, with an id of its own. */
  predicate Together(env: Env, all: seq<string>) {
    && (Given(env, all, WillPayload) || Given(env, all, WillRetain) ==> Given(env, all, WillTopic))
    && (env.role == Sub ==>
          && Given(env, all, Topic)
          && (Given(env, all, NoCleanSession) ==> Given(env, all, Id) && !Given(env, all, IdPrefix)))
  }

  lemma TextIsGiven(env: Env, all: seq<string>, o: Opt)
    requires Process(env, Initial(), all).rc == 0 && IsText(o, env.role) && TextOf(Initial(), o) == None
    ensures TextOf(Process(env, Initial(), all).cfg, o).Some? <==> Given(env, all, o)
  {
    ProcessAccepted(env, Initial(), all);
    LastOptionWins(env, Initial(), all, o);
    GivenHasValue(env, all, o);
  }

  lemma FlagIsGiven(env: Env, all: seq<string>, o: Opt)
    requires Process(env, Initial(), all).rc == 0 && IsFlag(o) && !FlagOf(Initial(), o)
    ensures FlagOf(Process(env, Initial(), all).cfg, o) <==> Given(env, all, o)
  {
    LastOptionWins(env, Initial(), all, o);
  }

  lemma TopicIsGiven(env: Env, all: seq<string>)
    requires Process(env, Initial(), all).rc == 0 && env.role == Sub
    ensures Process(env, Initial(), all).cfg.sub.topicCount != 0 <==> Given(env, all, Topic)
  {
    ProcessAccepted(env, Initial(), all);
    GivenHasValue(env, all, Topic);
    InitialIsOk(env);
    ProcessStaysOk(env, Initial(), all);
    TopicsAreTheArguments(env, Initial(), all);
    StartsEmpty(Values(env, all, Topic));
  }

  lemma ValidateAccepts(env: Env, d: Config)
    ensures Validate(env, d).rc == 0
            <==> && (d.will.payload.Some? || d.will.retain ==> d.will.topic.Some?)
                 && (env.role == Sub ==>
                       d.sub.topicCount != 0 && (!d.sub.cleanSession ==> d.net.id.Some? && d.net.idPrefix.None?))
  {
  }

  /** A configuration that says what these words say. */
  ghost predicate Says(env: Env, all: seq<string>, d: Config) {
    && (d.will.payload.Some? <==> Given(env, all, WillPayload))
    && (d.will.topic.Some? <==> Given(env, all, WillTopic))
    && (d.will.retain <==> Given(env, all, WillRetain))
    && (env.role == Sub ==>
          && (d.net.id.Some? <==> Given(env, all, Id)) && (d.net.idPrefix.Some? <==> Given(env, all, IdPrefix))
          && (!d.sub.cleanSession <==> Given(env, all, NoCleanSession))
          && (d.sub.topicCount != 0 <==> Given(env, all, Topic)))
  }

  lemma SubscriberSays(env: Env, all: seq<string>)
    requires Process(env, Initial(), all).rc == 0 && env.role == Sub
    ensures var d := Process(env, Initial(), all).cfg;
            && (d.net.id.Some? <==> Given(env, all, Id)) && (d.net.idPrefix.Some? <==> Given(env, all, IdPrefix))
            && (!d.sub.cleanSession <==> Given(env, all, NoCleanSession))
            && (d.sub.topicCount != 0 <==> Given(env, all, Topic))
  {
    TextIsGiven(env, all, Id);
    TextIsGiven(env, all, IdPrefix);
    FlagIsGiven(env, all, NoCleanSession);
    TopicIsGiven(env, all);
  }

  lemma ResultSays(env: Env, all: seq<string>)
    requires Process(env, Initial(), all).rc == 0
    ensures Says(env, all, Process(env, Initial(), all).cfg)
  {
    TextIsGiven(env, all, WillPayload);
    TextIsGiven(env, all, WillTopic);
    FlagIsGiven(env, all, WillRetain);
    if env.role == Sub { SubscriberSays(env, all); }
  }

  lemma ValidExactly(env: Env, all: seq<string>, d: Config)
    requires Says(env, all, d)
    ensures Validate(env, d).rc == 0 <==> Together(env, all)
  {
    ValidateAccepts(env, d);
  }

  /** A load succeeds exactly on these words: no line of the file leaves its last option
      without its argument; every word of file and command line is an option of this
      program or an argument in range; at most one of them chooses what is published; the
      client is not both named and prefixed; and what has to go together does. */
  lemma LoadAccepted(env: Env, lines: seq<seq<string>>, args: seq<string>)
    ensures Load(env, lines, args).rc == 0
            <==> && (forall line :: line in lines ==> Complete(env, line))
                 && var all := Flatten(lines) + args;
                    && Acceptable(env, all) && ModeOptions(env, all) <= 1
                    && !(Given(env, all, Id) && Given(env, all, IdPrefix)) && Together(env, all)
  {
    var all := Flatten(lines) + args;
    ProcessAccepted(env, Initial(), all);
    if forall line :: line in lines ==> Complete(env, line) {
      LinesAreOneVector(env, Initial(), lines, args);
      if Process(env, Initial(), all).rc == 0 {
        ResultSays(env, all);
        ValidExactly(env, all, Process(env, Initial(), all).cfg);
      }
    } else {
      DanglingFileIsRefused(env, Initial(), lines);
    }
  }

  /** Help is asked for exactly when --help comes behind words that are accepted. */
  lemma {:induction false} HelpIsAnswered(env: Env, c: Config, args: seq<string>)
    ensures Process(env, c, args).rc == 2
            <==> exists n :: 0 <= n < |args| && Process(env, c, args[..n]).rc == 0 && env.option(args[n]) == Help
    decreases |args|
  {
    forall n | 0 <= n < |args| && Process(env, c, args[..n]).rc == 0 && env.option(args[n]) == Help
      ensures Process(env, c, args).rc == 2
    {
      ProcessComposes(env, c, args[..n], args[n..]);
      assert args[..n] + args[n..] == args;
    }
    if Process(env, c, args).rc == 2 {
      var n := WhereHelpIs(env, c, args);
    }
  }

  lemma OnlyHelpGivesTwo(env: Env, c: Config, args: seq<string>)
    requires args != []
    ensures One(env, c, args).rc == 2 <==> env.option(args[0]) == Help
    ensures 0 <= One(env, c, args).rc <= 2
  {
    var o := env.option(args[0]);
    if !Foreign(o, env.role) && TakesValue(o) && |args| > 1 {
      if ForMessage(o) { ValueForMessage(env, c, o, args[1]); }
      else if ForWill(o) { ValueForWill(env, c, o, args[1]); }
      else if ForSub(o) || (o.Topic? && env.role == Sub) { ValueForSub(env, c, o, args[1]); }
      else if !o.Topic? { ValueForNet(env, c, o, args[1]); }
    }
  }

  /** The first option by itself. */
  lemma FirstByItself(env: Env, c: Config, args: seq<string>)
    requires args != [] && One(env, c, args).rc == 0
    ensures Process(env, c, args[..Width(env, args)]) == One(env, c, args)
  {
    var w := Width(env, args);
    var first := args[..w];
    assert first[0] == args[0] && (w > 1 ==> first[1] == args[1]);
    assert Width(env, first) == w && One(env, c, first) == One(env, c, args);
    assert first[w..] == [];
  }

  lemma {:induction false} WhereHelpIs(env: Env, c: Config, args: seq<string>) returns (n: nat)
    requires Process(env, c, args).rc == 2
    ensures n < |args| && Process(env, c, args[..n]).rc == 0 && env.option(args[n]) == Help
    decreases |args|
  {
    OnlyHelpGivesTwo(env, c, args);
    if One(env, c, args).rc == 2 {
      n := 0;
    } else {
      var w := Width(env, args);
      var k := WhereHelpIs(env, One(env, c, args).cfg, args[w..]);
      n := w + k;
      FirstByItself(env, c, args);
      ProcessComposes(env, c, args[..w], args[w..][..k]);
      assert args[..n] == args[..w] + args[w..][..k];
    }
  }

  // ---------- defaults and names ----------

  function Default(o: Opt): int
    requires IsNumber(o)
  {
    match o
    case Port => 1883
    case Keepalive => 60
    case MaxInflight => 20
    case Protocol => 3
    case _ => 0
  }

  /** A number that is not given has its default. */
  lemma DefaultsApply(env: Env, lines: seq<seq<string>>, args: seq<string>, o: Opt)
    requires Load(env, lines, args).rc == 0 && IsNumber(o) && !Given(env, Flatten(lines) + args, o)
    ensures NumberOf(Load(env, lines, args).cfg, o) == Default(o)
  {
    LoadAccepted(env, lines, args);
    GivenHasValue(env, Flatten(lines) + args, o);
    LoadedOptions(env, lines, args, o);
  }

  /** The letter of an option's short name, if it has one. */
  function Letter(o: Opt): Option<char> {
    match o
    case Port => Some('p') case Bind => Some('A') case Count => Some('C') case Debug => Some('d')
    case FileOpt => Some('f') case Host => Some('h') case Id => Some('i') case IdPrefix => Some('I')
    case Keepalive => Some('k') case Lines => Some('l') case Text => Some('m') case MaxInflight => Some('M')
    case NullOpt => Some('n') case Protocol => Some('V') case Qos => Some('q') case Retain => Some('r')
    case WholeInput => Some('s') case Topic => Some('t') case FilterOut => Some('T') case Username => Some('u')
    case Password => Some('P') case NoCleanSession => Some('c') case NoEol => Some('N') case NoRetain => Some('R')
    case Verbose => Some('v')
    case Help | ProxyUrl | Quiet | WillPayload | WillQos | WillRetain | WillTopic | Unknown => None
  }

  function OfLetter(letter: char): Opt {
    if letter == 'p' then Port else if letter == 'A' then Bind else if letter == 'C' then Count
    else if letter == 'd' then Debug else if letter == 'f' then FileOpt else if letter == 'h' then Host
    else if letter == 'i' then Id else if letter == 'I' then IdPrefix else if letter == 'k' then Keepalive
    else if letter == 'l' then Lines else if letter == 'm' then Text else if letter == 'M' then MaxInflight
    else if letter == 'n' then NullOpt else if letter == 'V' then Protocol else if letter == 'q' then Qos
    else if letter == 'r' then Retain else if letter == 's' then WholeInput else if letter == 't' then Topic
    else if letter == 'T' then FilterOut else if letter == 'u' then Username else if letter == 'P' then Password
    else if letter == 'c' then NoCleanSession else if letter == 'N' then NoEol else if letter == 'R' then NoRetain
    else if letter == 'v' then Verbose else Unknown
  }

  lemma LetterOf(letter: char)
    ensures !OfLetter(letter).Unknown? ==> Letter(OfLetter(letter)) == Some(letter)
  {
  }

  lemma OfLetterOf(o: Opt)
    ensures Letter(o).Some? ==> OfLetter(Letter(o).value) == o
  {
  }

  lemma ClassifyCapital(name: string, letter: char)
    requires name == ['-', letter] && letter < 'a'
    ensures Classify(name) == OfLetter(letter)
  {
    assert |name| == 2 && name[1] == letter;
  }

  lemma ClassifyToK(name: string, letter: char)
    requires name == ['-', letter] && 'a' <= letter <= 'k'
    ensures Classify(name) == OfLetter(letter)
  {
    assert |name| == 2 && name[1] == letter;
  }

  lemma ClassifyFromL(name: string, letter: char)
    requires name == ['-', letter] && 'k' < letter
    ensures Classify(name) == OfLetter(letter)
  {
    assert |name| == 2 && name[1] == letter;
  }

  lemma ClassifyLetter(name: string, letter: char)
    requires name == ['-', letter]
    ensures Classify(name) == OfLetter(letter)
  {
    if letter < 'a' { ClassifyCapital(name, letter); }
    else if letter <= 'k' { ClassifyToK(name, letter); }
    else { ClassifyFromL(name, letter); }
  }

  /** A word of one letter behind a dash is the option with that letter. */
  lemma ShortNames(letter: char, o: Opt)
    requires !o.Unknown?
    ensures Classify(['-', letter]) == o <==> Letter(o) == Some(letter)
  {
    ClassifyLetter(['-', letter], letter);
    LetterOf(letter);
    OfLetterOf(o);
  }

  /** The long name of an option, if it has one. */
  function LongName(o: Opt): Option<string> {
    match o
    case Port => Some("--port") case Debug => Some("--debug") case FileOpt => Some("--file")
    case Help => Some("--help") case Host => Some("--host") case Id => Some("--id")
    case IdPrefix => Some("--id-prefix") case Keepalive => Some("--keepalive") case Lines => Some("--stdin-line")
    case Text => Some("--message") case NullOpt => Some("--null-message") case Protocol => Some("--protocol-version")
    case ProxyUrl => Some("--proxy") case Qos => Some("--qos") case Quiet => Some("--quiet")
    case Retain => Some("--retain") case WholeInput => Some("--stdin-file") case Topic => Some("--topic")
    case FilterOut => Some("--filter-out") case Username => Some("--username") case Password => Some("--pw")
    case WillPayload => Some("--will-payload") case WillQos => Some("--will-qos")
    case WillRetain => Some("--will-retain") case WillTopic => Some("--will-topic")
    case NoCleanSession => Some("--disable-clean-session") case Verbose => Some("--verbose")
    case Bind | Count | MaxInflight | NoEol | NoRetain | Unknown => None
  }

  /** The option a long name belongs to, from its length and a few characters. */
  function OfShape(name: string): Opt
    requires |name| >= 4
  {
    match |name|
    case 4 => if name[2] == 'i' then Id else Password
    case 5 => Qos
    case 6 =>
      if name[2] == 'p' then Port else if name[2] == 'f' then FileOpt
      else if name[3] == 'e' then Help else Host
    case 7 =>
      if name[2] == 'd' then Debug else if name[2] == 'p' then ProxyUrl
      else if name[2] == 'q' then Quiet else Topic
    case 8 => Retain
    case 9 => if name[2] == 'm' then Text else Verbose
    case 10 => if name[2] == 'u' then Username else WillQos
    case 11 => if name[2] == 'i' then IdPrefix else Keepalive
    case 12 =>
      if name[2] == 'f' then FilterOut else if name[2] == 'w' then WillTopic
      else if name[8] == 'l' then Lines else WholeInput
    case 13 => WillRetain
    case 14 => if name[2] == 'n' then NullOpt else WillPayload
    case 18 => Protocol
    case _ => NoCleanSession
  }

  lemma ShapeOf(o: Opt)
    ensures LongName(o).Some? ==> |LongName(o).value| >= 4 && OfShape(LongName(o).value) == o
  {
  }

  predicate HasName(name: string) { !Classify(name).Unknown? ==> LongName(Classify(name)) == Some(name) }

  lemma NamesToSix(name: string)
    requires |name| != 2 && |name| <= 6
    ensures HasName(name)
  {
  }

  lemma NamesToEight(name: string)
    requires 7 <= |name| <= 8
    ensures HasName(name)
  {
  }

  lemma NamesToTen(name: string)
    requires 9 <= |name| <= 10
    ensures HasName(name)
  {
  }

  lemma NamesToTwelve(name: string)
    requires 11 <= |name| <= 12
    ensures HasName(name)
  {
  }

  lemma NamesToFourteen(name: string)
    requires 13 <= |name| <= 14
    ensures HasName(name)
  {
  }

  lemma NamesFromFifteen(name: string)
    requires 15 <= |name|
    ensures HasName(name)
  {
  }

  /** What the chain answers has that name. */
  lemma ClassifyHasName(name: string)
    requires |name| != 2
    ensures HasName(name)
  {
    if |name| <= 6 { NamesToSix(name); }
    else if |name| <= 8 { NamesToEight(name); }
    else if |name| <= 10 { NamesToTen(name); }
    else if |name| <= 12 { NamesToTwelve(name); }
    else if |name| <= 14 { NamesToFourteen(name); }
    else { NamesFromFifteen(name); }
  }

  lemma NameIsKnown(o: Opt)
    ensures LongName(o).Some? ==> !Classify(LongName(o).value).Unknown?
  {
  }

  /** A longer word is the option with that name. */
  lemma LongNames(name: string, o: Opt)
    requires |name| != 2 && !o.Unknown?
    ensures Classify(name) == o <==> LongName(o) == Some(name)
  {
    ClassifyHasName(name);
    if LongName(o) == Some(name) {
      NameIsKnown(o);
      ShapeOf(o);
      ShapeOf(Classify(name));
    }
  }
}
