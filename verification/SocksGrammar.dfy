/** The proxy URL on values: the one-pass scanner of mosquitto__parse_socks_url as
    a step function over text, the grammar it is meant to recognise, and the proof
    that they agree on every input. */
module SocksGrammar {
  import opened Wrappers
  import opened CStrings
  import opened PercentCoding

  /** The pieces of `user[:pass]@host[:port]` as they stand in the URL. */
  datatype Parts = Parts(user: Option<string>, pass: Option<string>, host: string, port: Option<string>)

  /** What the caller's configuration receives. */
  datatype Proxy = Proxy(user: Option<string>, pass: Option<string>, host: string, port: int)

  // ---------- the scanner ----------

  /** The scanner's local variables; a pointer is None when null. */
  datatype Scan = Scan(
    user: Option<string>, pass: Option<string>, host: Option<string>,
    userOrHost: Option<string>, start: nat, haveAuth: bool)

  const FRESH := Scan(None, None, None, None, 0, false)

  /** One character; None stands for `goto cleanup`. */
  function Step(s: string, i: nat, st: Scan): Option<Scan>
    requires st.start <= i < |s|
  {
    var piece := s[st.start..i];
    if s[i] == ':' then
      if i == st.start then None
      else if st.haveAuth then
        if st.host.Some? then None else Some(st.(host := Some(piece), start := i + 1))
      else if st.userOrHost.None? then Some(st.(userOrHost := Some(piece), start := i + 1))
      else Some(st)
    else if s[i] == '@' then
      if i == st.start then None
      else if st.userOrHost.Some? then
        Some(st.(user := st.userOrHost, userOrHost := None, pass := Some(piece), start := i + 1, haveAuth := true))
      else if st.user.Some? then None
      else Some(st.(user := Some(piece), start := i + 1, haveAuth := true))
    else Some(st)
  }

  function ScanFrom(s: string, i: nat, st: Scan): (r: Option<Scan>)
    requires st.start <= i <= |s|
    ensures r.Some? ==> r.value.start <= |s|
    decreases |s| - i
  {
    if i == |s| then Some(st)
    else match Step(s, i, st)
      case None => None
      case Some(next) => ScanFrom(s, i + 1, next)
  }

  /** The text after the last separator, and the check that a host was found. */
  function Finish(s: string, st: Scan): Option<Parts>
    requires st.start <= |s|
  {
    var rest := s[st.start..];
    if rest == [] then
      match st.host case Some(h) => Some(Parts(st.user, st.pass, h, None)) case None => None
    else match st.host
      case Some(h) => Some(Parts(st.user, st.pass, h, Some(rest)))
      case None => match st.userOrHost
        case Some(h) => Some(Parts(st.user, st.pass, h, Some(rest)))
        case None => Some(Parts(st.user, st.pass, rest, None))
  }

  /** The scanner from start to finish. */
  function Split(s: string): Option<Parts> {
    match ScanFrom(s, 0, FRESH)
    case None => None
    case Some(st) => Finish(s, st)
  }

  // ---------- the grammar ----------

  predicate Plain(s: string) { ':' !in s && '@' !in s }

  /** Text after a `:` seen before any `@`: it may hold more colons, but not first. */
  predicate Tail(s: string) { s != [] && s[0] != ':' && '@' !in s }

  predicate AuthOk(user: Option<string>, pass: Option<string>) {
    && (user.Some? ==> user.value != [] && Plain(user.value))
    && (pass.Some? ==> user.Some? && Tail(pass.value))
  }

  predicate WellFormed(p: Parts) {
    && AuthOk(p.user, p.pass)
    && p.host != [] && Plain(p.host)
    && (p.port.Some? ==> if p.user.Some? then p.port.value != [] && Plain(p.port.value) else Tail(p.port.value))
  }

  function AuthText(user: Option<string>, pass: Option<string>): string {
    match (user, pass)
    case (None, _) => ""
    case (Some(u), None) => u + "@"
    case (Some(u), Some(w)) => u + ":" + w + "@"
  }

  function PortText(port: Option<string>): string {
    match port case None => "" case Some(t) => ":" + t
  }

  function Unparse(p: Parts): string {
    AuthText(p.user, p.pass) + p.host + PortText(p.port)
  }

  /** The URLs that name `p`.  With a user, a bare trailing colon is let through. */
  predicate Derives(s: string, p: Parts) {
    && WellFormed(p)
    && (|| s == Unparse(p)
        || (p.user.Some? && p.port.None? && s == Unparse(p) + ":"))
  }

  // ---------- soundness: whatever is returned was derived ----------

  /** What the variables say about the text before position `i`. */
  predicate Inv(s: string, i: nat, st: Scan) {
    && st.start <= i <= |s|
    && AuthOk(st.user, st.pass)
    && st.haveAuth == st.user.Some?
    && (st.haveAuth ==> st.userOrHost.None? && Plain(s[st.start..i]))
    && (!st.haveAuth ==> st.host.None?)
    && (st.host.Some? ==> st.host.value != [] && Plain(st.host.value))
    && (st.userOrHost.Some? ==>
          && st.userOrHost.value != [] && Plain(st.userOrHost.value)
          && '@' !in s[st.start..i] && (i > st.start ==> s[st.start] != ':'))
    && (!st.haveAuth && st.userOrHost.None? ==> st.start == 0 && Plain(s[..i]))
    && s[..st.start] == AuthText(st.user, st.pass)
                        + (match st.host case None => "" case Some(h) => h + ":")
                        + (match st.userOrHost case None => "" case Some(h) => h + ":")
  }

  lemma StepKeepsInv(s: string, i: nat, st: Scan)
    requires Inv(s, i, st) && i < |s| && Step(s, i, st).Some?
    ensures Inv(s, i + 1, Step(s, i, st).value)
  {
    var next := Step(s, i, st).value;
    var piece := s[st.start..i];
    assert s[st.start..i + 1] == piece + [s[i]];
    assert s[..i + 1] == s[..i] + [s[i]];
    assert s[..i] == s[..st.start] + piece;
    if next.start == i + 1 {
      assert s[next.start..i + 1] == [];
      assert s[..next.start] == s[..st.start] + piece + [s[i]];
      assert AuthText(None, None) + "" + "" == "";
      if s[i] == ':' && st.haveAuth {
        assert s[..st.start] == AuthText(st.user, st.pass);
        assert s[..next.start] == AuthText(st.user, st.pass) + (piece + ":") + "";
      } else if s[i] == ':' {
        assert s[..st.start] == "";
        assert s[..next.start] == "" + "" + (piece + ":");
      } else if st.userOrHost.Some? {
        assert s[..st.start] == st.userOrHost.value + ":";
        assert s[..next.start] == AuthText(next.user, next.pass);
      } else {
        assert s[..st.start] == "";
        assert s[..next.start] == piece + "@";
      }
    }
  }

  lemma {:induction false} ScanKeepsInv(s: string, i: nat, st: Scan)
    requires Inv(s, i, st) && ScanFrom(s, i, st).Some?
    ensures Inv(s, |s|, ScanFrom(s, i, st).value)
    decreases |s| - i
  {
    if i < |s| {
      StepKeepsInv(s, i, st);
      ScanKeepsInv(s, i + 1, Step(s, i, st).value);
    }
  }

  lemma SplitSound(s: string)
    requires Split(s).Some?
    ensures Derives(s, Split(s).value)
  {
    ScanKeepsInv(s, 0, FRESH);
    var st, p := ScanFrom(s, 0, FRESH).value, Split(s).value;
    var rest := s[st.start..];
    assert s == s[..st.start] + rest && s[..|s|] == s;
    if rest == [] {
      assert st.host.Some? && st.userOrHost.None?;
      assert s == s[..st.start] == AuthText(p.user, p.pass) + (p.host + ":") + "";
      assert s == Unparse(p) + ":";
    } else if st.host.Some? {
      assert s == AuthText(p.user, p.pass) + (p.host + ":") + "" + rest;
      assert s == Unparse(p);
    } else if st.userOrHost.Some? {
      assert s == AuthText(p.user, p.pass) + "" + (p.host + ":") + rest;
      assert s == Unparse(p);
    } else {
      assert s == AuthText(p.user, p.pass) + "" + "" + rest;
      assert s == Unparse(p);
    }
  }

  // ---------- completeness: whatever can be derived is returned ----------

  /** Characters that leave the variables as they are are skipped. */
  lemma {:induction false} Skip(s: string, i: nat, j: nat, st: Scan)
    requires st.start <= i <= j <= |s|
    requires forall k :: i <= k < j ==> Step(s, k, st) == Some(st)
    ensures ScanFrom(s, i, st) == ScanFrom(s, j, st)
    decreases j - i
  {
    if i < j { Skip(s, i + 1, j, st); }
  }

  /** Scanning `user[:pass]@` leaves exactly those two variables set. */
  lemma ScanAuth(s: string, user: Option<string>, pass: Option<string>)
    requires AuthOk(user, pass) && user.Some? && AuthText(user, pass) <= s
    ensures var a := AuthText(user, pass);
            ScanFrom(s, 0, FRESH) == ScanFrom(s, |a|, Scan(user, pass, None, None, |a|, true))
  {
    var a, u := AuthText(user, pass), user.value;
    assert forall k :: 0 <= k < |a| ==> s[k] == a[k];
    assert s[..|u|] == u;
    Skip(s, 0, |u|, FRESH);
    if pass.Some? {
      var w := pass.value;
      var mid := Step(s, |u|, FRESH).value;
      assert s[|u| + 1..|u| + 1 + |w|] == w;
      assert forall k :: |u| + 1 <= k < |u| + 1 + |w| ==> s[k] == w[k - |u| - 1];
      Skip(s, |u| + 1, |u| + 1 + |w|, mid);
    }
  }

  /** From the host on, with `st` the variables when its first character is reached. */
  lemma ScanHost(s: string, n: nat, h: string, st: Scan)
    requires n + |h| <= |s| && s[n..n + |h|] == h && h != [] && Plain(h)
    requires st.start == n
    ensures ScanFrom(s, n, st) == ScanFrom(s, n + |h|, st)
  {
    assert forall k :: n <= k < n + |h| ==> s[k] == h[k - n];
    Skip(s, n, n + |h|, st);
  }

  /** The colon after the host and the text that follows it. */
  lemma ScanPort(s: string, m: nat, st: Scan)
    requires st.start < m < |s| && s[m] == ':' && st.host.None? && st.userOrHost.None?
    requires '@' !in s[m + 1..]
    requires if st.haveAuth then Plain(s[m + 1..]) else m + 1 < |s| && s[m + 1] != ':'
    ensures var h := Some(s[st.start..m]);
            ScanFrom(s, m, st)
            == Some(if st.haveAuth then st.(host := h, start := m + 1) else st.(userOrHost := h, start := m + 1))
  {
    var t := s[m + 1..];
    assert forall k :: m + 1 <= k < |s| ==> s[k] == t[k - m - 1];
    Skip(s, m + 1, |s|, Step(s, m, st).value);
  }

  /** Where the pieces lie in a text that is derived: the user and password up to `n`, the
      host up to `m`, and the rest. */
  predicate LaidOut(s: string, p: Parts, n: nat, m: nat) {
    && n == |AuthText(p.user, p.pass)| && AuthText(p.user, p.pass) <= s
    && n < m <= |s| && s[n..m] == p.host
    && (m == |s| ==> p.port.None?)
    && (m < |s| ==> s[m] == ':' && s[m + 1..] == (if p.port.Some? then p.port.value else []))
    && (m < |s| && p.user.None? ==> p.port.Some?)
  }

  lemma Layout(s: string, p: Parts)
    requires Derives(s, p)
    ensures LaidOut(s, p, |AuthText(p.user, p.pass)|, |AuthText(p.user, p.pass)| + |p.host|)
  {
    var a, h := AuthText(p.user, p.pass), p.host;
    var rest := if s == Unparse(p) then PortText(p.port) else ":";
    assert s == a + h + rest;
    assert s[..|a|] == a && s[|a|..|a| + |h|] == h && s[|a| + |h|..] == rest;
    if rest != [] {
      assert s[|a| + |h|] == rest[0] && s[|a| + |h| + 1..] == rest[1..];
    }
  }

  /** The scanner at the end of the host. */
  lemma ScanToHost(s: string, p: Parts, n: nat, m: nat)
    requires AuthOk(p.user, p.pass) && Plain(p.host) && LaidOut(s, p, n, m)
    ensures var st := if p.user.Some? then Scan(p.user, p.pass, None, None, n, true) else FRESH;
            st.start == n && ScanFrom(s, 0, FRESH) == ScanFrom(s, m, st)
  {
    var st := if p.user.Some? then Scan(p.user, p.pass, None, None, n, true) else FRESH;
    if p.user.Some? { ScanAuth(s, p.user, p.pass); }
    ScanHost(s, n, p.host, st);
  }

  /** And from there to the end. */
  lemma ScanToEnd(s: string, p: Parts, n: nat, m: nat)
    requires WellFormed(p) && LaidOut(s, p, n, m)
    ensures var st := if p.user.Some? then Scan(p.user, p.pass, None, None, n, true) else FRESH;
            st.start == n && ScanFrom(s, m, st).Some? && Finish(s, ScanFrom(s, m, st).value) == Some(p)
  {
    var st := if p.user.Some? then Scan(p.user, p.pass, None, None, n, true) else FRESH;
    if m < |s| {
      ScanPort(s, m, st);
    } else {
      assert s[n..] == s[n..m];
    }
  }

  lemma SplitComplete(s: string, p: Parts)
    requires Derives(s, p)
    ensures Split(s) == Some(p)
  {
    var n := |AuthText(p.user, p.pass)|;
    Layout(s, p);
    ScanToHost(s, p, n, n + |p.host|);
    ScanToEnd(s, p, n, n + |p.host|);
  }

  /** The scanner accepts exactly the grammar, and returns exactly its parts. */
  lemma SplitIsGrammar(s: string, p: Parts)
    ensures Split(s) == Some(p) <==> Derives(s, p)
  {
    if Split(s) == Some(p) { SplitSound(s); }
    if Derives(s, p) { SplitComplete(s, p); }
  }

  /** So no URL can be read in two ways. */
  lemma GrammarIsUnambiguous(s: string, p: Parts, q: Parts)
    requires Derives(s, p) && Derives(s, q)
    ensures p == q
  {
    SplitComplete(s, p);
    SplitComplete(s, q);
  }

  // ---------- the whole parser ----------

  const SCHEME := "socks5h://"

  function DecodeOpt(s: Option<string>): Option<string> {
    match s case None => None case Some(t) => Some(Decode(t).done)
  }

  predicate Decodes(s: Option<string>) { s.Some? ==> Decode(s.value).stuck == [] }

  function PortNumber(port: Option<string>): int {
    match port case None => 1080 case Some(t) => Atoi(t)
  }

  /** What mosquitto__parse_socks_url stores, or None when it returns 1. */
  function ParseUrl(url: string): Option<Proxy> {
    if !(SCHEME <= url) then None
    else match Split(url[|SCHEME|..])
      case None => None
      case Some(p) =>
        if Decodes(p.user) && Decodes(p.pass) && 1 <= PortNumber(p.port) <= 65535
        then Some(Proxy(DecodeOpt(p.user), DecodeOpt(p.pass), p.host, PortNumber(p.port)))
        else None
  }

  /** A URL is accepted exactly when the grammar derives it from parts whose user
      and password decode and whose port, if any, is in range. */
  lemma ParserAccepts(url: string)
    ensures ParseUrl(url).Some? <==>
            exists p :: SCHEME <= url && Derives(url[|SCHEME|..], p) && Decodes(p.user) && Decodes(p.pass)
                        && 1 <= PortNumber(p.port) <= 65535
  {
    if SCHEME <= url {
      var s := url[|SCHEME|..];
      if ParseUrl(url).Some? { SplitSound(s); }
      forall p | Derives(s, p) ensures Split(s) == Some(p) { SplitComplete(s, p); }
    }
  }

  /** A port is the number its text starts with, whatever follows the digits: a URL
      with such a port is accepted exactly when that number is in range. */
  lemma PortIsNumber(p: Parts, zeros: string, n: nat, rest: string)
    requires WellFormed(p) && Decodes(p.user) && Decodes(p.pass)
    requires p.port == Some(zeros + Decimal(n) + rest) && Zeros(zeros) && EndsNumber(rest)
    ensures ParseUrl(SCHEME + Unparse(p))
            == if 1 <= n <= 65535 then Some(Proxy(DecodeOpt(p.user), DecodeOpt(p.pass), p.host, n)) else None
  {
    var url := SCHEME + Unparse(p);
    assert url[|SCHEME|..] == Unparse(p);
    SplitComplete(Unparse(p), p);
    AtoiReads([], zeros, n, rest);
    assert [] + (zeros + Decimal(n) + rest) == zeros + Decimal(n) + rest;
  }

  /** For instance, after a host without a user. */
  lemma HostAndPort(host: string, n: nat, rest: string)
    requires host != [] && Plain(host) && '@' !in rest && EndsNumber(rest)
    ensures ParseUrl(SCHEME + (host + (":" + (Decimal(n) + rest))))
            == if 1 <= n <= 65535 then Some(Proxy(None, None, host, n)) else None
  {
    var p := Parts(None, None, host, Some([] + Decimal(n) + rest));
    assert [] + Decimal(n) + rest == Decimal(n) + rest;
    assert !IsDigit('@') && !IsDigit(':');
    assert (Decimal(n) + rest)[0] == Decimal(n)[0];
    assert WellFormed(p);
    assert Unparse(p) == host + (":" + (Decimal(n) + rest));
    PortIsNumber(p, [], n, rest);
  }

  // ---------- printing and parsing ----------

  function EncodeOpt(s: Option<string>): Option<string> {
    match s case None => None case Some(t) => Some(Encode(t))
  }

  /** The URL of a proxy, with the port written out or left to its default. */
  function PrintUrl(x: Proxy, withPort: bool): string
    requires 0 <= x.port
  {
    var port := if withPort then Some(Decimal(x.port)) else None;
    SCHEME + Unparse(Parts(EncodeOpt(x.user), EncodeOpt(x.pass), x.host, port))
  }

  /** The proxies a URL can name: a password needs a user, no part is empty. */
  predicate Printable(x: Proxy) {
    && x.host != [] && Plain(x.host) && 1 <= x.port <= 65535
    && (x.user.Some? ==> x.user.value != [])
    && (x.pass.Some? ==> x.user.Some? && x.pass.value != [])
  }

  function ReplaceAtOpt(s: Option<string>): Option<string> {
    match s case None => None case Some(t) => Some(ReplaceAt(t, ':'))
  }

  /** Parsing what was printed gives back every part, except that each '@' of the
      user and the password comes back as ':'. */
  lemma ParsePrinted(x: Proxy, withPort: bool)
    requires Printable(x) && (withPort || x.port == 1080)
    ensures ParseUrl(PrintUrl(x, withPort))
            == Some(Proxy(ReplaceAtOpt(x.user), ReplaceAtOpt(x.pass), x.host, x.port))
  {
    var p := Parts(EncodeOpt(x.user), EncodeOpt(x.pass), x.host, if withPort then Some(Decimal(x.port)) else None);
    if x.user.Some? { EncodedIsPlain(x.user.value); DecodeEncode(x.user.value, ':'); }
    if x.pass.Some? { EncodedIsPlain(x.pass.value); DecodeEncode(x.pass.value, ':'); }
    AtoiDecimal(x.port);
    assert Plain(Decimal(x.port)) by {
      assert !IsDigit(':') && !IsDigit('@');
    }
    assert IsDigit(Decimal(x.port)[0]);
    assert WellFormed(p);
    var url := PrintUrl(x, withPort);
    assert url[|SCHEME|..] == Unparse(p);
    SplitComplete(url[|SCHEME|..], p);
  }

  /** Printer and parser undo each other exactly when neither the user nor the
      password holds an '@'. */
  lemma PrintParseRoundTrip(x: Proxy, withPort: bool)
    requires Printable(x) && (withPort || x.port == 1080)
    ensures ParseUrl(PrintUrl(x, withPort)) == Some(x)
            <==> (x.user.Some? ==> '@' !in x.user.value) && (x.pass.Some? ==> '@' !in x.pass.value)
  {
    ParsePrinted(x, withPort);
    if x.user.Some? { ReplacedIffAt(x.user.value); }
    if x.pass.Some? { ReplacedIffAt(x.pass.value); }
  }

  lemma ReplacedIffAt(s: string)
    ensures ReplaceAt(s, ':') == s <==> '@' !in s
  {
    DecodeEncode(s, ':');
    RoundTrip(s);
  }
}
