/** mosquitto__parse_socks_url on real pointers: every piece of the URL is a block
    of its own, taken from and given back to an allocator that knows which blocks
    are live.  The scanner's variables are the fields of `Segments`; the text side
    of each step is the step function of SocksGrammar. */
module SocksUrl {
  import opened Wrappers
  import opened CStrings
  import opened PercentCoding
  import opened SocksGrammar

  /** malloc and free, with allocation assumed to succeed. */
  class Allocator {
    ghost var live: set<array<char>>

    method Malloc(n: nat) returns (p: array<char>)
      modifies this
      ensures fresh(p) && p.Length == n && live == old(live) + {p}
    {
      p := new char[n];
      live := live + {p};
    }

    /** Only a live block may be freed, so no block is freed twice. */
    method Free(p: array<char>)
      requires p in live
      modifies this
      ensures live == old(live) - {p}
    {
      live := live - {p};
    }
  }

  /** A pointer and the text it is supposed to hold. */
  ghost predicate HoldsOpt(p: array?<char>, s: Option<string>)
    reads p
  {
    match s case None => p == null case Some(t) => p != null && Holds(p, t)
  }

  /** The block a pointer owns, if it is not null. */
  ghost function Own(p: array?<char>): set<array<char>> {
    if p == null then {} else {p}
  }

  /** The part of mosq_config the parser writes. */
  class SocksConfig {
    var username: array?<char>
    var password: array?<char>
    var host: array?<char>
    var port: int

    /** The blocks the configuration points to. */
    ghost function Fields(): set<array<char>>
      reads this
    {
      Own(username) + Own(password) + Own(host)
    }
  }

  /** The parser's local variables. */
  class Segments {
    var username: array?<char>
    var password: array?<char>
    var host: array?<char>
    var port: array?<char>
    var usernameOrHost: array?<char>
    var start: nat
    var haveAuth: bool
    const heap: Allocator
    ghost const base: set<array<char>>  // the blocks that were live at entry

    constructor (heap: Allocator)
      ensures this.heap == heap && base == heap.live
      ensures Owned() && Shows(FRESH, None)
    {
      this.heap, base := heap, heap.live;
      username, password, host, port, usernameOrHost := null, null, null, null, null;
      start, haveAuth := 0, false;
    }

    /** The blocks this call has allocated and not freed. */
    ghost function Held(): set<array<char>>
      reads this
    {
      Own(username) + Own(password) + Own(host) + Own(port) + Own(usernameOrHost)
    }

    /** Conservation: what is live is what was live at entry and what the variables
        point to, each block held by one variable only. */
    ghost predicate Owned()
      reads this, heap
    {
      && base !! Own(username) !! Own(password) !! Own(host) !! Own(port) !! Own(usernameOrHost)
      && heap.live == base + Held()
    }

    /** The variables hold what the scanner over text says they hold. */
    ghost predicate Shows(st: Scan, portText: Option<string>)
      reads this, username, password, host, port, usernameOrHost
    {
      && HoldsOpt(username, st.user) && HoldsOpt(password, st.pass) && HoldsOpt(host, st.host)
      && HoldsOpt(port, portText) && HoldsOpt(usernameOrHost, st.userOrHost)
      && start == st.start && haveAuth == st.haveAuth
    }

    /** Which variables can be set together: nothing held is ever overwritten. */
    ghost predicate Stage(st: Scan) {
      && (st.haveAuth ==> st.user.Some? && st.userOrHost.None?)
      && (!st.haveAuth ==> st.user.None? && st.pass.None? && st.host.None?)
    }

    /** malloc, memcpy and the terminator: a new block holding str[start..i]. */
    method Segment(str: CString, i: nat) returns (p: array<char>)
      requires start <= i <= |str|
      modifies heap
      ensures fresh(p) && heap.live == old(heap.live) + {p}
      ensures Holds(p, str[start..i])
    {
      var len := i - start;
      p := heap.Malloc(len + 1);
      forall k | 0 <= k < len { p[k] := str[start + k]; }
      p[len] := NUL;
      assert p[..len] == str[start..i];
    }

    /** A ':' in the loop.  False stands for `goto cleanup`. */
    method Colon(str: CString, i: nat, ghost st: Scan) returns (ok: bool)
      requires start <= i < |str| && str[i] == ':' && Owned() && Shows(st, None)
      requires Stage(st)
      modifies this, heap
      ensures Owned() && fresh(Held() - old(Held()))
      ensures ok == Step(str, i, st).Some?
      ensures ok ==> Shows(Step(str, i, st).value, None)
    {
      if i == start { return false; }
      if haveAuth {
        if host != null { return false; }
        host := Segment(str, i);
        start := i + 1;
      } else if usernameOrHost == null {
        usernameOrHost := Segment(str, i);
        start := i + 1;
      }
      return true;
    }

    /** A '@' in the loop. */
    method At(str: CString, i: nat, ghost st: Scan) returns (ok: bool)
      requires start <= i < |str| && str[i] == '@' && Owned() && Shows(st, None)
      requires Stage(st)
      modifies this, heap
      ensures Owned() && fresh(Held() - old(Held()))
      ensures ok == Step(str, i, st).Some?
      ensures ok ==> Shows(Step(str, i, st).value, None)
    {
      if i == start { return false; }
      haveAuth := true;
      if usernameOrHost != null {
        username := usernameOrHost;
        usernameOrHost := null;
        password := Segment(str, i);
        start := i + 1;
      } else {
        if username != null { return false; }
        username := Segment(str, i);
        start := i + 1;
      }
      return true;
    }

    /** One character of the loop. */
    method Character(str: CString, i: nat, ghost st: Scan) returns (ok: bool)
      requires start <= i < |str| && Owned() && Shows(st, None)
      requires Stage(st)
      modifies this, heap
      ensures Owned() && fresh(Held() - old(Held()))
      ensures ok == Step(str, i, st).Some?
      ensures ok ==> Shows(Step(str, i, st).value, None)
    {
      ok := true;
      if str[i] == ':' {
        ok := Colon(str, i, st);
      } else if str[i] == '@' {
        ok := At(str, i, st);
      }
    }

    /** The text after the last separator becomes the host or the port. */
    method Remainder(str: CString, ghost st: Scan)
      requires start <= |str| && Owned() && Shows(st, None) && Stage(st)
      modifies this, heap
      ensures Owned() && fresh(Held() - old(Held()))
      ensures match Finish(str, st)
              case None => host == null
              case Some(p) => HoldsOpt(username, p.user) && HoldsOpt(password, p.pass)
                              && HoldsOpt(host, Some(p.host)) && HoldsOpt(port, p.port) && usernameOrHost == null
    {
      ghost var rest := str[st.start..];
      assert rest != [] <==> |str| > start;
      if |str| > start {
        assert str[start..|str|] == rest;
        if host != null {
          port := Segment(str, |str|);
        } else if usernameOrHost != null {
          host := usernameOrHost;
          usernameOrHost := null;
          port := Segment(str, |str|);
        } else {
          host := Segment(str, |str|);
        }
      }
    }

    /** The cleanup label: every block still held is freed, each once. */
    method Cleanup()
      requires Owned()
      modifies heap
      ensures heap.live == base
    {
      if usernameOrHost != null { heap.Free(usernameOrHost); }
      if username != null { heap.Free(username); }
      if password != null { heap.Free(password); }
      if host != null { heap.Free(host); }
      if port != null { heap.Free(port); }
    }

    /** The loop over the URL after its scheme, and the remainder. */
    method Scan(str: CString) returns (ok: bool)
      requires Owned() && Held() == {} && Shows(FRESH, None)
      modifies this, heap
      ensures Owned() && fresh(Held())
      ensures ok <==> Split(str).Some?
      ensures ok ==> var p := Split(str).value;
              HoldsOpt(username, p.user) && HoldsOpt(password, p.pass)
              && HoldsOpt(host, Some(p.host)) && HoldsOpt(port, p.port) && usernameOrHost == null
    {
      ghost var st := FRESH;
      var i := 0;
      while i < |str|
        invariant st.start <= i <= |str| && Stage(st)
        invariant Owned() && fresh(Held()) && Shows(st, None)
        invariant ScanFrom(str, 0, FRESH) == ScanFrom(str, i, st)
      {
        ok := Character(str, i, st);
        if !ok { return; }
        st := Step(str, i, st).value;
        i := i + 1;
      }
      Remainder(str, st);
      ok := host != null;
    }

    /** Decodes the user and the password in place. */
    method DecodeAuth(ghost p: Parts) returns (ok: bool)
      requires Owned()
      requires HoldsOpt(username, p.user) && HoldsOpt(password, p.pass)
      modifies username, password
      ensures ok <==> Decodes(p.user) && Decodes(p.pass)
      ensures ok ==> HoldsOpt(username, DecodeOpt(p.user)) && HoldsOpt(password, DecodeOpt(p.pass))
    {
      var rc := UrlDecode(username, if p.user.Some? then p.user.value else "");
      if rc != 0 { return false; }
      ghost var user := DecodeOpt(p.user);
      assert user.Some? ==> Decode(p.user.value).done + [] == user.value;
      assert HoldsOpt(username, user);
      rc := UrlDecode(password, if p.pass.Some? then p.pass.value else "");
      if rc != 0 { return false; }
      assert p.pass.Some? ==> Decode(p.pass.value).done + [] == Decode(p.pass.value).done;
      return true;
    }

    /** Reads the port, or its default, and gives its text back. */
    method TakePort(ghost text: Option<string>) returns (number: int, ok: bool)
      requires Owned() && HoldsOpt(port, text)
      modifies heap
      ensures number == PortNumber(text) && (ok <==> 1 <= number <= 65535)
      ensures heap.live == if ok then old(heap.live) - Own(port) else old(heap.live)
    {
      if port == null { return 1080, true; }
      var n := Strlen(port, text.value);
      number := Atoi(port[..n]);
      if number < 1 || number > 65535 { return number, false; }
      heap.Free(port);
      return number, true;
    }

    /** Everything up to the point where the configuration is written. */
    method Parse(str: CString) returns (ok: bool, number: int)
      requires Owned() && Held() == {} && Shows(FRESH, None)
      modifies this, heap
      ensures ok <==> ParseUrl(SCHEME + str).Some?
      ensures !ok ==> heap.live == base
      ensures ok ==> var x := ParseUrl(SCHEME + str).value;
              HoldsOpt(username, x.user) && HoldsOpt(password, x.pass)
              && HoldsOpt(host, Some(x.host)) && number == x.port
      ensures ok ==> base !! Own(username) !! Own(password) !! Own(host)
      ensures ok ==> heap.live == base + Own(username) + Own(password) + Own(host)
    {
      number := 0;
      assert (SCHEME + str)[|SCHEME|..] == str;
      ok := Scan(str);
      if ok {
        ghost var p := Split(str).value;
        ok := DecodeAuth(p);
        if ok {
          number, ok := TakePort(p.port);
        }
      }
      if !ok { Cleanup(); }
    }
  }

  /** Parses `url` into `cfg`: 0 on success, 1 otherwise.

      On failure nothing has changed: every block taken has been freed and the
      configuration is as it was.  On success the three fields hold the decoded
      parts in blocks of their own, and those are the only blocks left over. */
  method ParseSocksUrl(cfg: SocksConfig, heap: Allocator, url: CString) returns (rc: int)
    modifies cfg, heap
    ensures rc == if ParseUrl(url).Some? then 0 else 1
    ensures rc == 1 ==> heap.live == old(heap.live) && unchanged(cfg)
    ensures rc == 0 ==> var x := ParseUrl(url).value;
            HoldsOpt(cfg.username, x.user) && HoldsOpt(cfg.password, x.pass)
            && HoldsOpt(cfg.host, Some(x.host)) && cfg.port == x.port
    ensures rc == 0 ==> old(heap.live) !! Own(cfg.username) !! Own(cfg.password) !! Own(cfg.host)
    ensures rc == 0 ==> heap.live == old(heap.live) + Own(cfg.username) + Own(cfg.password) + Own(cfg.host)
  {
    if !(SCHEME <= url) { return 1; }
    var str: CString := url[|SCHEME|..];
    var seg := new Segments(heap);
    assert SCHEME + str == url;
    var ok, number := seg.Parse(str);
    if !ok { return 1; }
    cfg.username, cfg.password, cfg.host, cfg.port := seg.username, seg.password, seg.host, number;
    return 0;
  }

  /** The live blocks that the configuration does not point to. */
  ghost function Stray(cfg: SocksConfig, heap: Allocator): set<array<char>>
    reads cfg, heap
  {
    heap.live - cfg.Fields()
  }

  /** A URL accepted when fields are set already: their blocks stay live and no field
      holds them any more, so nothing is lost exactly when all three were null. */
  method Replace(cfg: SocksConfig, heap: Allocator, url: CString) returns (rc: int)
    requires cfg.Fields() <= heap.live
    modifies cfg, heap
    ensures rc == if ParseUrl(url).Some? then 0 else 1
    ensures cfg.Fields() <= heap.live
    ensures rc == 1 ==> heap.live == old(heap.live) && unchanged(cfg)
    ensures rc == 0 ==> cfg.Fields() != {} && cfg.Fields() !! old(heap.live)
    ensures rc == 0 ==> Stray(cfg, heap) == old(Stray(cfg, heap) + cfg.Fields())
    ensures rc == 0 ==> (Stray(cfg, heap) == old(Stray(cfg, heap))
                         <==> old(cfg.username == null && cfg.password == null && cfg.host == null))
  {
    ghost var before, fields := heap.live, cfg.Fields();
    rc := ParseSocksUrl(cfg, heap, url);
    if rc == 0 {
      assert cfg.host != null && cfg.host in cfg.Fields();
      assert Stray(cfg, heap) == before == (before - fields) + fields;
      if fields != {} {
        var p :| p in fields;
        assert p in Stray(cfg, heap) && p !in before - fields;
      }
    }
  }

  /** How many URLs are accepted before the first one that is refused. */
  function Accepted(urls: seq<CString>): (n: nat)
    ensures n <= |urls| && forall k :: 0 <= k < n ==> ParseUrl(urls[k]).Some?
    ensures n < |urls| ==> ParseUrl(urls[n]).None?
  {
    if urls == [] || ParseUrl(urls[0]).None? then 0 else 1 + Accepted(urls[1..])
  }

  /** The --proxy options of a command line, one after the other until one is refused.
      No block is lost exactly when none was accepted, or only one was and it found the
      fields null. */
  method ParseProxies(cfg: SocksConfig, heap: Allocator, urls: seq<CString>) returns (rc: int)
    requires cfg.Fields() <= heap.live
    modifies cfg, heap
    ensures rc == if Accepted(urls) == |urls| then 0 else 1
    ensures cfg.Fields() <= heap.live && old(Stray(cfg, heap)) <= Stray(cfg, heap)
    ensures Stray(cfg, heap) == old(Stray(cfg, heap))
            <==> Accepted(urls) == 0 || (Accepted(urls) == 1 && old(cfg.Fields() == {}))
  {
    ghost var stray, fields := Stray(cfg, heap), cfg.Fields();
    for i := 0 to |urls|
      invariant i <= Accepted(urls)
      invariant cfg.Fields() <= heap.live && stray <= Stray(cfg, heap)
      invariant i == 0 ==> Stray(cfg, heap) == stray && cfg.Fields() == fields
      invariant i > 0 ==> cfg.Fields() != {} && cfg.Fields() !! stray
      invariant i == 1 ==> Stray(cfg, heap) == stray + fields
      invariant i > 1 ==> Stray(cfg, heap) != stray
    {
      ghost var held := cfg.Fields();
      rc := Replace(cfg, heap, urls[i]);
      if rc != 0 {
        assert Accepted(urls) == i;
        assert i == 1 && fields != {} ==> Stray(cfg, heap) != stray by {
          if i == 1 && fields != {} {
            var p :| p in fields;
            assert p in Stray(cfg, heap) && p !in stray;
          }
        }
        return;
      }
      assert held <= Stray(cfg, heap);
    }
    assert Accepted(urls) == |urls|;
    assert |urls| == 1 && fields != {} ==> Stray(cfg, heap) != stray by {
      if |urls| == 1 && fields != {} {
        var p :| p in fields;
        assert p in Stray(cfg, heap) && p !in stray;
      }
    }
    rc := 0;
  }
}
