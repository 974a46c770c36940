/**
 * The exclusion matcher: useProxy and hasPort in http/httpproxy/proxy.go.
 * Given a canonical "host:port" address and the NO_PROXY string it decides
 * whether a request to that address may go through a proxy.
 */
module NoProxyMatcher {
  import opened ProxyTypes
  import opened GoStrings
  import opened Address

  /** hasPort: the last ':' comes after the last ']', so "host:80" and
      "[::1]:80" have a port and "host" and "[::1]" do not. */
  predicate HasPort(s: string) {
    LastIndex(s, ':') > LastIndex(s, ']')
  }

  /** hasPort holds exactly when some ':' has no ']' after it. */
  lemma HasPortMeans(s: string)
    ensures HasPort(s) <==>
      exists i | 0 <= i < |s| :: s[i] == ':' && forall j | i < j < |s| :: s[j] != ']'
  {
    LastIndexIsLast(s, ':');
    LastIndexIsLast(s, ']');
    if HasPort(s) {
      var i := LastIndex(s, ':');
      assert s[i] == ':' && forall j | i < j < |s| :: s[j] != ']';
    }
  }

  /** Cuts s at its last ':' when it has a port. */
  function StripPort(s: string): (r: string)
    ensures HasPort(s) ==> 0 <= LastIndex(s, ':') && r == s[..LastIndex(s, ':')]
    ensures !HasPort(s) ==> r == s
  {
    if HasPort(s) then s[..LastIndex(s, ':')] else s
  }

  /** What the cut leaves: a name with a port is the stripped name, a ':'
      and a port holding no ':'; a name without a port is kept whole. */
  lemma StripPortSplits(s: string)
    ensures HasPort(s) ==>
      exists port | ':' !in port :: s == StripPort(s) + ":" + port
    ensures !HasPort(s) ==> StripPort(s) == s
  {
    if HasPort(s) {
      LastIndexIsLast(s, ':');
      var i := LastIndex(s, ':');
      var port := s[i + 1..];
      assert ':' !in port by {
        assert forall j | 0 <= j < |port| :: port[j] == s[i + 1 + j];
      }
      assert s == s[..i] + ":" + port;
    }
  }

  /** Lower-cased and trimmed, as every address and pattern is before comparison. */
  function Normalize(s: string): string {
    ToLower(TrimSpace(s))
  }

  /** The host the address is compared as: normalized, port removed. */
  function HostOnly(addr: string): string {
    StripPort(Normalize(addr))
  }

  /** The host part of one NO_PROXY entry. */
  function PatternHost(entry: string): string {
    StripPort(Normalize(entry))
  }

  /**
   * Whether one NO_PROXY entry excludes host. An entry that is blank after
   * trimming is skipped. Otherwise, with p its host part:
   *  - p equal to host matches (also when p is empty, as for ":1");
   *  - an empty p matches nothing else;
   *  - a p with a leading '.' matches every host ending in p, and the host
   *    equal to p without its dot;
   *  - any other p matches every host ending in "." + p.
   */
  predicate MatchesPattern(host: string, entry: string)
  {
    var p := PatternHost(entry);
    && |Normalize(entry)| > 0
    && (|| host == p
        || (|p| > 0 && p[0] == '.' && (HasSuffix(host, p) || host == p[1..]))
        || (|p| > 0 && p[0] != '.' && HasSuffix(host, "." + p)))
  }

  /** A pattern's name without its leading '.', if it has one. */
  function Dotless(p: string): string {
    if |p| > 0 && p[0] == '.' then p[1..] else p
  }

  /** Every host an entry excludes ends in the entry's name, without its
      leading dot. */
  lemma MatchEndsWithName(host: string, entry: string)
    requires MatchesPattern(host, entry)
    ensures HasSuffix(host, Dotless(PatternHost(entry)))
  {
    var p := PatternHost(entry);
    if |p| > 0 && p[0] == '.' && host != p[1..] {
      assert HasSuffix(host, p);
      assert host[|host| - |p| + 1..] == p[1..];
    } else if |p| > 0 && p[0] != '.' && host != p {
      assert HasSuffix(host, "." + p);
      assert host[|host| - |p|..] == ("." + p)[1..];
    }
  }

  /** Some entry of the list excludes host. */
  predicate AnyEntryMatches(host: string, entries: seq<string>) {
    exists k | 0 <= k < |entries| :: MatchesPattern(host, entries[k])
  }

  /** Some entry of the comma-separated NO_PROXY string excludes host. */
  predicate Excluded(host: string, noProxy: string) {
    AnyEntryMatches(host, Split(noProxy, ','))
  }

  /** The host parses as a loopback IP address. */
  predicate IsLoopbackIP(lib: Library, host: string) {
    lib.parseIP(host).Some? && lib.isLoopback(lib.parseIP(host).value)
  }

  /**
   * What useProxy computes. An empty address may be proxied. An address that
   * does not split into host and port, the host "localhost" and loopback IPs
   * are never proxied, and "*" proxies nothing; otherwise the address may be
   * proxied unless an entry of NO_PROXY excludes its host.
   */
  function ProxyAllowed(cfg: Config, lib: Library, addr: string): (allowed: bool)
    ensures allowed && |addr| > 0 ==> lib.splitHostPort(addr).Success? && cfg.noProxy != "*"
    ensures allowed && |addr| > 0 ==> lib.splitHostPort(addr).value.host != "localhost"
  {
    if |addr| == 0 then true
    else match lib.splitHostPort(addr)
      case Failure(_) => false
      case Success(hp) =>
        if hp.host == "localhost" || IsLoopbackIP(lib, hp.host) then false
        else if cfg.noProxy == "*" then false
        else !Excluded(HostOnly(addr), cfg.noProxy)
  }

  /** A suffix that is not the whole string leaves at least one byte before it. */
  lemma ProperSuffix(addr: string, p: string)
    requires HasSuffix(addr, p) && addr != p
    ensures |addr| > |p|
  {
  }

  /**
   * The Go code's test for an entry, once the blank entry, the equal host and
   * the empty host part are out of the way: a leading-dot pattern by suffix or
   * by equality without the dot, any other pattern by suffix with a '.' at
   * addr[len(addr)-len(p)-1]. It decides exactly MatchesPattern.
   */
  lemma EntryTest(addr: string, entry: string, p: string)
    requires |Normalize(entry)| > 0 && p == PatternHost(entry)
    requires |p| > 0 && addr != p
    ensures MatchesPattern(addr, entry) <==>
      || (p[0] == '.' && (HasSuffix(addr, p) || addr == p[1..]))
      || (p[0] != '.' && HasSuffix(addr, p) && |addr| > |p| && addr[|addr| - |p| - 1] == '.')
  {
    if HasSuffix(addr, "." + p) {
      assert addr[|addr| - |p|..] == addr[|addr| - |p| - 1..][1..];
      assert addr[|addr| - |p| - 1] == addr[|addr| - |p| - 1..][0];
    }
    if HasSuffix(addr, p) {
      ProperSuffix(addr, p);
      if addr[|addr| - |p| - 1] == '.' {
        assert addr[|addr| - |p| - 1..] == [addr[|addr| - |p| - 1]] + addr[|addr| - |p|..];
      }
    }
  }

  /**
   * The body of useProxy's loop for one NO_PROXY entry (lines 141-162), with
   * `continue` written as "not excluded" and `return false` as "excluded".
   * The index a[len(a)-len(p)-1] is read only after the suffix test and the
   * equality test, which together keep it in range.
   */
  method EntryExcludes(a: string, entry: string) returns (excluded: bool)
    ensures excluded == MatchesPattern(a, entry)
  {
    var p := ToLower(TrimSpace(entry));
    if |p| == 0 {
      return false;
    }
    if HasPort(p) {
      p := p[..LastIndex(p, ':')];
    }
    assert p == PatternHost(entry);
    if a == p {
      return true;
    }
    if |p| == 0 {
      return false;
    }
    EntryTest(a, entry, p);
    if p[0] == '.' && (HasSuffix(a, p) || a == p[1..]) {
      return true;
    }
    if p[0] != '.' && HasSuffix(a, p) {
      ProperSuffix(a, p);
    }
    if p[0] != '.' && HasSuffix(a, p) && a[|a| - |p| - 1] == '.' {
      return true;
    }
    return false;
  }

  /**
   * The loop of useProxy (lines 140-164): the entries of NO_PROXY are tried
   * in order, and the first that excludes the host a ends the scan.
   */
  method ScanNoProxy(a: string, noProxy: string) returns (allowed: bool)
    ensures allowed == !Excluded(a, noProxy)
  {
    var entries := Split(noProxy, ',');
    for i := 0 to |entries|
      invariant !AnyEntryMatches(a, entries[..i])
    {
      var excluded := EntryExcludes(a, entries[i]);
      if excluded {
        assert entries[i] == entries[..i+1][i];
        return false;
      }
      assert entries[..i+1] == entries[..i] + [entries[i]];
      AnyEntryMatchesConcat(a, entries[..i], [entries[i]]);
    }
    assert entries[..|entries|] == entries;
    return true;
  }

  /**
   * useProxy, statement by statement: early returns for the empty address,
   * a failed split, localhost, a loopback IP and "*"; then the address is
   * lower-cased, trimmed and cut at its port, and NO_PROXY is scanned.
   */
  method UseProxy(cfg: Config, lib: Library, addr: string) returns (allowed: bool)
    ensures allowed == ProxyAllowed(cfg, lib, addr)
  {
    if |addr| == 0 {
      return true;
    }
    var split := lib.splitHostPort(addr);
    if split.Failure? {
      return false;
    }
    var host := split.value.host;
    if host == "localhost" {
      return false;
    }
    var ip := lib.parseIP(host);
    if ip.Some? && lib.isLoopback(ip.value) {
      return false;
    }
    var noProxy := cfg.noProxy;
    if noProxy == "*" {
      return false;
    }
    var a := ToLower(TrimSpace(addr));
    if HasPort(a) {
      a := a[..LastIndex(a, ':')];
    }
    assert a == HostOnly(addr);
    allowed := ScanNoProxy(a, noProxy);
  }

  // ---------------------------------------------------------------------
  // Properties of the matcher

  /** A name ending in ']' (a bracketed IPv6 literal) has no port, while a
      ':' after the last ']' is a port separator. */
  lemma BracketedHasNoPort(s: string)
    requires |s| > 0 && s[|s| - 1] == ']'
    ensures !HasPort(s)
    ensures HasPort(s + ":80")
  {
    LastIndexUnique(s + ":80", ':', |s|);
    assert (s + ":80")[|s| - 1] == ']';
  }

  /** Cutting "host:port" at its port gives the host back, whenever the port
      holds no ':' and no ']'. */
  lemma StripPortJoined(host: string, port: string)
    requires ':' !in port && ']' !in port
    ensures StripPort(host + ":" + port) == host
  {
    var s := host + ":" + port;
    assert forall j | |host| < j < |s| :: s[j] == port[j - |host| - 1];
    LastIndexUnique(s, ':', |host|);
    assert s[..|host|] == host;
  }

  /** Normalizing "host:port" lower-cases both parts, when neither holds
      white space. */
  lemma NormalizeJoined(host: string, port: string)
    requires NoSpace(host) && NoSpace(port)
    ensures Normalize(host + ":" + port) == ToLower(host) + ":" + ToLower(port)
  {
    TrimJoined(host, port);
    ToLowerAppend(host, ":" + port);
    ToLowerAppend(":", port);
    assert ToLower(":") == ":";
  }

  /** "host:port" has no white space to trim when neither part holds any. */
  lemma TrimJoined(host: string, port: string)
    requires NoSpace(host) && NoSpace(port)
    ensures TrimSpace(host + ":" + port) == host + ":" + port
  {
    var s := host + ":" + port;
    assert s[0] == if |host| > 0 then host[0] else ':';
    assert s[|s| - 1] == if |port| > 0 then port[|port| - 1] else ':';
  }

  /** Lower-casing leaves ':' and ']' where they were. */
  lemma ToLowerKeepsDelimiters(s: string)
    requires ':' !in s && ']' !in s
    ensures ':' !in ToLower(s) && ']' !in ToLower(s)
  {
  }

  /** The host the matcher compares is the lower-cased host of "host:port",
      when neither part holds white space and the port holds no ':' or ']'. */
  lemma HostOnlyJoined(host: string, port: string)
    requires NoSpace(host) && NoSpace(port)
    requires ':' !in port && ']' !in port
    ensures HostOnly(host + ":" + port) == ToLower(host)
  {
    NormalizeJoined(host, port);
    ToLowerKeepsDelimiters(port);
    StripPortJoined(ToLower(host), ToLower(port));
  }

  /** A request to a non-empty address that does not split, or whose host
      is "localhost" or a loopback IP, is never proxied, whatever NO_PROXY
      holds. */
  lemma LoopbackNeverProxied(cfg: Config, lib: Library, addr: string)
    requires |addr| > 0
    requires || lib.splitHostPort(addr).Failure?
             || lib.splitHostPort(addr).value.host == "localhost"
             || IsLoopbackIP(lib, lib.splitHostPort(addr).value.host)
    ensures !ProxyAllowed(cfg, lib, addr)
  {
  }

  /** For "host:port" past the early returns (it splits, names neither
      localhost nor a loopback IP, and NO_PROXY is not "*"), useProxy's
      answer is whether NO_PROXY leaves the lower-cased host alone. */
  lemma ProxyAllowedJoined(cfg: Config, lib: Library, host: string, port: string)
    requires lib.splitHostPort(host + ":" + port).Success?
    requires lib.splitHostPort(host + ":" + port).value.host != "localhost"
    requires !IsLoopbackIP(lib, lib.splitHostPort(host + ":" + port).value.host)
    requires cfg.noProxy != "*"
    requires NoSpace(host) && NoSpace(port) && ':' !in port && ']' !in port
    ensures ProxyAllowed(cfg, lib, host + ":" + port) == !Excluded(ToLower(host), cfg.noProxy)
  {
    HostOnlyJoined(host, port);
  }

  /** NO_PROXY = "*" proxies nothing that splits into host and port. */
  lemma WildcardNeverProxies(cfg: Config, lib: Library, addr: string)
    requires |addr| > 0 && cfg.noProxy == "*" && lib.splitHostPort(addr).Success?
    ensures !ProxyAllowed(cfg, lib, addr)
  {
  }

  /** A plain entry never excludes a host that merely ends in it: the byte
      before the suffix must be a '.'. */
  lemma PlainPatternNeedsDot(host: string, entry: string)
    requires |Normalize(entry)| > 0
    requires var p := PatternHost(entry); |p| > 0 && p[0] != '.'
    requires HasSuffix(host, PatternHost(entry)) && host != PatternHost(entry)
    ensures |host| > |PatternHost(entry)|
    ensures MatchesPattern(host, entry) <==> host[|host| - |PatternHost(entry)| - 1] == '.'
  {
    var p := PatternHost(entry);
    ProperSuffix(host, p);
    EntryTest(host, entry, p);
  }

  /** A concatenation of lists matches exactly when one of them does. */
  lemma AnyEntryMatchesConcat(host: string, ea: seq<string>, eb: seq<string>)
    ensures AnyEntryMatches(host, ea + eb) <==> AnyEntryMatches(host, ea) || AnyEntryMatches(host, eb)
  {
    var e := ea + eb;
    if AnyEntryMatches(host, e) {
      var k :| 0 <= k < |e| && MatchesPattern(host, e[k]);
      if k < |ea| {
        assert e[k] == ea[k];
      } else {
        assert e[k] == eb[k - |ea|];
      }
    }
    if AnyEntryMatches(host, ea) {
      var k :| 0 <= k < |ea| && MatchesPattern(host, ea[k]);
      assert e[k] == ea[k];
    }
    if AnyEntryMatches(host, eb) {
      var k :| 0 <= k < |eb| && MatchesPattern(host, eb[k]);
      assert e[|ea| + k] == eb[k];
    }
  }

  /** The list matches exactly when one of its two halves does. */
  lemma {:induction false} ExcludedAppend(host: string, a: string, b: string)
    ensures Excluded(host, a + "," + b) <==> Excluded(host, a) || Excluded(host, b)
  {
    assert a + "," + b == a + [','] + b;
    SplitConcat(a, b, ',');
    AnyEntryMatchesConcat(host, Split(a, ','), Split(b, ','));
  }

  /** Appending entries to NO_PROXY can only take addresses away from the
      proxy, unless the list was the wildcard "*" (which, followed by more
      entries, is an ordinary entry). */
  lemma AppendingEntriesNarrows(cfg: Config, lib: Library, addr: string, more: string)
    requires cfg.noProxy != "*"
    ensures ProxyAllowed(cfg.(noProxy := cfg.noProxy + "," + more), lib, addr) ==>
      ProxyAllowed(cfg, lib, addr)
  {
    ExcludedAppend(HostOnly(addr), cfg.noProxy, more);
  }

  /** The order of the entries does not matter. */
  lemma EntryOrderIrrelevant(cfg: Config, lib: Library, addr: string, a: string, b: string)
    ensures ProxyAllowed(cfg.(noProxy := a + "," + b), lib, addr) ==
            ProxyAllowed(cfg.(noProxy := b + "," + a), lib, addr)
  {
    ExcludedAppend(HostOnly(addr), a, b);
    ExcludedAppend(HostOnly(addr), b, a);
  }

  /** canonicalAddr and the matcher agree on the host: cutting the port off
      the canonical address gives back the request's (ASCII) hostname,
      lower-cased, when net.JoinHostPort writes "host:port" for it. */
  lemma CanonicalAddrKeepsHost(lib: Library, u: URL)
    requires AllASCII(u.hostname) && NoSpace(u.hostname)
    requires NoSpace(u.port) && ':' !in u.port && ']' !in u.port
    requires lib.joinHostPort(u.hostname, RequestPort(u)) == u.hostname + ":" + RequestPort(u)
    ensures HostOnly(CanonicalAddr(lib, u)) == ToLower(u.hostname)
  {
    var port := RequestPort(u);
    assert NoSpace(port) && ':' !in port && ']' !in port by {
      if u.port == "" {
        assert port in {"80", "443", "1080", ""};
      }
    }
    HostOnlyJoined(u.hostname, port);
  }

  /** An entry without white space, upper case or ':' is its own host part. */
  lemma BareEntry(e: string)
    requires |e| > 0 && NoSpace(e) && NoUpper(e) && ':' !in e
    ensures Normalize(e) == e && PatternHost(e) == e
  {
    ToLowerNoUpper(e);
    LastIndexIsLast(e, ':');
  }

  /** An entry without white space, upper case or ':' is matched on its own
      text: a plain one by the equal host and by its subdomains, a dotted
      one by the hosts ending in it and by the name without the dot. */
  lemma BarePattern(host: string, p: string)
    requires |p| > 0 && NoSpace(p) && NoUpper(p) && ':' !in p
    ensures p[0] != '.' ==> (MatchesPattern(host, p) <==> host == p || HasSuffix(host, "." + p))
    ensures p[0] == '.' ==> (MatchesPattern(host, p) <==> HasSuffix(host, p) || host == p[1..])
  {
    BareEntry(p);
  }

  /** A list of one entry excludes what that entry matches. */
  lemma OneEntry(host: string, entries: seq<string>)
    requires |entries| == 1
    ensures AnyEntryMatches(host, entries) <==> MatchesPattern(host, entries[0])
  {
    if MatchesPattern(host, entries[0]) {
      assert 0 <= 0 < |entries|;
    }
  }

  /** A NO_PROXY value without ',' is a single entry. */
  lemma SingleEntry(host: string, e: string)
    requires ',' !in e
    ensures Excluded(host, e) <==> MatchesPattern(host, e)
  {
    SplitNoSeparator(e, ',');
    OneEntry(host, Split(e, ','));
  }

  /** White space before an entry does not change what it matches. */
  lemma LeadingSpace(host: string, c: char, s: string)
    requires IsSpace(c)
    ensures MatchesPattern(host, [c] + s) <==> MatchesPattern(host, s)
  {
  }

  /** A single entry after white space, as in "a, b". */
  lemma SpacedEntry(host: string, c: char, s: string)
    requires IsSpace(c) && ',' !in s
    ensures Excluded(host, [c] + s) <==> MatchesPattern(host, s)
  {
    SingleEntry(host, [c] + s);
    LeadingSpace(host, c, s);
  }

  /** "a, b": a list of two entries, the second after white space. */
  lemma SpacedPair(host: string, a: string, c: char, b: string)
    requires ',' !in a && ',' !in b && IsSpace(c)
    ensures Excluded(host, a + "," + ([c] + b)) <==> MatchesPattern(host, a) || MatchesPattern(host, b)
  {
    SingleEntry(host, a);
    SpacedEntry(host, c, b);
    ExcludedAppend(host, a, [c] + b);
  }

  /** The NO_PROXY list of the package's matcher test. */
  const TestNoProxy := "foobar.com, .barbaz.net"

  /** The test list excludes what "foobar.com" or ".barbaz.net" matches. */
  lemma TestListEntries(host: string)
    ensures Excluded(host, TestNoProxy) <==>
      MatchesPattern(host, "foobar.com") || MatchesPattern(host, ".barbaz.net")
  {
    assert TestNoProxy == "foobar.com" + "," + ([' '] + ".barbaz.net");
    SpacedPair(host, "foobar.com", ' ', ".barbaz.net");
  }

  /** The first test entry matches "foobar.com" and its subdomains. */
  lemma TestPlainPattern(host: string)
    ensures MatchesPattern(host, "foobar.com") <==> host == "foobar.com" || HasSuffix(host, ".foobar.com")
  {
    assert "." + "foobar.com" == ".foobar.com";
    BarePattern(host, "foobar.com");
  }

  /** The second test entry matches "barbaz.net" and its subdomains. */
  lemma TestDottedPattern(host: string)
    ensures MatchesPattern(host, ".barbaz.net") <==> HasSuffix(host, ".barbaz.net") || host == "barbaz.net"
  {
    assert ".barbaz.net"[1..] == "barbaz.net";
    BarePattern(host, ".barbaz.net");
  }

  /** What the test list excludes. */
  lemma TestPatterns(host: string)
    ensures Excluded(host, TestNoProxy) <==>
      || host == "foobar.com" || HasSuffix(host, ".foobar.com")
      || host == "barbaz.net" || HasSuffix(host, ".barbaz.net")
  {
    TestListEntries(host);
    TestPlainPattern(host);
    TestDottedPattern(host);
  }

  /** The rows of the package's matcher test that go direct; ".barbaz.net"
      excludes "barbaz.net" itself, despite the doc comment on Config. */
  lemma TestExcludedRows()
    ensures Excluded("barbaz.net", TestNoProxy)
    ensures Excluded("foobar.com", TestNoProxy)
    ensures Excluded("www.foobar.com", TestNoProxy)
  {
    assert "www.foobar.com"[3..] == ".foobar.com";
    TestPatterns("barbaz.net");
    TestPatterns("foobar.com");
    TestPatterns("www.foobar.com");
  }

  /** The rows of the package's matcher test that use the proxy: a host that
      merely ends in a pattern, without a '.' before it, is not excluded. */
  lemma TestProxiedRows()
    ensures !Excluded("foofoobar.com", TestNoProxy)
    ensures !Excluded("baz.com", TestNoProxy)
    ensures !Excluded("localhost.net", TestNoProxy)
    ensures !Excluded("local.localhost", TestNoProxy)
    ensures !Excluded("barbarbaz.net", TestNoProxy)
  {
    assert "foofoobar.com"[2..][0] != '.';
    assert "localhost.net"[2..][0] != '.';
    assert "local.localhost"[4..][0] != '.';
    assert "barbarbaz.net"[2..][0] != '.';
    TestPatterns("foofoobar.com");
    TestPatterns("baz.com");
    TestPatterns("localhost.net");
    TestPatterns("local.localhost");
    TestPatterns("barbarbaz.net");
  }

  /** The package's test library behaviour for a row: "host:80" splits into
      the host and "80", and the host is not an IP address. */
  predicate SplitsAsName(lib: Library, host: string) {
    lib.splitHostPort(host + ":80") == Success(HostPort(host, "80")) && lib.parseIP(host) == None
  }

  /** One row of the package's useProxy test: useProxy(host + ":80") under
      the test's NO_PROXY is decided by the test list alone. */
  lemma TestUseProxyRow(cfg: Config, lib: Library, host: string)
    requires cfg.noProxy == TestNoProxy && SplitsAsName(lib, host)
    requires host != "localhost" && NoSpace(host) && NoUpper(host)
    ensures ProxyAllowed(cfg, lib, host + ":80") == !Excluded(host, TestNoProxy)
  {
    assert NoSpace("80") && ':' !in "80" && ']' !in "80";
    assert host + ":" + "80" == host + ":80";
    ProxyAllowedJoined(cfg, lib, host, "80");
    ToLowerNoUpper(host);
  }

  /** The hosts of the useProxy test rows that go direct. */
  predicate DirectTestHost(host: string) {
    host == "barbaz.net" || host == "foobar.com" || host == "www.foobar.com"
  }

  /** The hosts of the useProxy test rows that use the proxy. */
  predicate ProxiedTestHost(host: string) {
    || host == "foofoobar.com" || host == "baz.com" || host == "localhost.net"
    || host == "local.localhost" || host == "barbarbaz.net"
  }

  /** The direct hosts are lower-case names without white space. */
  lemma DirectTestHostPlain(host: string)
    requires DirectTestHost(host)
    ensures host != "localhost" && NoSpace(host) && NoUpper(host)
  {}

  /** The proxied hosts are lower-case names without white space. */
  lemma ProxiedTestHostPlain(host: string)
    requires ProxiedTestHost(host)
    ensures host != "localhost" && NoSpace(host) && NoUpper(host)
  {}

  /** The test list excludes every direct host. */
  lemma DirectTestHostExcluded(host: string)
    requires DirectTestHost(host)
    ensures Excluded(host, TestNoProxy)
  {
    TestExcludedRows();
  }

  /** The test list excludes no proxied host. */
  lemma ProxiedTestHostKept(host: string)
    requires ProxiedTestHost(host)
    ensures !Excluded(host, TestNoProxy)
  {
    TestProxiedRows();
  }

  /** The rows of the package's useProxy test that go direct. */
  lemma TestUseProxyDirect(cfg: Config, lib: Library, host: string)
    requires cfg.noProxy == TestNoProxy && SplitsAsName(lib, host) && DirectTestHost(host)
    ensures !ProxyAllowed(cfg, lib, host + ":80")
  {
    DirectTestHostPlain(host);
    DirectTestHostExcluded(host);
    TestUseProxyRow(cfg, lib, host);
  }

  /** The rows of the package's useProxy test that use the proxy. */
  lemma TestUseProxyProxied(cfg: Config, lib: Library, host: string)
    requires cfg.noProxy == TestNoProxy && SplitsAsName(lib, host) && ProxiedTestHost(host)
    ensures ProxyAllowed(cfg, lib, host + ":80")
  {
    ProxiedTestHostPlain(host);
    ProxiedTestHostKept(host);
    TestUseProxyRow(cfg, lib, host);
  }

  /** An entry whose host part is empty, such as ":1", matches only the
      empty host. */
  lemma EmptyHostPart(host: string, entry: string)
    requires |Normalize(entry)| > 0 && PatternHost(entry) == ""
    ensures MatchesPattern(host, entry) <==> host == ""
  {
  }

  /** An entry that is only a port, such as ":1", is non-blank and has an
      empty host part. */
  lemma PortOnlyHostPart(port: string)
    requires NoSpace(port) && ':' !in port && ']' !in port
    ensures |Normalize(":" + port)| > 0 && PatternHost(":" + port) == ""
  {
    assert "" + ":" + port == ":" + port;
    NormalizeJoined("", port);
    StripPortJoined("", ToLower(port));
    ToLowerKeepsDelimiters(port);
  }

  /** NO_PROXY made of one port-only entry, as ":1" in the package's
      malformed-entry test, excludes the empty host and no other. */
  lemma PortOnlyEntry(host: string, port: string)
    requires NoSpace(port) && ':' !in port && ']' !in port && ',' !in port
    ensures Excluded(host, ":" + port) <==> host == ""
  {
    PortOnlyHostPart(port);
    EmptyHostPart(host, ":" + port);
    assert ',' !in ":" + port;
    SingleEntry(host, ":" + port);
  }

  /** Under a port-only NO_PROXY such as ":1", every "host:port" with a
      non-empty host that passes the early returns of useProxy may be
      proxied, "example.com:80" among them. */
  lemma PortOnlyNoProxyProxies(cfg: Config, lib: Library, host: string, port: string, entryPort: string)
    requires cfg.noProxy == ":" + entryPort
    requires NoSpace(entryPort) && ':' !in entryPort && ']' !in entryPort && ',' !in entryPort
    requires host != "" && NoSpace(host) && NoSpace(port) && ':' !in port && ']' !in port
    requires lib.splitHostPort(host + ":" + port).Success?
    requires lib.splitHostPort(host + ":" + port).value.host != "localhost"
    requires !IsLoopbackIP(lib, lib.splitHostPort(host + ":" + port).value.host)
    ensures ProxyAllowed(cfg, lib, host + ":" + port)
  {
    assert cfg.noProxy[0] == ':';
    ProxyAllowedJoined(cfg, lib, host, port);
    PortOnlyEntry(ToLower(host), entryPort);
  }
}
