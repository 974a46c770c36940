# httpproxy proxy selection, in Dafny

This project models the proxy-selection core of Go's
`golang.org/x/net/http/httpproxy` package (`http/httpproxy/proxy.go`) and
proves properties of that model.

- **Configuration.** A `Config` holds the HTTP proxy, the HTTPS proxy and the
  NO_PROXY list. `FromEnvironment` builds one from the upper-case environment
  variables and falls back to the lower-case ones, through `getEnvAny`.
- **`ProxyForURL` picks a proxy for one request URL:**
  - it chooses the HTTPS proxy for an `https` request when that proxy is set,
    and the HTTP proxy otherwise;
  - it computes the request's canonical `host:port` address (`canonicalAddr`:
    the IDNA ASCII host, and a default port 80, 443 or 1080 by scheme);
  - it asks `useProxy` whether that address may use a proxy. Loopback hosts
    never may, `NO_PROXY=*` forbids every address, and each comma-separated
    entry can exclude a host: a plain entry excludes the host and its
    subdomains, and an entry with a leading dot excludes every host ending in
    it and the name without the dot;
  - it parses the proxy string as a URL. A proxy string that is not a URL of
    scheme `http`, `https` or `socks5` is retried with `http://` in front.

Modules:

| file | module | models |
|---|---|---|
| `proxy_types.dfy` | `ProxyTypes` | `Config`, the request/proxy URL, the outcome of a resolution, and the library routines the package calls |
| `go_strings.dfy` | `GoStrings` | the parts of Go's `strings` package used: `ToLower`, `TrimSpace`, `HasSuffix`, `LastIndex`, `Split` |
| `address.dfy` | `Address` | `isASCII`, `idnaASCII`, `portMap`, `canonicalAddr` |
| `no_proxy.dfy` | `NoProxyMatcher` | `hasPort`, `useProxy` |
| `proxy.dfy` | `HttpProxy` | `ProxyForURL` |
| `environment.dfy` | `Environment` | `getEnvAny`, `FromEnvironment` |

Functions and methods:
- **Functions** model the straight-line Go functions.
- **`useProxy`, `isASCII` and `getEnvAny` are loops**, so they are methods with
  loop invariants, each proved equal to a specification:
  - `UseProxy` is proved against the function `ProxyAllowed`, whose decision
    on each NO_PROXY entry is the predicate `MatchesPattern`;
  - `IsASCII` against `AllASCII`;
  - `GetEnvAny` against `FirstSet`.
- **`ProxyForURL` is a method** because it calls `UseProxy`. Its contract is
  stated through `ProxyAllowed`.

Go's `(*url.URL, error)` result is the datatype `Decision`:
- `Direct` is `(nil, nil)`;
- `Via(u)` is `(u, nil)`;
- `Fail(e)` is `(nil, e)`.

The library routines are fields of a `Library` value passed in: `url.Parse`,
`net.SplitHostPort`, `net.ParseIP`, `IP.IsLoopback`, `net.JoinHostPort` and
`idna.Lookup.ToASCII`. Every property holds whatever those routines compute.

Where the comments and the code disagree, the model follows the code:
- **Leading-dot entries.** The doc comment on `Config.NoProxy`
  (proxy.go:28-35) says `.y.com` does not match `y.com`. The code at
  proxy.go:155 matches it, as `MatchesPattern`, `TestExcludedRows` and `TestUseProxyDirect` show.
- **Foreign scheme with a failed repair.** Suppose the proxy string parses,
  but with a scheme other than http, https or socks5, and its `http://`
  repair fails. The `:=` at proxy.go:100 shadows `err`, so the code reaches
  proxy.go:107 with a nil error and returns the first URL. The comment says
  "complain about the original one", and the doc comment on
  `FromEnvironment` (proxy.go:44-46) promises an error for a value of
  another form. `ParseProxy` returns `Via` of the first URL, as the code does.

## Model

| member | source | states |
|---|---|---|
| `Address.IsASCII` | http/httpproxy/proxy.go:206-213 | the loop returns true exactly when every byte is below utf8.RuneSelf (0x80) |
| `Address.IdnaASCII` | http/httpproxy/proxy.go:190-204 | an all-ASCII name comes back unchanged with no error, without IDNA; any other name gets exactly ToASCII's result |
| `Address.DefaultPort` | http/httpproxy/proxy.go:167-171 | the default port is 80 for http, 443 for https, 1080 for socks5, and empty for any other scheme |
| `Address.CanonicalHost` | http/httpproxy/proxy.go:175-178 | the host is kept when it is ASCII or when the IDNA conversion fails; otherwise it is the converted name |
| `Address.RequestPort` | http/httpproxy/proxy.go:179-182 | the URL's own port is kept; a missing port becomes the scheme's default |
| `Address.CanonicalAddr` | http/httpproxy/proxy.go:174-184 | the address is JoinHostPort of the (possibly IDNA-converted) host and the port, in each of the three cases ASCII / conversion failed / converted |
| `NoProxyMatcher.HasPortMeans` | http/httpproxy/proxy.go:188 | a name has a port exactly when some ':' in it has no ']' after it |
| `NoProxyMatcher.StripPort` | http/httpproxy/proxy.go:136-147 | a name with a port is cut just before its last ':'; a name without one is kept whole |
| `NoProxyMatcher.StripPortSplits` | http/httpproxy/proxy.go:136-138 | a name with a port is the cut name, a ':' and a port holding no ':' |
| `NoProxyMatcher.BracketedHasNoPort` | http/httpproxy/proxy.go:188 | a name ending in ']' (such as "[::1]") has no port, and the same name followed by ":80" has one |
| `NoProxyMatcher.StripPortJoined` | http/httpproxy/proxy.go:136-138 | cutting "host:port" at its port gives the host back, when the port holds no ':' or ']' |
| `NoProxyMatcher.NormalizeJoined` | http/httpproxy/proxy.go:135 | trimming and lower-casing "host:port" lower-cases each part, when neither holds white space |
| `NoProxyMatcher.TrimJoined` | http/httpproxy/proxy.go:135 | trimming leaves "host:port" as it is when neither part holds white space |
| `NoProxyMatcher.ToLowerKeepsDelimiters` | http/httpproxy/proxy.go:135 | lower-casing leaves no ':' or ']' where there was none |
| `NoProxyMatcher.HostOnlyJoined` | http/httpproxy/proxy.go:135-138 | the host the matcher compares for "host:port" is the lower-cased host |
| `NoProxyMatcher.CanonicalAddrKeepsHost` | http/httpproxy/proxy.go:174-184 | for an ASCII hostname that JoinHostPort writes as "host:port", the matcher compares exactly the lower-cased request hostname |
| `NoProxyMatcher.ProperSuffix` | http/httpproxy/proxy.go:159 | once the equal host has returned, a host ending in p is longer than p, so addr[len(addr)-len(p)-1] is in range |
| `NoProxyMatcher.MatchEndsWithName` | http/httpproxy/proxy.go:148-162 | every host an entry excludes ends in the entry's host part, without its leading dot |
| `NoProxyMatcher.EntryTest` | http/httpproxy/proxy.go:155-162 | Go's two tests (leading dot: suffix or equal without the dot; plain: suffix with '.' at the index before it) decide exactly MatchesPattern |
| `NoProxyMatcher.PlainPatternNeedsDot` | http/httpproxy/proxy.go:159-162 | a plain entry excludes a host that ends in it but is not equal to it exactly when the byte before the suffix is '.' |
| `NoProxyMatcher.EntryExcludes` | http/httpproxy/proxy.go:141-162 | one pass of the loop body (trim, lower-case, blank skip, port cut, equality, empty-host skip, dot tests) returns "excluded" exactly when MatchesPattern holds |
| `NoProxyMatcher.ScanNoProxy` | http/httpproxy/proxy.go:140-164 | the scan over strings.Split(noProxy, ",") returns true exactly when no entry excludes the host |
| `NoProxyMatcher.ProxyAllowed` | http/httpproxy/proxy.go:113-165 | an address other than "" that may be proxied splits into host and port, its host is not "localhost", and NO_PROXY is not "*" |
| `NoProxyMatcher.UseProxy` | http/httpproxy/proxy.go:113-165 | useProxy returns exactly ProxyAllowed: true for the empty address; false on a split failure, for localhost, for a loopback IP and for "*"; otherwise true exactly when no NO_PROXY entry excludes the host |
| `NoProxyMatcher.ProxyAllowedJoined` | http/httpproxy/proxy.go:117-164 | for "host:port" that splits, is not localhost or a loopback IP, under a NO_PROXY other than "*": it may be proxied exactly when NO_PROXY does not exclude the lower-cased host |
| `NoProxyMatcher.LoopbackNeverProxied` | http/httpproxy/proxy.go:117-128 | a non-empty address that does not split, or whose host is "localhost" or a loopback IP, is never proxied, whatever NO_PROXY holds (the empty address is proxied, proxy.go:114-116) |
| `NoProxyMatcher.WildcardNeverProxies` | http/httpproxy/proxy.go:130-133 | with NO_PROXY "*", no address that splits into host and port is proxied |
| `NoProxyMatcher.AnyEntryMatchesConcat` | http/httpproxy/proxy.go:140-164 | the scan over a concatenation of entry lists excludes a host exactly when one of the lists does |
| `NoProxyMatcher.ExcludedAppend` | http/httpproxy/proxy.go:140 | NO_PROXY "a,b" excludes a host exactly when "a" or "b" does |
| `NoProxyMatcher.AppendingEntriesNarrows` | http/httpproxy/proxy.go:130-164 | appending entries to a NO_PROXY other than "*" never lets an address through that was excluded before |
| `NoProxyMatcher.EntryOrderIrrelevant` | http/httpproxy/proxy.go:140-164 | swapping the two halves of NO_PROXY does not change any decision |
| `NoProxyMatcher.BareEntry` | http/httpproxy/proxy.go:141-147 | an entry without white space, upper case or ':' is its own host part |
| `NoProxyMatcher.BarePattern` | http/httpproxy/proxy.go:148-162 | such an entry without a leading dot excludes the equal host and the hosts ending in "." + entry; with a leading dot, the hosts ending in it and the name without the dot |
| `NoProxyMatcher.OneEntry` | http/httpproxy/proxy.go:140-164 | a one-entry list excludes exactly what its entry matches |
| `NoProxyMatcher.SingleEntry` | http/httpproxy/proxy.go:140 | a NO_PROXY value without ',' excludes exactly what it matches as one entry |
| `NoProxyMatcher.LeadingSpace` | http/httpproxy/proxy.go:141 | white space before an entry does not change what it matches |
| `NoProxyMatcher.SpacedEntry` | http/httpproxy/proxy.go:140-141 | a single entry after white space, as in the second half of "a, b", excludes what the bare entry matches |
| `NoProxyMatcher.SpacedPair` | http/httpproxy/proxy.go:140-141 | a list "a, b" of two entries, the second after white space, excludes exactly what a or b matches |
| `NoProxyMatcher.TestListEntries` | http/httpproxy/proxy_test.go:162-164 | the test's NO_PROXY "foobar.com, .barbaz.net" excludes what "foobar.com" or ".barbaz.net" matches |
| `NoProxyMatcher.TestPlainPattern` | http/httpproxy/proxy_test.go:152-158 | "foobar.com" matches "foobar.com" and the hosts ending in ".foobar.com", and nothing else |
| `NoProxyMatcher.TestDottedPattern` | http/httpproxy/proxy_test.go:151-157 | ".barbaz.net" matches "barbaz.net" and the hosts ending in ".barbaz.net", and nothing else |
| `NoProxyMatcher.TestPatterns` | http/httpproxy/proxy_test.go:151-164 | the test list excludes exactly foobar.com, barbaz.net and their subdomains |
| `NoProxyMatcher.TestExcludedRows` | http/httpproxy/proxy_test.go:151-158 | the test rows that go direct: barbaz.net, foobar.com, www.foobar.com |
| `NoProxyMatcher.TestProxiedRows` | http/httpproxy/proxy_test.go:153-157 | the test rows that use the proxy: foofoobar.com, baz.com, localhost.net, local.localhost, barbarbaz.net |
| `NoProxyMatcher.EmptyHostPart` | http/httpproxy/proxy.go:148-154 | an entry whose host part is empty (it is not blank) excludes exactly the empty host |
| `NoProxyMatcher.PortOnlyHostPart` | http/httpproxy/proxy.go:141-147 | an entry ":port" is not blank and its host part is empty, for any port without white space, ':' or ']' |
| `NoProxyMatcher.PortOnlyEntry` | http/httpproxy/proxy.go:140-154 | a NO_PROXY of the form ":port", such as ":1", excludes a host exactly when the host is empty |
| `NoProxyMatcher.PortOnlyNoProxyProxies` | http/httpproxy/proxy_test.go:172-177 | under such a NO_PROXY, useProxy lets through every "host:port" with a non-empty host that splits and is neither localhost nor a loopback IP, so "example.com:80" is proxied |
| `NoProxyMatcher.TestUseProxyRow` | http/httpproxy/proxy_test.go:161-170 | under the test's NO_PROXY, useProxy(host + ":80") for a lower-case name that splits as itself is decided by the test list alone |
| `NoProxyMatcher.TestUseProxyDirect` | http/httpproxy/proxy_test.go:151-158 | useProxy(host + ":80") is false for barbaz.net, foobar.com and www.foobar.com |
| `NoProxyMatcher.TestUseProxyProxied` | http/httpproxy/proxy_test.go:153-157 | useProxy(host + ":80") is true for foofoobar.com, baz.com, localhost.net, local.localhost and barbarbaz.net |
| `HttpProxy.SelectProxy` | http/httpproxy/proxy.go:79-85 | HTTPSProxy is chosen exactly for an https request with HTTPSProxy set, HTTPProxy otherwise; the choice is empty exactly when neither applies |
| `HttpProxy.IsProxyScheme` | http/httpproxy/proxy.go:93-96 | the schemes accepted as they are, http, https and socks5, are exactly the schemes of portMap, those with a default port |
| `HttpProxy.ParseProxy` | http/httpproxy/proxy.go:92-107 | a URL of scheme http/https/socks5 is used as parsed; otherwise a successful "http://" repair wins; an error arises exactly when both parses fail and carries the proxy string and the first error; a foreign-scheme URL whose repair fails is used with no error; the result is never Direct |
| `HttpProxy.ProxyForURL` | http/httpproxy/proxy.go:78-108 | the result is Direct exactly when no proxy is chosen for the scheme or useProxy refuses the canonical address; otherwise it is the outcome of parsing the chosen proxy string |
| `Environment.FirstSetIsFirst` | http/httpproxy/proxy.go:61-68 | the first-set value is "" exactly when every variable is empty, and otherwise the value of a variable all of whose predecessors are empty |
| `Environment.GetEnvAny` | http/httpproxy/proxy.go:61-68 | the loop returns the first non-empty value in name order, or "" |
| `Environment.FromEnvironment` | http/httpproxy/proxy.go:53-59 | each field takes its upper-case variable when set, else the lower-case one |

## Left out

- Process environment: `os.Getenv` is the `lookup` parameter of `GetEnvAny` and `FromEnvironment`.
- Library internals: `url.Parse`, `net.SplitHostPort`, `net.ParseIP`, `IP.IsLoopback`, `net.JoinHostPort` and `idna.Lookup.ToASCII` are fields of `Library`. The model states no property of their own behaviour.
- Unicode case folding and white space: `ToLower` lower-cases ASCII letters only. `TrimSpace` removes ASCII white space only. Go's versions also handle non-ASCII letters and spaces.
- `url.URL` is reduced to the scheme, the hostname and the port, the parts that proxy selection reads. A proxy URL is whatever the parse routine returns.
- The text of the "invalid proxy address" error: `InvalidProxyAddress` carries the proxy string and the first parse's error instead.
- Go's pointers (`*Config`, `*url.URL`): configurations and URLs are values. Nothing in the package mutates them.
