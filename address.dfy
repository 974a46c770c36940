/**
 * The address canonicalizer: turns a request URL into the "host:port"
 * string the no-proxy matcher works on (canonicalAddr, portMap,
 * idnaASCII and isASCII in http/httpproxy/proxy.go).
 */
module Address {
  import opened ProxyTypes

  /** utf8.RuneSelf: bytes below it are ASCII characters. */
  const RuneSelf: char := 128 as char

  /** Every byte of s is ASCII. */
  predicate AllASCII(s: string) {
    forall i | 0 <= i < |s| :: s[i] < RuneSelf
  }

  /** isASCII: scans the bytes and stops at the first non-ASCII one. */
  method IsASCII(s: string) returns (ascii: bool)
    ensures ascii <==> AllASCII(s)
  {
    for i := 0 to |s|
      invariant forall k | 0 <= k < i :: s[k] < RuneSelf
    {
      if s[i] >= RuneSelf {
        return false;
      }
    }
    return true;
  }

  /** idnaASCII: an all-ASCII name is returned as it is, without consulting
      IDNA; any other name goes through idna.Lookup.ToASCII. */
  function IdnaASCII(lib: Library, v: string): (r: Result<string, string>)
    ensures AllASCII(v) ==> r == Success(v)
    ensures !AllASCII(v) ==> r == lib.toASCII(v)
  {
    if AllASCII(v) then Success(v) else lib.toASCII(v)
  }

  /** portMap: the default port of each scheme that has one. */
  const PortMap: map<string, string> := map["http" := "80", "https" := "443", "socks5" := "1080"]

  /** portMap[scheme], which is "" for a scheme the map does not hold. */
  function DefaultPort(scheme: string): (port: string)
    ensures scheme == "http" ==> port == "80"
    ensures scheme == "https" ==> port == "443"
    ensures scheme == "socks5" ==> port == "1080"
    ensures scheme != "http" && scheme != "https" && scheme != "socks5" ==> port == ""
  {
    if scheme in PortMap then PortMap[scheme] else ""
  }

  /** The host part of the canonical address: the IDNA ASCII form when the
      conversion succeeds, and the hostname unchanged when it fails. */
  function CanonicalHost(lib: Library, hostname: string): (host: string)
    ensures AllASCII(hostname) ==> host == hostname
    ensures lib.toASCII(hostname).Failure? ==> host == hostname
    ensures !AllASCII(hostname) && lib.toASCII(hostname).Success? ==> host == lib.toASCII(hostname).value
  {
    match IdnaASCII(lib, hostname)
    case Success(v) => v
    case Failure(_) => hostname
  }

  /** The port part of the canonical address: the URL's own port, or the
      scheme's default when the URL gives none. */
  function RequestPort(u: URL): (port: string)
    ensures u.port != "" ==> port == u.port
    ensures u.port == "" ==> port == DefaultPort(u.scheme)
  {
    if u.port == "" then DefaultPort(u.scheme) else u.port
  }

  /** canonicalAddr: url.Host, always with a port. */
  function CanonicalAddr(lib: Library, u: URL): (addr: string)
    ensures AllASCII(u.hostname) ==> addr == lib.joinHostPort(u.hostname, RequestPort(u))
    ensures lib.toASCII(u.hostname).Failure? ==> addr == lib.joinHostPort(u.hostname, RequestPort(u))
    ensures !AllASCII(u.hostname) && lib.toASCII(u.hostname).Success? ==>
      addr == lib.joinHostPort(lib.toASCII(u.hostname).value, RequestPort(u))
  {
    lib.joinHostPort(CanonicalHost(lib, u.hostname), RequestPort(u))
  }
}
