/**
 * Proxy resolution for one request (Config.ProxyForURL in
 * http/httpproxy/proxy.go): pick the configured proxy for the request's
 * scheme, ask the no-proxy matcher whether the request's canonical
 * address may use it, and turn the proxy string into a URL, repairing a
 * bare "host[:port]" by assuming "http://".
 */
module HttpProxy {
  import opened ProxyTypes
  import opened Address
  import opened NoProxyMatcher

  /** The proxy string for a request scheme: HTTPSProxy for an https
      request when it is set, HTTPProxy otherwise. */
  function SelectProxy(cfg: Config, scheme: string): (proxy: string)
    ensures scheme == "https" && cfg.httpsProxy != "" ==> proxy == cfg.httpsProxy
    ensures scheme != "https" || cfg.httpsProxy == "" ==> proxy == cfg.httpProxy
    ensures proxy == "" <==> (scheme != "https" || cfg.httpsProxy == "") && cfg.httpProxy == ""
  {
    var first := if scheme == "https" then cfg.httpsProxy else "";
    if first == "" then cfg.httpProxy else first
  }

  /** The schemes a proxy URL may carry as it is: exactly the schemes with a
      default port. */
  predicate IsProxyScheme(scheme: string)
    ensures IsProxyScheme(scheme) <==> scheme in PortMap
    ensures IsProxyScheme(scheme) <==> DefaultPort(scheme) != ""
  {
    scheme == "http" || scheme == "https" || scheme == "socks5"
  }

  /** The repair tried on a proxy string that is not a URL of a proxy
      scheme: the same string behind "http://". */
  function Repaired(proxy: string): string {
    "http://" + proxy
  }

  /**
   * Turning the proxy string into a URL. A URL of a proxy scheme is used as
   * it is; otherwise a successful parse of the repaired string wins. When
   * the repair fails too, the first parse decides: its error is reported,
   * or, when it had succeeded with a foreign scheme, its URL is used after
   * all. The result is never Direct.
   */
  function ParseProxy(lib: Library, proxy: string): (d: Decision)
    ensures d != Direct
    ensures lib.parse(proxy).Success? && IsProxyScheme(lib.parse(proxy).value.scheme) ==>
      d == Via(lib.parse(proxy).value)
    ensures ((lib.parse(proxy).Failure? || !IsProxyScheme(lib.parse(proxy).value.scheme)) &&
             lib.parse(Repaired(proxy)).Success?) ==> d == Via(lib.parse(Repaired(proxy)).value)
    ensures d.Fail? <==> lib.parse(proxy).Failure? && lib.parse(Repaired(proxy)).Failure?
    ensures d.Fail? ==> d.error == InvalidProxyAddress(proxy, lib.parse(proxy).error)
    ensures lib.parse(proxy).Success? && lib.parse(Repaired(proxy)).Failure? ==>
      d == Via(lib.parse(proxy).value)
  {
    var first := lib.parse(proxy);
    if first.Failure? || !IsProxyScheme(first.value.scheme) then
      match lib.parse(Repaired(proxy))
      case Success(u) => Via(u)
      case Failure(_) =>
        if first.Failure? then Fail(InvalidProxyAddress(proxy, first.error)) else Via(first.value)
    else
      Via(first.value)
  }

  /**
   * Config.ProxyForURL: Direct (Go's nil URL and nil error) when no proxy is
   * configured for the request's scheme or the request's address may not
   * use one; otherwise the outcome of parsing the proxy string.
   */
  method ProxyForURL(cfg: Config, lib: Library, req: URL) returns (r: Decision)
    ensures r == Direct <==>
      SelectProxy(cfg, req.scheme) == "" || !ProxyAllowed(cfg, lib, CanonicalAddr(lib, req))
    ensures r != Direct ==> r == ParseProxy(lib, SelectProxy(cfg, req.scheme))
  {
    var proxy := SelectProxy(cfg, req.scheme);
    if proxy == "" {
      return Direct;
    }
    var allowed := UseProxy(cfg, lib, CanonicalAddr(lib, req));
    if !allowed {
      return Direct;
    }
    r := ParseProxy(lib, proxy);
  }
}
