/**
 * Values shared by the proxy-selection components: the configuration
 * snapshot, the parts of a URL that are read, the outcome of a
 * resolution, and the library routines the Go package calls but does
 * not define.
 */
module ProxyTypes {

  datatype Option<+T> = None | Some(value: T)

  datatype Result<+T, +E> = Success(value: T) | Failure(error: E)

  /** A parsed URL as proxy selection sees it: url.URL's Scheme field and
      what its Hostname() and Port() methods return (the host without
      brackets or port, and the port, "" when the URL names none). */
  datatype URL = URL(scheme: string, hostname: string, port: string)

  /** What net.SplitHostPort returns on success. */
  datatype HostPort = HostPort(host: string, port: string)

  /** A parsed IP address (net.IP), as bytes. */
  type IP = seq<bv8>

  /**
   * The routines of Go's net, net/url and idna packages that the selection
   * logic calls. They are parameters of the model: every property is
   * stated for whatever these functions compute.
   *   parse         url.Parse: a URL, or the parse error's text
   *   splitHostPort net.SplitHostPort: host and port, or an error
   *   parseIP       net.ParseIP: an address, or None for Go's nil
   *   isLoopback    net.IP.IsLoopback
   *   joinHostPort  net.JoinHostPort
   *   toASCII       idna.Lookup.ToASCII: the ASCII form, or an error
   */
  datatype Library = Library(
    parse: string -> Result<URL, string>,
    splitHostPort: string -> Result<HostPort, string>,
    parseIP: string -> Option<IP>,
    isLoopback: IP -> bool,
    joinHostPort: (string, string) -> string,
    toASCII: string -> Result<string, string>)

  /** The immutable configuration snapshot (Go's Config). */
  datatype Config = Config(httpProxy: string, httpsProxy: string, noProxy: string)

  /** The one error the package raises itself: a proxy string that is not a
      URL even with "http://" in front. It carries the proxy string and the
      error of the first parse. */
  datatype ProxyError = InvalidProxyAddress(proxy: string, cause: string)

  /** The (*url.URL, error) pair that ProxyForURL returns: (nil, nil) is
      Direct, (u, nil) is Via(u), (nil, err) is Fail(err). */
  datatype Decision = Direct | Via(url: URL) | Fail(error: ProxyError)
}
