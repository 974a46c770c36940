/**
 * Reading the configuration from the environment (FromEnvironment and
 * getEnvAny in http/httpproxy/proxy.go). The process environment is a
 * parameter: `lookup` returns a variable's value, "" when it is unset.
 */
module Environment {
  import opened ProxyTypes

  /** The value of the first name whose variable is non-empty, "" when
      there is none. */
  function FirstSet(lookup: string -> string, names: seq<string>): string {
    if names == [] then ""
    else if lookup(names[0]) != "" then lookup(names[0])
    else FirstSet(lookup, names[1..])
  }

  /** FirstSet is "" exactly when every variable is empty, and otherwise the
      value of a variable all of whose predecessors are empty. */
  lemma {:induction false} FirstSetIsFirst(lookup: string -> string, names: seq<string>)
    ensures FirstSet(lookup, names) == "" <==> forall k | 0 <= k < |names| :: lookup(names[k]) == ""
    ensures FirstSet(lookup, names) != "" ==>
      exists k | 0 <= k < |names| ::
        && lookup(names[k]) == FirstSet(lookup, names)
        && forall j | 0 <= j < k :: lookup(names[j]) == ""
  {
    if names != [] && lookup(names[0]) == "" {
      var rest := names[1..];
      FirstSetIsFirst(lookup, rest);
      assert forall k | 1 <= k < |names| :: names[k] == rest[k - 1];
      if FirstSet(lookup, rest) != "" {
        var k :| 0 <= k < |rest| && lookup(rest[k]) == FirstSet(lookup, rest)
          && forall j | 0 <= j < k :: lookup(rest[j]) == "";
        assert names[k + 1] == rest[k];
        assert forall j | 1 <= j < k + 1 :: names[j] == rest[j - 1];
      }
    } else if names != [] {
      assert lookup(names[0]) == FirstSet(lookup, names);
    }
  }

  /** getEnvAny: scans the names in order and returns the first non-empty
      value, or "" when all are empty. */
  method GetEnvAny(lookup: string -> string, names: seq<string>) returns (val: string)
    ensures val == FirstSet(lookup, names)
  {
    for i := 0 to |names|
      invariant FirstSet(lookup, names[i..]) == FirstSet(lookup, names)
    {
      var v := lookup(names[i]);
      if v != "" {
        return v;
      }
      assert names[i..][1..] == names[i + 1..];
    }
    return "";
  }

  /** The value of the upper-case variable when it is set, else that of the
      lower-case one. */
  function Preferred(lookup: string -> string, upper: string, lower: string): string {
    if lookup(upper) != "" then lookup(upper) else lookup(lower)
  }

  /** FromEnvironment: each field from its upper-case variable, falling back
      to the lower-case one. */
  method FromEnvironment(lookup: string -> string) returns (cfg: Config)
    ensures cfg.httpProxy == Preferred(lookup, "HTTP_PROXY", "http_proxy")
    ensures cfg.httpsProxy == Preferred(lookup, "HTTPS_PROXY", "https_proxy")
    ensures cfg.noProxy == Preferred(lookup, "NO_PROXY", "no_proxy")
  {
    var httpProxy := GetEnvAny(lookup, ["HTTP_PROXY", "http_proxy"]);
    var httpsProxy := GetEnvAny(lookup, ["HTTPS_PROXY", "https_proxy"]);
    var noProxy := GetEnvAny(lookup, ["NO_PROXY", "no_proxy"]);
    cfg := Config(httpProxy, httpsProxy, noProxy);
  }
}
