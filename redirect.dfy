/** The HTTP-to-HTTPS redirect handler (utils.go, tlsRedirect): the
    target port normalisation made once, and the per-request rewriting of
    the request's URL into the redirect target. */
module Redirect {
  import opened Common
  import opened GoStrings

  const StatusTemporaryRedirect: int := 307

  /** The port tlsRedirect is configured with, as JoinHostPort wants it:
      the default HTTPS port (":443" or ":https") becomes "" so the target
      carries no port, and one leading colon is stripped. */
  function NormalizePort(toPort: string): (r: string)
    ensures toPort == ":443" || toPort == ":https" ==> r == ""
    ensures toPort != ":443" && toPort != ":https" && HasPrefix(toPort, ":") ==> r == toPort[1..]
    ensures !HasPrefix(toPort, ":") ==> r == toPort
  {
    if toPort == ":443" || toPort == ":https" then ""
    else if toPort != "" && toPort[..1] == ":" then toPort[1..]
    else toPort
  }

  /** The target carries no port exactly for the default HTTPS port, for
      an empty port and for a bare colon. */
  lemma NoPortCases(toPort: string)
    ensures NormalizePort(toPort) == "" <==> toPort in {":443", ":https", "", ":"}
  {
    if NormalizePort(toPort) == "" && toPort != "" && toPort != ":443" && toPort != ":https" {
      assert toPort[..1] == ":";
      assert |toPort| == 1;
      assert toPort == ":";
    }
  }

  predicate ContainsColon(s: string)
  {
    exists i :: 0 <= i < |s| && s[i] == ':'
  }

  /** net.JoinHostPort: a host with a colon in it (an IPv6 address) is
      put in brackets. */
  function JoinHostPort(host: string, port: string): (r: string)
    ensures HasSuffix(r, ":" + port)
    ensures !ContainsColon(host) ==> r == host + ":" + port
    ensures ContainsColon(host) ==> r == "[" + host + "]:" + port
  {
    if ContainsColon(host) then "[" + host + "]:" + port else host + ":" + port
  }

  /** The host of the target: the request's host with its port replaced
      by the configured one, or with no port at all. */
  function TargetHost(host: string, toPort: string): string
  {
    if toPort != "" then JoinHostPort(host, toPort) else host
  }

  /** A port written with its colon comes back unchanged in the target:
      the colon stripped by the normalisation is the one JoinHostPort
      puts back. */
  lemma PortRoundTrip(host: string, port: string)
    requires port != "" && port != "443" && port != "https"
    requires !ContainsColon(host)
    ensures TargetHost(host, NormalizePort(":" + port)) == host + ":" + port
  {
    assert (":" + port)[..1] == ":";
    assert (":" + port)[1..] == port;
  }

  /** The default HTTPS port, however it is written, leaves the request's
      host alone. */
  lemma DefaultPortLeavesHost(host: string)
    ensures TargetHost(host, NormalizePort(":443")) == host
    ensures TargetHost(host, NormalizePort(":https")) == host
  {
  }

  /** The request's host without its port: SplitHostPort's host, or the
      whole Host when it could not be split (no port in it). */
  function HostOf(reqHost: string, split: Option<string>): string
  {
    if split.Some? then split.value else reqHost
  }

  /** Where http.Redirect sends the client: the URL's string form, without
      the escaping url.URL.String applies. */
  function Location(scheme: string, host: string, path: string, rawQuery: string): (r: string)
    ensures HasPrefix(r, scheme + "://" + host + path)
  {
    scheme + "://" + host + path + (if rawQuery == "" then "" else "?" + rawQuery)
  }

  /** The request URI parsed by url.ParseRequestURI. */
  class Url {
    var scheme: string
    var host: string
    var path: string
    var rawQuery: string

    constructor (path: string, rawQuery: string)
      ensures scheme == "" && host == "" && this.path == path && this.rawQuery == rawQuery
    {
      scheme, host := "", "";
      this.path, this.rawQuery := path, rawQuery;
    }
  }

  /** A redirect with 307 to the location, or the nil dereference that a
      request URI ParseRequestURI refuses causes (its error is dropped). */
  datatype RedirectOutcome = Redirected(status: int, location: string) | NilTarget

  /** The handler tlsRedirect returns, with the port it normalised. */
  class RedirectHandler {
    const toPort: string

    constructor (toPort: string)
      ensures this.toPort == NormalizePort(toPort)
    {
      var port := toPort;
      if port == ":443" || port == ":https" {
        port := "";
      } else if port != "" && port[..1] == ":" {
        port := port[1..];
      }
      this.toPort := port;
    }

    /** One request; split is what SplitHostPort made of the Host, target
        what ParseRequestURI made of the request URI. The target becomes
        an https URL on the rewritten host with a non-empty path and the
        query untouched, and the client is sent there with 307. */
    method ServeHTTP(reqHost: string, split: Option<string>, target: Url?) returns (o: RedirectOutcome)
      modifies target
      ensures target == null ==> o == NilTarget
      ensures target != null ==>
                target.scheme == "https" &&
                target.host == TargetHost(HostOf(reqHost, split), toPort) &&
                target.path == (if old(target.path) == "" then "/" else old(target.path)) &&
                target.rawQuery == old(target.rawQuery) &&
                o == Redirected(StatusTemporaryRedirect, Location(target.scheme, target.host, target.path, target.rawQuery))
    {
      var host: string;
      if split.Some? {
        host := split.value;
      } else {
        host := reqHost;
      }
      if target == null {
        return NilTarget;
      }
      target.scheme := "https";
      if toPort != "" {
        target.host := JoinHostPort(host, toPort);
      } else {
        target.host := host;
      }
      if target.path == "" {
        target.path := "/";
      }
      o := Redirected(StatusTemporaryRedirect, Location(target.scheme, target.host, target.path, target.rawQuery));
    }
  }

  /** Every redirect location is an https URL with a path. */
  lemma RedirectIsHttps(host: string, toPort: string, path: string, rawQuery: string)
    ensures var p := if path == "" then "/" else path;
            HasPrefix(Location("https", TargetHost(host, toPort), p, rawQuery), "https://") &&
            |p| > 0
  {
    var p := if path == "" then "/" else path;
    var l := Location("https", TargetHost(host, toPort), p, rawQuery);
    assert l[..8] == "https://";
  }
}
