/**
 * The host part of a "host:port" remote address, as Go's
 * net.SplitHostPort computes it for the middleware's getIP; any
 * malformed address yields the empty host, because getIP discards the
 * error and keeps SplitHostPort's empty result.
 */
module NetAddr {
  import opened Base

  /** Index of the first occurrence of c in s. */
  function IndexOf(s: string, c: char): (r: Option<nat>)
    ensures r.None? <==> c !in s
    ensures r.Some? ==> r.value < |s| && s[r.value] == c && c !in s[..r.value]
  {
    if |s| == 0 then None
    else if s[0] == c then Some(0)
    else match IndexOf(s[1..], c)
      case None => None
      case Some(i) => assert s[..i + 1] == [s[0]] + s[1..][..i]; Some(i + 1)
  }

  /** Index of the last occurrence of c in s. */
  function LastIndexOf(s: string, c: char): (r: Option<nat>)
    ensures r.None? <==> c !in s
    ensures r.Some? ==> r.value < |s| && s[r.value] == c && c !in s[r.value + 1..]
  {
    if |s| == 0 then None
    else if s[|s| - 1] == c then Some(|s| - 1)
    else
      var init := s[..|s| - 1];
      assert s == init + [s[|s| - 1]];
      match LastIndexOf(init, c)
      case None => None
      case Some(i) => assert s[i + 1..] == init[i + 1..] + [s[|s| - 1]]; Some(i)
  }

  /**
   * The host that net.SplitHostPort returns, or None where it reports an
   * error (missing port, missing or unexpected brackets, too many colons).
   */
  function SplitHost(hostport: string): (r: Option<string>)
    ensures r.Some? ==> ':' in hostport
    ensures r.Some? ==> '[' !in r.value && ']' !in r.value
  {
    match LastIndexOf(hostport, ':')
    case None => None
    case Some(i) =>
      if hostport[0] == '[' then
        match IndexOf(hostport, ']')
        case None => None
        case Some(end) =>
          if end + 1 != i then None
          else if '[' in hostport[1..] || ']' in hostport[end + 1..] then None
          else
            assert hostport[1..end] == hostport[1..][..end - 1];
            Some(hostport[1..end])
      else
        var host := hostport[..i];
        if ':' in host || '[' in hostport || ']' in hostport then None
        else Some(host)
  }

  /** getIP: the host of the remote address, "" when it cannot be split. */
  function HostOf(remoteAddr: string): (host: string)
    ensures ':' !in remoteAddr ==> host == ""
    ensures '[' !in host && ']' !in host
  {
    match SplitHost(remoteAddr)
    case None => ""
    case Some(h) => h
  }

  /** net.JoinHostPort: brackets a host that itself contains a colon. */
  function JoinHostPort(host: string, port: string): (hostport: string)
    ensures ':' in hostport
  {
    if ':' in host then "[" + host + "]" + ":" + port else host + ":" + port
  }

  predicate Bracketless(s: string) { '[' !in s && ']' !in s }

  lemma IndexOfSplit(a: string, c: char, b: string)
    requires c !in a
    ensures IndexOf(a + [c] + b, c) == Some(|a|)
  {
    var s := a + [c] + b;
    assert s[|a|] == c && s[..|a|] == a;
  }

  lemma LastIndexOfSplit(a: string, c: char, b: string)
    requires c !in b
    ensures LastIndexOf(a + [c] + b, c) == Some(|a|)
  {
    var s := a + [c] + b;
    assert s[|a|] == c && s[|a| + 1..] == b;
  }

  /** The port separator of a bracketed address follows the closing bracket. */
  lemma BracketedColon(host: string, port: string)
    requires ':' !in port
    ensures LastIndexOf("[" + host + "]" + ":" + port, ':') == Some(|host| + 2)
  {
    LastIndexOfSplit("[" + host + "]", ':', port);
  }

  /** The closing bracket of a bracketed address follows the host. */
  lemma BracketedClose(host: string, port: string)
    requires Bracketless(host)
    ensures IndexOf("[" + host + "]" + ":" + port, ']') == Some(|host| + 1)
  {
    var front := "[" + host;
    assert ']' !in front;
    assert front + "]" + ":" + port == front + [']'] + (":" + port);
    IndexOfSplit(front, ']', ":" + port);
  }

  /** The pieces of a bracketed address that SplitHost inspects. */
  lemma BracketedParts(host: string, port: string)
    requires Bracketless(host) && Bracketless(port)
    ensures var hp := "[" + host + "]" + ":" + port;
      && hp[0] == '[' && '[' !in hp[1..] && ']' !in hp[|host| + 2..] && hp[1..|host| + 1] == host
  {
    var hp := "[" + host + "]" + ":" + port;
    assert hp[1..] == host + "]" + ":" + port;
    assert hp[|host| + 2..] == ":" + port;
    assert hp[1..|host| + 1] == host;
  }

  lemma SplitBracketed(host: string, port: string)
    requires Bracketless(host) && Bracketless(port) && ':' !in port
    ensures SplitHost("[" + host + "]" + ":" + port) == Some(host)
  {
    BracketedColon(host, port);
    BracketedClose(host, port);
    BracketedParts(host, port);
  }

  lemma SplitPlain(host: string, port: string)
    requires ':' !in host && Bracketless(host) && Bracketless(port) && ':' !in port
    ensures SplitHost(host + ":" + port) == Some(host)
  {
    var hp := host + ":" + port;
    assert hp == host + [':'] + port;
    LastIndexOfSplit(host, ':', port);
    assert hp[..|host|] == host;
    if |host| > 0 { assert hp[0] == host[0]; } else { assert hp[0] == ':'; }
    assert '[' !in hp;
  }

  /**
   * Splitting a joined address gives back its host, whatever the port:
   * two connections from one host share one rate-limit key.
   */
  lemma HostOfJoin(host: string, port: string)
    requires Bracketless(host) && Bracketless(port) && ':' !in port
    ensures HostOf(JoinHostPort(host, port)) == host
  {
    if ':' in host { SplitBracketed(host, port); } else { SplitPlain(host, port); }
  }
}
