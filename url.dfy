/** The part of the WHATWG URL standard that `new URL(...).origin` uses
    when the configuration writes `scheme://hostname:port`: ASCII
    lower-casing of the scheme and the host, the port range check, the
    default ports of the special schemes `http`, `https`, `ws`, `wss` and
    `ftp`, and the serialisation of a tuple
    origin as scheme, `://`, host and, unless the port is the scheme's
    default, `:` and the port. */
module Url {
  import opened Wrappers
  import Js

  /** The largest port the URL parser accepts. */
  const MaxPort: nat := 65535

  function LowerChar(c: char): (l: char)
    ensures 'A' <= c <= 'Z' ==> l as int == c as int + 32
    ensures !('A' <= c <= 'Z') ==> l == c
  {
    if 'A' <= c <= 'Z' then (c as int + 32) as char else c
  }

  /** ASCII lower-casing, character by character. */
  function AsciiLower(s: string): (r: string)
    ensures |r| == |s|
    ensures forall i :: 0 <= i < |s| ==> r[i] == LowerChar(s[i])
  {
    seq(|s|, i requires 0 <= i < |s| => LowerChar(s[i]))
  }

  /** The default port of a special scheme; `None` for any other scheme. */
  function DefaultPort(scheme: string): (r: Option<nat>)
    ensures r.Some? <==> scheme == "http" || scheme == "https" || scheme == "ws" || scheme == "wss" || scheme == "ftp"
    ensures scheme == "http" || scheme == "ws" ==> r == Some(80)
    ensures scheme == "https" || scheme == "wss" ==> r == Some(443)
    ensures scheme == "ftp" ==> r == Some(21)
  {
    if scheme == "http" || scheme == "ws" then Some(80)
    else if scheme == "https" || scheme == "wss" then Some(443)
    else if scheme == "ftp" then Some(21)
    else None
  }

  /** `new URL(scheme + "://" + hostname + ":" + port).origin`, or `None`
      where the URL constructor throws: a port outside 0..65535 (a negative
      port is written with a `-`, which the port state rejects) or an empty
      host. */
  function Origin(scheme: string, hostname: string, port: int): (r: Option<string>)
    ensures r.None? <==> port < 0 || port > MaxPort || hostname == ""
  {
    if port < 0 || port > MaxPort || hostname == "" then None
    else
      var s := AsciiLower(scheme);
      var suffix := if DefaultPort(s) == Some(port) then "" else ":" + Js.Decimal(port);
      Some(s + "://" + AsciiLower(hostname) + suffix)
  }

  lemma AsciiLowerIdempotent(s: string)
    ensures AsciiLower(AsciiLower(s)) == AsciiLower(s)
  {
    var l := AsciiLower(s);
    assert forall i :: 0 <= i < |s| ==> AsciiLower(l)[i] == l[i];
  }

  /** The origin is already normalised: taking the origin of the lower-cased
      scheme and host gives the same string. */
  lemma OriginNormalised(scheme: string, hostname: string, port: int)
    ensures Origin(AsciiLower(scheme), AsciiLower(hostname), port) == Origin(scheme, hostname, port)
  {
    AsciiLowerIdempotent(scheme);
    AsciiLowerIdempotent(hostname);
  }

  /** For a host free of `/`, `?` and `#`, the origin is the lower-cased
      scheme and `://` followed by text with no path, query or fragment. */
  lemma OriginHasNoPath(scheme: string, hostname: string, port: int)
    requires forall i :: 0 <= i < |hostname| ==> hostname[i] != '/' && hostname[i] != '?' && hostname[i] != '#'
    requires Origin(scheme, hostname, port).Some?
    ensures var o := Origin(scheme, hostname, port).value;
      var n := |scheme| + 3;
      && n <= |o|
      && o[..n] == AsciiLower(scheme) + "://"
      && forall i :: n <= i < |o| ==> o[i] != '/' && o[i] != '?' && o[i] != '#'
  {
    var s := AsciiLower(scheme);
    var h := AsciiLower(hostname);
    var suffix := if DefaultPort(s) == Some(port) then "" else ":" + Js.Decimal(port);
    var o := s + "://" + h + suffix;
    assert Origin(scheme, hostname, port).value == o;
    var n := |scheme| + 3;
    assert o[..n] == s + "://";
    forall i | n <= i < |o|
      ensures o[i] != '/' && o[i] != '?' && o[i] != '#'
    {
      if i < n + |h| {
        assert o[i] == h[i - n] == LowerChar(hostname[i - n]);
      } else {
        assert o[i] == suffix[i - n - |h|];
      }
    }
  }

  /** The default port of `http` and `https` is left out of the origin; any
      other port is written after a colon. */
  lemma OriginPort(scheme: string, hostname: string, port: int)
    requires scheme == "http" || scheme == "https"
    requires hostname != "" && 0 <= port <= MaxPort
    ensures Origin(scheme, hostname, port) ==
      Some(scheme + "://" + AsciiLower(hostname)
           + (if port == (if scheme == "http" then 80 else 443) then "" else ":" + Js.Decimal(port)))
  {
    assert AsciiLower(scheme) == scheme by {
      assert forall i :: 0 <= i < |scheme| ==> LowerChar(scheme[i]) == scheme[i];
    }
  }
}
