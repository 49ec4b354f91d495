/** The free helper functions of utils.php: `utf8_strrev`, `logical_value` and `build_url`. */
module Utils {
  import opened Wrappers
  import opened Strings
  import opened Php

  // ---------------------------------------------------------------------------
  // utf8_strrev

  /** `utf8_strrev`: the code points of `s` in reverse order. */
  function Utf8StrRev(s: string): (r: string)
    ensures |r| == |s|
  {
    if s == [] then [] else Utf8StrRev(s[1..]) + [s[0]]
  }

  /** Position `k` of the reversed string holds the code point `k` places from the end. */
  lemma {:induction false} Utf8StrRevAt(s: string, k: nat)
    requires k < |s|
    ensures Utf8StrRev(s)[k] == s[|s| - 1 - k]
  {
    if k < |s| - 1 {
      Utf8StrRevAt(s[1..], k);
    }
  }

  /** Reversing twice gives back the original string. */
  lemma Utf8StrRevInvolution(s: string)
    ensures Utf8StrRev(Utf8StrRev(s)) == s
  {
    var r := Utf8StrRev(s);
    forall k | 0 <= k < |s|
      ensures Utf8StrRev(r)[k] == s[k]
    {
      Utf8StrRevAt(r, k);
      Utf8StrRevAt(s, |s| - 1 - k);
    }
  }

  // ---------------------------------------------------------------------------
  // logical_value

  /** `logical_value($array, $key)`: the flag test used for query parameters. */
  function LogicalValue(flags: map<string, PhpValue>, key: string): bool
  {
    && key in flags && flags[key] != Null
    && (!Empty(flags[key]) || flags[key] == Str(""))
    && Lower(ToString(flags[key])) != "false"
  }

  /** The documented meaning of a flag value: false for `0`, `'0'`, `false` and every
      spelling of `'false'`, true for everything else, the empty string included. */
  predicate FlagMeaning(v: PhpValue)
  {
    match v
    case Null => false
    case Bool(b) => b
    case Int(n) => n != 0
    case Str(s) => s != "0" && Lower(s) != "false"
  }

  /** No decimal rendering of an integer reads as `false` in any case. */
  lemma DecimalIsNotFalse(n: int)
    ensures Lower(IntToDecimal(n)) != "false"
  {
    var d := IntToDecimal(n);
    assert Lower(d)[0] != 'f';
  }

  /** `logical_value` is true exactly when the key is present and its value means true. */
  lemma LogicalValueMeaning(flags: map<string, PhpValue>, key: string)
    ensures LogicalValue(flags, key) <==> key in flags && FlagMeaning(flags[key])
  {
    if key in flags {
      match flags[key]
      case Int(n) => DecimalIsNotFalse(n);
      case Bool(b) => assert Lower("1") == "1";
      case _ =>
    }
  }

  /** The edge cases listed in the doc comment of `logical_value`. */
  lemma LogicalValueEdgeCases(flags: map<string, PhpValue>, key: string)
    ensures key !in flags || flags[key] == Null ==> !LogicalValue(flags, key)
    ensures key in flags && flags[key] == Str("") ==> LogicalValue(flags, key)
    ensures key in flags && flags[key] in {Int(0), Str("0"), Bool(false)} ==> !LogicalValue(flags, key)
    ensures key in flags && flags[key].Str? && Lower(flags[key].s) == "false" ==> !LogicalValue(flags, key)
    ensures !LogicalValue(map[key := Str("FALSE")], key)
  {
    assert Lower("FALSE") == "false";
  }

  // ---------------------------------------------------------------------------
  // build_url

  /** The URL components of `parse_url`; a missing array key is `None`. */
  datatype UrlParts = UrlParts(
    scheme: Option<string>, user: Option<string>, pass: Option<string>, host: Option<string>,
    port: Option<int>, path: Option<string>, query: Option<string>, fragment: Option<string>)

  /** A component written after its delimiter, or nothing when it is absent. */
  function Delimited(mark: string, o: Option<string>): string
  {
    if o.Some? then mark + o.value else ""
  }

  function PortPart(port: Option<int>): string
  {
    if port.Some? then ":" + IntToDecimal(port.value) else ""
  }

  /** The components joined in the order scheme, user, password, host, port, path, query,
      fragment, with their delimiters; `withAt` says whether the password and the `@`
      closing the user information are written. */
  function UrlString(u: UrlParts, withAt: bool): string
  {
    SchemePart(u.scheme) + AuthorityText(u, withAt) + TailPart(u)
  }

  /** User information, host and port. */
  function AuthorityText(u: UrlParts, withAt: bool): string
  {
    UserInfo(u, withAt) + OptToString(u.host) + PortPart(u.port)
  }

  /** The user, then the password and `@` when `withAt` holds. */
  function UserInfo(u: UrlParts, withAt: bool): string
  {
    if withAt then OptToString(u.user) + Delimited(":", u.pass) + "@" else OptToString(u.user)
  }

  function SchemePart(scheme: Option<string>): string
  {
    if scheme.Some? then scheme.value + "://" else ""
  }

  /** Path, query and fragment, the part after the authority. */
  function TailPart(u: UrlParts): string
  {
    OptToString(u.path) + Delimited("?", u.query) + Delimited("#", u.fragment)
  }

  /** `build_url` as written: the `@` is written when the user is PHP-truthy or a
      password is given, so a user `'0'` loses its `@`. */
  function BuildUrl(u: UrlParts): string
  {
    UrlString(u, !EmptyString(OptToString(u.user)) || !EmptyString(Delimited(":", u.pass)))
  }

  /** `build_url` as its doc comment intends: the `@` is written whenever a user or a
      password is given. */
  function BuildUrlIntended(u: UrlParts): string
  {
    UrlString(u, IntendedAt(u))
  }

  /** Whether user information is present. */
  predicate IntendedAt(u: UrlParts)
  {
    u.user.Some? || u.pass.Some?
  }

  /** The components `parse_url` can give back unambiguously from an absolute URL with an
      authority: a scheme of letters, digits, `+`, `-` and `.`; a non-empty host; no
      delimiter inside a component that would end it; a port from 0 to 65535; a path
      that starts with `/`; no password without a user; and no control character, which
      `parse_url` would turn into `_`. */
  predicate WellFormedUrl(u: UrlParts)
  {
    && u.scheme.Some? && u.scheme.value != [] && SchemeText(u.scheme.value)
    && (u.user.Some? ==> NoneIn(u.user.value, {':', '@', '/', '?', '#'}))
    && (u.pass.Some? ==> u.user.Some? && NoneIn(u.pass.value, {'@', '/', '?', '#'}))
    && u.host.Some? && u.host.value != [] && NoneIn(u.host.value, {':', '@', '/', '?', '#'})
    && (u.port.Some? ==> 0 <= u.port.value <= MaxPort)
    && (u.path.Some? ==> u.path.value != [] && u.path.value[0] == '/' && NoneIn(u.path.value, {'?', '#'}))
    && (u.query.Some? ==> NoneIn(u.query.value, {'#'}))
    && NoControl(u.user) && NoControl(u.pass) && NoControl(u.host)
    && NoControl(u.path) && NoControl(u.query) && NoControl(u.fragment)
  }

  /** The largest port `parse_url` accepts. */
  const MaxPort := 65535

  /** The characters `parse_url` accepts in a scheme. */
  predicate SchemeText(s: string)
  {
    forall i :: 0 <= i < |s| ==>
      'a' <= s[i] <= 'z' || 'A' <= s[i] <= 'Z' || IsDigit(s[i]) || s[i] in {'+', '-', '.'}
  }

  /** An absent component, or one without ASCII control characters. */
  predicate NoControl(o: Option<string>)
  {
    o.Some? ==> forall i :: 0 <= i < |o.value| ==> 32 <= o.value[i] as int != 127
  }

  predicate AllDigits(s: string)
  {
    forall i :: 0 <= i < |s| ==> IsDigit(s[i])
  }

  /** Splits `user[:password]`. */
  function ParseUserInfo(info: string): (Option<string>, Option<string>)
  {
    var c := FirstIndexIn(info, {':'});
    if c < |info| then (Some(info[..c]), Some(info[c + 1..])) else (Some(info), None)
  }

  /** Splits `host[:port]`; fails on an empty host and on a port that is not a number
      from 0 to 65535. */
  function ParseHostPort(hostPort: string): Option<(string, Option<int>)>
  {
    var c := FirstIndexIn(hostPort, {':'});
    var portText := if c < |hostPort| then hostPort[c + 1..] else "";
    if c == 0 then None
    else if c == |hostPort| then Some((hostPort, None))
    else if portText != [] && AllDigits(portText) && DecimalValue(portText) <= MaxPort then
      Some((hostPort[..c], Some(DecimalValue(portText) as int)))
    else None
  }

  /** Splits `[user[:password]@]host[:port]`. */
  function ParseAuthority(authority: string): Option<(Option<string>, Option<string>, string, Option<int>)>
  {
    var a := FirstIndexIn(authority, {'@'});
    var info := if a < |authority| then ParseUserInfo(authority[..a]) else (None, None);
    var hostPort := ParseHostPort(if a < |authority| then authority[a + 1..] else authority);
    if hostPort.None? then None else Some((info.0, info.1, hostPort.value.0, hostPort.value.1))
  }

  /** Splits `[?query][#fragment]`. */
  function ParseQueryFragment(rest: string): (Option<string>, Option<string>)
  {
    if rest == [] then (None, None)
    else if rest[0] == '?' then
      var f := FirstIndexIn(rest[1..], {'#'});
      (Some(rest[1..][..f]), if f < |rest[1..]| then Some(rest[1..][f + 1..]) else None)
    else (None, Some(rest[1..]))
  }

  /** Splits `[path][?query][#fragment]`. */
  function ParseTail(tail: string): (Option<string>, Option<string>, Option<string>)
  {
    var p := FirstIndexIn(tail, {'?', '#'});
    var queryFragment := ParseQueryFragment(tail[p..]);
    (if p == 0 then None else Some(tail[..p]), queryFragment.0, queryFragment.1)
  }

  /** A reference parser for absolute URLs with an authority, `scheme://authority[tail]`,
      which like PHP's `parse_url` fails on an empty host and on a port above 65535. It
      does not rewrite control characters, and it is compared with `parse_url` only on
      the URLs of WellFormedUrl. */
  function ParseUrl(s: string): Option<UrlParts>
  {
    var k := FirstIndexIn(s, {':'});
    if k == 0 || |s| < k + 3 || s[k..k + 3] != "://" then None
    else
      var rest := s[k + 3..];
      var e := FirstIndexIn(rest, {'/', '?', '#'});
      var authority := ParseAuthority(rest[..e]);
      var tail := ParseTail(rest[e..]);
      if authority.None? then None
      else
        var (user, pass, host, port) := authority.value;
        Some(UrlParts(Some(s[..k]), user, pass, Some(host), port, tail.0, tail.1, tail.2))
  }

  lemma QueryRoundTrip(query: string, fragment: string)
    requires NoneIn(query, {'#'})
    requires fragment != [] ==> fragment[0] == '#'
    ensures ParseQueryFragment("?" + (query + fragment))
            == (Some(query), if fragment == [] then None else Some(fragment[1..]))
  {
    var rest := "?" + (query + fragment);
    assert rest[1..] == query + fragment;
    FirstIndexAfter(query, fragment, {'#'});
    assert (query + fragment)[..|query|] == query;
    if fragment != [] {
      assert (query + fragment)[|query| + 1..] == fragment[1..];
    }
  }

  lemma QueryFragmentRoundTrip(query: Option<string>, fragment: Option<string>)
    requires query.Some? ==> NoneIn(query.value, {'#'})
    ensures ParseQueryFragment(Delimited("?", query) + Delimited("#", fragment)) == (query, fragment)
  {
    var f := Delimited("#", fragment);
    if query.Some? {
      assert Delimited("?", query) + f == "?" + (query.value + f);
      QueryRoundTrip(query.value, f);
    } else {
      assert Delimited("?", query) + f == f;
    }
  }

  lemma TailRoundTrip(path: Option<string>, query: Option<string>, fragment: Option<string>)
    requires path.Some? ==> path.value != [] && path.value[0] == '/' && NoneIn(path.value, {'?', '#'})
    requires query.Some? ==> NoneIn(query.value, {'#'})
    ensures ParseTail(OptToString(path) + Delimited("?", query) + Delimited("#", fragment))
            == (path, query, fragment)
  {
    var p, rest := OptToString(path), Delimited("?", query) + Delimited("#", fragment);
    assert p + Delimited("?", query) + Delimited("#", fragment) == p + rest;
    FirstIndexAfter(p, rest, {'?', '#'});
    assert (p + rest)[..|p|] == p;
    assert (p + rest)[|p|..] == rest;
    QueryFragmentRoundTrip(query, fragment);
  }

  lemma UserInfoRoundTrip(user: string, pass: Option<string>)
    requires NoneIn(user, {':'})
    ensures ParseUserInfo(user + Delimited(":", pass)) == (Some(user), pass)
  {
    var p := Delimited(":", pass);
    FirstIndexAfter(user, p, {':'});
    assert (user + p)[..|user|] == user;
    if pass.Some? {
      assert (user + p)[|user| + 1..] == pass.value;
    } else {
      assert user + p == user;
    }
  }

  lemma HostPortRoundTrip(host: string, port: Option<int>)
    requires host != [] && NoneIn(host, {':'})
    requires port.Some? ==> 0 <= port.value <= MaxPort
    ensures ParseHostPort(host + PortPart(port)) == Some((host, port))
  {
    var p := PortPart(port);
    FirstIndexAfter(host, p, {':'});
    assert (host + p)[..|host|] == host;
    if port.Some? {
      assert (host + p)[|host| + 1..] == NatToDecimal(port.value);
      DecimalRoundTrip(port.value);
    } else {
      assert host + p == host;
    }
  }

  /** With an `@`, the authority splits at it into user information and `host[:port]`. */
  lemma AuthoritySplitAt(info: string, host: string, port: string)
    requires NoneIn(info, {'@'})
    ensures var parsed := ParseHostPort(host + port); var user := ParseUserInfo(info);
      ParseAuthority(info + "@" + host + port)
      == if parsed.None? then None else Some((user.0, user.1, parsed.value.0, parsed.value.1))
  {
    var s := info + "@" + host + port;
    FirstIndexAfter(info, s[|info|..], {'@'});
    assert info + s[|info|..] == s;
    assert s[..|info|] == info;
    assert s[|info| + 1..] == host + port;
  }

  /** Without an `@`, the whole authority is `host[:port]`. */
  lemma AuthorityWithoutAt(hostPort: string)
    requires NoneIn(hostPort, {'@'})
    ensures var parsed := ParseHostPort(hostPort);
      ParseAuthority(hostPort) == if parsed.None? then None else Some((None, None, parsed.value.0, parsed.value.1))
  {
    assert hostPort + [] == hostPort;
    FirstIndexAfter(hostPort, [], {'@'});
  }

  /** The port part holds no `@`. */
  lemma PortPartAvoids(port: Option<int>)
    requires port.Some? ==> port.value >= 0
    ensures NoneIn(PortPart(port), {'@'})
  {
    if port.Some? {
      assert PortPart(port) == ":" + NatToDecimal(port.value);
    }
  }

  /** The authority written for well-formed components parses back into user,
      password, host and port. */
  lemma AuthorityRoundTrip(u: UrlParts)
    requires WellFormedUrl(u)
    ensures ParseAuthority(AuthorityText(u, IntendedAt(u))) == Some((u.user, u.pass, u.host.value, u.port))
  {
    var host, port := u.host.value, PortPart(u.port);
    HostPortRoundTrip(host, u.port);
    if u.user.Some? {
      AuthorityWithUser(u.user.value, u.pass, host, port);
    } else {
      assert NoneIn(host + port, {'@'}) by {
        PortPartAvoids(u.port);
        NoneInConcat(host, port, {'@'});
      }
      assert AuthorityText(u, IntendedAt(u)) == host + port;
      AuthorityWithoutAt(host + port);
    }
  }

  /** An authority with user information parses into the user, the password and
      whatever `host[:port]` parses into. */
  lemma AuthorityWithUser(user: string, pass: Option<string>, host: string, port: string)
    requires NoneIn(user, {':', '@'})
    requires pass.Some? ==> NoneIn(pass.value, {'@'})
    ensures var parsed := ParseHostPort(host + port);
      ParseAuthority(user + Delimited(":", pass) + "@" + host + port)
      == if parsed.None? then None else Some((Some(user), pass, parsed.value.0, parsed.value.1))
  {
    var info := user + Delimited(":", pass);
    assert NoneIn(info, {'@'}) by {
      assert NoneIn(Delimited(":", pass), {'@'});
      NoneInConcat(user, Delimited(":", pass), {'@'});
    }
    AuthoritySplitAt(info, host, port);
    UserInfoRoundTrip(user, pass);
  }

  /** The authority of a well-formed URL holds none of the characters that end it, and
      the rest of the URL is empty or starts with one of them. */
  lemma AuthorityEnds(u: UrlParts)
    requires WellFormedUrl(u)
    ensures NoneIn(AuthorityText(u, IntendedAt(u)), {'/', '?', '#'})
    ensures TailPart(u) != [] ==> TailPart(u)[0] in {'/', '?', '#'}
  {
    var d := {'/', '?', '#'};
    var info := UserInfo(u, IntendedAt(u));
    assert NoneIn(PortPart(u.port), d) by {
      if u.port.Some? {
        assert PortPart(u.port) == ":" + NatToDecimal(u.port.value);
      }
    }
    assert NoneIn(info, d);
    NoneInConcat(info, u.host.value, d);
    NoneInConcat(info + u.host.value, PortPart(u.port), d);
  }

  /** Round trip: the reference parser gives back every well-formed set of components
      from the string BuildUrlIntended makes of it. */
  lemma BuildUrlIntendedRoundTrip(u: UrlParts)
    requires WellFormedUrl(u)
    ensures ParseUrl(BuildUrlIntended(u)) == Some(u)
  {
    var scheme := u.scheme.value;
    assert NoneIn(scheme, {':'});
    AuthorityEnds(u);
    AuthorityRoundTrip(u);
    TailRoundTrip(u.path, u.query, u.fragment);
    UrlSplit(scheme, AuthorityText(u, IntendedAt(u)), TailPart(u));
  }

  /** `scheme://authority tail` splits at the first `:` and at the first character
      after `://` that ends the authority. */
  lemma UrlSplit(scheme: string, authority: string, tail: string)
    requires scheme != [] && NoneIn(scheme, {':'})
    requires NoneIn(authority, {'/', '?', '#'})
    requires tail != [] ==> tail[0] in {'/', '?', '#'}
    ensures var a := ParseAuthority(authority); var t := ParseTail(tail);
      ParseUrl(scheme + "://" + authority + tail)
      == if a.None? then None else Some(UrlParts(Some(scheme), a.value.0, a.value.1, Some(a.value.2), a.value.3, t.0, t.1, t.2))
  {
    var s := scheme + "://" + authority + tail;
    var rest := authority + tail;
    assert FirstIndexIn(s, {':'}) == |scheme| && s[..|scheme|] == scheme
      && s[|scheme|..|scheme| + 3] == "://" && s[|scheme| + 3..] == rest by {
      SchemeSplit(scheme, authority, tail);
      FirstIndexAfter(scheme, "://" + rest, {':'});
    }
    assert FirstIndexIn(rest, {'/', '?', '#'}) == |authority|
      && rest[..|authority|] == authority && rest[|authority|..] == tail by {
      FirstIndexAfter(authority, tail, {'/', '?', '#'});
    }
  }

  /** Re-association of `scheme://authority tail`. */
  lemma SchemeSplit(scheme: string, authority: string, tail: string)
    ensures scheme + "://" + authority + tail == scheme + ("://" + (authority + tail))
  {
  }

  /** As written, `build_url` agrees with the intended form except when a user that PHP
      reads as false (`''` or `'0'`) is given without a password; so on every other
      well-formed input it round-trips too. */
  lemma BuildUrlAsWrittenAgrees(u: UrlParts)
    requires !(u.user.Some? && EmptyString(u.user.value) && u.pass.None?)
    ensures BuildUrl(u) == BuildUrlIntended(u)
    ensures WellFormedUrl(u) ==> ParseUrl(BuildUrl(u)) == Some(u)
  {
    if u.pass.Some? {
      assert Delimited(":", u.pass)[0] == ':';
    }
    if WellFormedUrl(u) {
      BuildUrlIntendedRoundTrip(u);
    }
  }

  /** No present string component contains a character of `d`. */
  predicate ComponentsAvoid(u: UrlParts, d: set<char>)
  {
    && (u.scheme.Some? ==> NoneIn(u.scheme.value, d))
    && (u.user.Some? ==> NoneIn(u.user.value, d))
    && (u.pass.Some? ==> NoneIn(u.pass.value, d))
    && (u.host.Some? ==> NoneIn(u.host.value, d))
    && (u.path.Some? ==> NoneIn(u.path.value, d))
    && (u.query.Some? ==> NoneIn(u.query.value, d))
    && (u.fragment.Some? ==> NoneIn(u.fragment.value, d))
  }

  /** As written, `build_url` writes an `@` exactly when the user is PHP-truthy or a
      password is given, and (with no scheme and no port to add colons) a `:` exactly
      when a password is given. */
  lemma BuildUrlUserInfo(u: UrlParts)
    requires ComponentsAvoid(u, {'@', ':'})
    ensures '@' in BuildUrl(u) <==> !EmptyString(OptToString(u.user)) || u.pass.Some?
    ensures u.scheme.None? && u.port.None? ==> (':' in BuildUrl(u) <==> u.pass.Some?)
  {
    var withAt := !EmptyString(OptToString(u.user)) || !EmptyString(Delimited(":", u.pass));
    var info := UserInfo(u, withAt);
    var host, port := OptToString(u.host), PortPart(u.port);
    assert BuildUrl(u) == SchemePart(u.scheme) + (info + host + port) + TailPart(u);
    assert withAt <==> !EmptyString(OptToString(u.user)) || u.pass.Some? by {
      if u.pass.Some? {
        assert Delimited(":", u.pass)[0] == ':';
      }
    }
    assert '@' !in SchemePart(u.scheme) && '@' !in host && '@' !in port && '@' !in TailPart(u) by {
      if u.port.Some? {
        assert PortPart(u.port) == [':'] + IntToDecimal(u.port.value);
        assert forall i :: 0 <= i < |IntToDecimal(u.port.value)| ==> IntToDecimal(u.port.value)[i] != '@';
      }
    }
    assert '@' in info <==> withAt;
    if u.scheme.None? && u.port.None? {
      assert SchemePart(u.scheme) == [] && PortPart(u.port) == [];
      assert ':' !in host && ':' !in TailPart(u);
      assert ':' in info <==> u.pass.Some? by {
        if u.pass.Some? {
          assert info[|OptToString(u.user)|] == ':';
        }
      }
    }
  }

  /** A URL with user `'0'` and no password, and one whose host starts with `0`. */
  const ZeroUser := UrlParts(Some("http"), Some("0"), None, Some("example.com"), None, None, None, None)
  const ZeroHost := UrlParts(Some("http"), None, None, Some("0example.com"), None, None, None, None)

  /** The defect of the code as written: a user `'0'` without a password is glued to the
      host, so two different well-formed component sets give the same URL and
      `parse_url` cannot be inverted. */
  lemma BuildUrlUserZeroCollision()
    ensures WellFormedUrl(ZeroUser) && WellFormedUrl(ZeroHost) && ZeroUser != ZeroHost
    ensures BuildUrl(ZeroUser) == BuildUrl(ZeroHost) == "http://0example.com"
    ensures BuildUrlIntended(ZeroUser) == "http://0@example.com"
  {
    ZeroUrlsWellFormed();
    ZeroUserWritten();
    ZeroHostWritten();
    ZeroUserIntended();
  }

  lemma ZeroUrlsWellFormed()
    ensures WellFormedUrl(ZeroUser) && WellFormedUrl(ZeroHost) && ZeroUser != ZeroHost
  {
    ZeroUserWellFormed();
    ZeroHostWellFormed();
    assert ZeroUser.user != ZeroHost.user;
  }

  lemma ZeroUserWellFormed()
    ensures WellFormedUrl(ZeroUser)
  {
    assert SchemeText("http");
    assert NoneIn("0", {':', '@', '/', '?', '#'}) && NoControl(Some("0"));
    assert NoneIn("example.com", {':', '@', '/', '?', '#'}) && NoControl(Some("example.com"));
  }

  lemma ZeroHostWellFormed()
    ensures WellFormedUrl(ZeroHost)
  {
    assert SchemeText("http");
    assert NoneIn("0example.com", {':', '@', '/', '?', '#'}) && NoControl(Some("0example.com"));
  }

  lemma ZeroUserWritten()
    ensures BuildUrl(ZeroUser) == "http://0example.com"
  {
    calc {
      BuildUrl(ZeroUser);
      { assert EmptyString(OptToString(ZeroUser.user)); }
      UrlString(ZeroUser, false);
      "http://" + AuthorityText(ZeroUser, false) + [];
      { assert AuthorityText(ZeroUser, false) == "0" + "example.com" + []; }
      "http://0example.com";
    }
  }

  lemma ZeroHostWritten()
    ensures BuildUrl(ZeroHost) == "http://0example.com"
  {
    calc {
      BuildUrl(ZeroHost);
      UrlString(ZeroHost, false);
      "http://" + AuthorityText(ZeroHost, false) + [];
      { assert AuthorityText(ZeroHost, false) == [] + "0example.com" + []; }
      "http://0example.com";
    }
  }

  lemma ZeroUserIntended()
    ensures BuildUrlIntended(ZeroUser) == "http://0@example.com"
  {
    calc {
      BuildUrlIntended(ZeroUser);
      UrlString(ZeroUser, true);
      "http://" + AuthorityText(ZeroUser, true) + [];
      { assert UserInfo(ZeroUser, true) == "0" + [] + "@"; }
      "http://" + ("0@" + "example.com" + []) + [];
      "http://0@example.com";
    }
  }
}
