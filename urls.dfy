/** The part of the WHATWG URL parser (`new URL(s)` without a base) that the
    handlers depend on: it strips controls and spaces from both ends and removes
    tabs and newlines, fails when what is left has no scheme, and otherwise yields
    the protocol, host name, path and query of an absolute URL. */
module Urls {
  import opened Wrappers
  import opened Strings

  /** The fields of a `URL` object that the handlers read. */
  datatype Url = Url(protocol: string, hostname: string, pathname: string, search: string)

  predicate IsSchemeChar(c: char) {
    IsAsciiAlpha(c) || IsAsciiDigit(c) || c == '+' || c == '-' || c == '.'
  }

  /** Schemes whose URLs must have a host (the special schemes other than `file`). */
  const HostSchemes: set<string> := {"ftp", "http", "https", "ws", "wss"}

  /** Characters that end the authority of a URL with a special scheme. */
  const SpecialAuthorityEnd: set<char> := {'/', '\\', '?', '#'}

  /** Characters that end the authority of a URL with any other scheme. */
  const OpaqueAuthorityEnd: set<char> := {'/', '?', '#'}

  /** Characters that make a host invalid. */
  const ForbiddenHostChars: set<char> :=
    {'\0', '\t', '\n', '\r', ' ', '<', '>', '[', ']', '^', '|', '%', '\U{7F}'}

  /** Where the scheme ends: the first `:`, provided the text before it is a letter
      followed by letters, digits, `+`, `-` or `.`. */
  function SchemeEnd(s: string): (r: Option<nat>)
    ensures r.Some? ==> 0 < r.value < |s| && s[r.value] == ':' && ':' !in s[..r.value]
    ensures r.Some? ==> IsAsciiAlpha(s[0]) && forall j :: 0 < j < r.value ==> IsSchemeChar(s[j])
  {
    match IndexOf(s, ':')
    case None => None
    case Some(i) =>
      if 0 < i && IsAsciiAlpha(s[0]) && (forall j :: 0 < j < i ==> IsSchemeChar(s[j]))
      then Some(i) else None
  }

  /** The path and query that follow the authority: the fragment is dropped, and an
      empty query gives an empty `search`, as `URL.search` does. */
  function SplitQuery(s: string): (r: (string, string))
    ensures '?' !in r.0 && '#' !in r.0 && '#' !in r.1
    ensures r.1 == [] || (|r.1| >= 2 && r.1[0] == '?')
  {
    var h := Before(s, '#');
    match IndexOf(h, '?')
    case None => (h, "")
    case Some(q) => (h[..q], if q + 1 == |h| then "" else h[q..])
  }

  /** Special URLs treat `\` as `/`. */
  function Backslashes(s: string): (r: string)
    ensures |r| == |s| && '\\' !in r
    ensures forall i :: 0 <= i < |s| ==> r[i] == if s[i] == '\\' then '/' else s[i]
  {
    if s == [] then [] else [if s[0] == '\\' then '/' else s[0]] + Backslashes(s[1..])
  }

  /** Special URLs skip any run of slashes after the scheme. */
  function DropSlashes(s: string): (r: string)
    ensures EndsWith(s, r)
    ensures r == [] || (r[0] != '/' && r[0] != '\\')
  {
    if s != [] && (s[0] == '/' || s[0] == '\\') then
      var r := DropSlashes(s[1..]);
      assert s[1..][|s| - 1 - |r|..] == s[|s| - |r|..];
      r
    else s
  }

  /** The host: what follows the last `@` of the authority, up to a `:`. */
  function HostOf(authority: string): (string, string)
  {
    var hostPort := match LastIndexOf(authority, '@')
      case None => authority
      case Some(a) => authority[a + 1..];
    var host := Before(hostPort, ':');
    (host, hostPort[|host|..])
  }

  predicate ValidPort(p: string) {
    p == [] || (p[0] == ':' && forall i :: 1 <= i < |p| ==> IsAsciiDigit(p[i]))
  }

  predicate ValidHost(host: string) {
    host != [] && forall i :: 0 <= i < |host| ==> host[i] !in ForbiddenHostChars
  }

  lemma LowerKeepsValidHost(host: string)
    requires ValidHost(host)
    ensures ValidHost(Lower(host))
  {
    forall i | 0 <= i < |host| ensures Lower(host)[i] !in ForbiddenHostChars {
      assert Lower(host)[i] == LowerChar(host[i]);
    }
  }

  /** The text of `s` up to the first character in `ends`. */
  function UpTo(s: string, ends: set<char>): (r: string)
    ensures StartsWith(s, r)
    ensures forall j :: 0 <= j < |r| ==> r[j] !in ends
    ensures |r| < |s| ==> s[|r|] in ends
  {
    match IndexOfAny(s, ends)
    case None => s
    case Some(k) => s[..k]
  }

  /** The path and query of a special URL, from the character that ended its
      authority on: `\` reads as `/`, and an empty path is `/`. */
  function SpecialPathAndSearch(tail: string): (r: (string, string))
    requires tail == [] || tail[0] in SpecialAuthorityEnd
    ensures |r.0| > 0 && r.0[0] == '/'
  {
    var pathSearch := SplitQuery(tail);
    if pathSearch.0 == [] then ("/", pathSearch.1)
    else
      assert tail[0] == pathSearch.0[0];
      (Backslashes(pathSearch.0), pathSearch.1)
  }

  /** A URL whose scheme requires a host (`http:`, `https:`, ...): slashes after the
      scheme are skipped, the host is lower-cased, and an empty path becomes `/`. */
  function ParseHostUrl(protocol: string, rest: string): (r: Option<Url>)
    ensures r.Some? ==> r.value.protocol == protocol
    ensures r.Some? ==> ValidHost(r.value.hostname) && IsLowerCase(r.value.hostname)
    ensures r.Some? ==> |r.value.pathname| > 0 && r.value.pathname[0] == '/'
  {
    var afterSlashes := DropSlashes(rest);
    var authority := UpTo(afterSlashes, SpecialAuthorityEnd);
    var hostPort := HostOf(authority);
    if !ValidHost(hostPort.0) || !ValidPort(hostPort.1) then None
    else
      var pathSearch := SpecialPathAndSearch(afterSlashes[|authority|..]);
      LowerIsLowerCase(hostPort.0);
      LowerKeepsValidHost(hostPort.0);
      Some(Url(protocol, Lower(hostPort.0), pathSearch.0, pathSearch.1))
  }

  /** A `file:` URL: the host is optional. */
  function ParseFileUrl(protocol: string, rest: string): (r: Url)
    ensures r.protocol == protocol
  {
    var hasHost := StartsWith(rest, "//");
    var tail := if hasHost then rest[2..] else rest;
    var authority := if hasHost then UpTo(tail, SpecialAuthorityEnd) else "";
    var pathSearch := SplitQuery(tail[|authority|..]);
    Url(protocol, Lower(authority), if pathSearch.0 == [] then "/" else Backslashes(pathSearch.0), pathSearch.1)
  }

  /** A URL with any other scheme: the host is optional and kept as written, and the
      path is taken as it is. */
  function ParseOpaqueUrl(protocol: string, rest: string): (r: Url)
    ensures r.protocol == protocol
  {
    var hasHost := StartsWith(rest, "//");
    var tail := if hasHost then rest[2..] else rest;
    var authority := if hasHost then UpTo(tail, OpaqueAuthorityEnd) else "";
    var (path, search) := SplitQuery(tail[|authority|..]);
    Url(protocol, HostOf(authority).0, path, search)
  }

  /** A C0 control or a space: the characters `new URL` strips from both ends. */
  predicate IsC0OrSpace(c: char) {
    c <= ' '
  }

  /** A tab or a newline: the characters `new URL` removes wherever they are. */
  predicate IsTabOrNewline(c: char) {
    c == '\t' || c == '\n' || c == '\r'
  }

  /** A string with no C0 control and no space in it. */
  predicate Visible(s: string) {
    forall j :: 0 <= j < |s| ==> !IsC0OrSpace(s[j])
  }

  /** `s` less its leading C0 controls and spaces. */
  function TrimStart(s: string): (r: string)
    ensures EndsWith(s, r)
    ensures r == [] || !IsC0OrSpace(r[0])
    ensures forall j :: 0 <= j < |s| - |r| ==> IsC0OrSpace(s[j])
    decreases |s|
  {
    if s != [] && IsC0OrSpace(s[0]) then
      var r := TrimStart(s[1..]);
      assert s[1..][|s| - 1 - |r|..] == s[|s| - |r|..];
      assert forall j :: 1 <= j < |s| - |r| ==> s[j] == s[1..][j - 1];
      r
    else s
  }

  /** `s` less its trailing C0 controls and spaces. */
  function TrimEnd(s: string): (r: string)
    ensures StartsWith(s, r)
    ensures r == [] || !IsC0OrSpace(r[|r| - 1])
    ensures forall j :: |r| <= j < |s| ==> IsC0OrSpace(s[j])
    decreases |s|
  {
    if s != [] && IsC0OrSpace(s[|s| - 1]) then
      var r := TrimEnd(s[..|s| - 1]);
      assert forall j :: |r| <= j < |s| - 1 ==> s[j] == s[..|s| - 1][j];
      r
    else s
  }

  /** `s` with every tab and newline taken out. */
  function RemoveTabsAndNewlines(s: string): (r: string)
    ensures |r| <= |s|
    ensures forall j :: 0 <= j < |r| ==> !IsTabOrNewline(r[j])
    ensures (forall j :: 0 <= j < |s| ==> !IsTabOrNewline(s[j])) ==> r == s
  {
    if s == [] then []
    else
      var rest := RemoveTabsAndNewlines(s[1..]);
      assert forall j :: 0 <= j < |s[1..]| ==> s[1..][j] == s[j + 1];
      (if IsTabOrNewline(s[0]) then [] else [s[0]]) + rest
  }

  /** What `new URL` parses: the input with C0 controls and spaces stripped from
      both ends, then every tab and newline removed. */
  function Prepare(s: string): string {
    RemoveTabsAndNewlines(TrimEnd(TrimStart(s)))
  }

  /** The preparation holds no tab or newline, and leaves a string with no control
      character or space as it is. */
  lemma PrepareSpec(s: string)
    ensures forall j :: 0 <= j < |Prepare(s)| ==> !IsTabOrNewline(Prepare(s)[j])
    ensures Visible(s) ==> Prepare(s) == s
  {
    if Visible(s) {
      assert TrimStart(s) == s by {
        if s != [] { assert !IsC0OrSpace(s[0]); }
      }
      assert TrimEnd(s) == s by {
        if s != [] { assert !IsC0OrSpace(s[|s| - 1]); }
      }
      assert forall j :: 0 <= j < |s| ==> !IsTabOrNewline(s[j]) by {
        forall j | 0 <= j < |s| ensures !IsTabOrNewline(s[j]) {
          assert !IsC0OrSpace(s[j]);
        }
      }
    }
  }

  /** The parse of a prepared string: `None` where the constructor throws. */
  function ParseCleanUrl(s: string): (r: Option<Url>)
    ensures SchemeEnd(s).None? ==> r.None?
    ensures r.Some? ==> r.value.protocol == Lower(s[..SchemeEnd(s).value]) + ":"
    ensures r.Some? && Lower(s[..SchemeEnd(s).value]) in HostSchemes ==>
              ValidHost(r.value.hostname) && IsLowerCase(r.value.hostname) &&
              |r.value.pathname| > 0 && r.value.pathname[0] == '/'
  {
    match SchemeEnd(s)
    case None => None
    case Some(i) =>
      var scheme := Lower(s[..i]);
      if scheme in HostSchemes then ParseHostUrl(scheme + ":", s[i + 1..])
      else if scheme == "file" then Some(ParseFileUrl(scheme + ":", s[i + 1..]))
      else Some(ParseOpaqueUrl(scheme + ":", s[i + 1..]))
  }

  /** `new URL(s)`: `None` where the constructor throws. */
  function ParseUrl(s: string): (r: Option<Url>)
    ensures var p := Prepare(s);
            && (SchemeEnd(p).None? ==> r.None?)
            && (r.Some? ==> r.value.protocol == Lower(p[..SchemeEnd(p).value]) + ":")
            && (r.Some? && Lower(p[..SchemeEnd(p).value]) in HostSchemes ==>
                  ValidHost(r.value.hostname) && IsLowerCase(r.value.hostname) &&
                  |r.value.pathname| > 0 && r.value.pathname[0] == '/')
  {
    ParseCleanUrl(Prepare(s))
  }

  /** Every protocol the parser yields is a lower-case scheme followed by `:`. */
  lemma ProtocolShape(s: string)
    requires ParseUrl(s).Some?
    ensures |ParseUrl(s).value.protocol| >= 2
    ensures EndsWith(ParseUrl(s).value.protocol, ":")
    ensures IsLowerCase(ParseUrl(s).value.protocol)
  {
    var p := Prepare(s);
    var i := SchemeEnd(p).value;
    LowerIsLowerCase(p[..i]);
  }

  /** A URL that starts with one of the host schemes is parsed as a host URL. */
  lemma HostSchemeDispatch(scheme: string, rest: string)
    requires scheme in HostSchemes
    ensures SchemeEnd(scheme + ":" + rest) == Some(|scheme|)
    ensures ParseCleanUrl(scheme + ":" + rest) == ParseHostUrl(scheme + ":", rest)
  {
    var s := scheme + ":" + rest;
    var n := |scheme|;
    assert ':' !in scheme && IsAsciiAlpha(scheme[0]) && forall j :: 0 < j < n ==> IsSchemeChar(scheme[j]);
    assert s == scheme + (":" + rest);
    IndexOfAfter(scheme, ":" + rest, ':');
    assert s[..n] == scheme && s[n + 1..] == rest;
    LowerOfLowerCase(scheme);
  }

  /** A path and a query with no fragment are split back into themselves. */
  lemma PathAndSearchForm(path: string, query: string)
    requires path == [] || path[0] == '/'
    requires forall j :: 0 <= j < |path| ==> path[j] != '?' && path[j] != '#' && path[j] != '\\'
    requires forall j :: 0 <= j < |query| ==> query[j] != '#'
    ensures var q := if query == [] then [] else "?" + query;
            SpecialPathAndSearch(path + q) == (if path == [] then "/" else path, q)
  {
    var q := if query == [] then [] else "?" + query;
    var tail := path + q;
    assert Backslashes(path) == path;
    assert '#' !in tail by {
      if q != [] { assert q[1..] == query; }
    }
    assert Before(tail, '#') == tail;
    IndexOfAfter(path, q, '?');
    assert tail[..|path|] == path;
    if q != [] {
      assert tail[|path|..] == q;
    }
  }

  /** `ParseHostUrl` unfolded at given intermediate values. */
  lemma HostUrlSteps(protocol: string, rest: string, after: string, host: string)
    requires DropSlashes(rest) == after
    requires UpTo(after, SpecialAuthorityEnd) == host
    requires HostOf(host) == (host, "")
    requires ValidHost(host)
    ensures ParseHostUrl(protocol, rest) ==
            Some(Url(protocol, Lower(host), SpecialPathAndSearch(after[|host|..]).0,
                     SpecialPathAndSearch(after[|host|..]).1))
  {
  }

  lemma DropTwoSlashes(a: string)
    requires a == [] || (a[0] != '/' && a[0] != '\\')
    ensures DropSlashes("//" + a) == a
  {
    var s1 := "//" + a;
    var s2 := "/" + a;
    assert s1[0] == '/' && s1[1..] == s2;
    assert DropSlashes(s1) == DropSlashes(s2);
    assert s2[0] == '/' && s2[1..] == a;
    assert DropSlashes(s2) == DropSlashes(a);
  }

  lemma UpToHost(host: string, tail: string)
    requires forall j :: 0 <= j < |host| ==> host[j] !in SpecialAuthorityEnd
    requires tail == [] || tail[0] in SpecialAuthorityEnd
    ensures UpTo(host + tail, SpecialAuthorityEnd) == host
  {
    IndexOfAnyAfter(host, tail, SpecialAuthorityEnd);
    assert (host + tail)[..|host|] == host;
  }

  lemma PlainHostOf(host: string)
    requires forall j :: 0 <= j < |host| ==> host[j] != '@' && host[j] != ':'
    ensures HostOf(host) == (host, "")
  {
    assert '@' !in host && ':' !in host;
    assert LastIndexOf(host, '@') == None;
    assert Before(host, ':') == host;
    assert host[|host|..] == "";
  }

  /** After `//`, a plain host followed by a path and a query. */
  lemma HostUrlForm(protocol: string, host: string, path: string, query: string)
    requires ValidHost(host)
    requires forall j :: 0 <= j < |host| ==> host[j] !in SpecialAuthorityEnd && host[j] != '@' && host[j] != ':'
    requires path == [] || path[0] == '/'
    requires forall j :: 0 <= j < |path| ==> path[j] != '?' && path[j] != '#' && path[j] != '\\'
    requires forall j :: 0 <= j < |query| ==> query[j] != '#'
    ensures var q := if query == [] then [] else "?" + query;
            ParseHostUrl(protocol, "//" + host + path + q) ==
            Some(Url(protocol, Lower(host), if path == [] then "/" else path, q))
  {
    var q := if query == [] then [] else "?" + query;
    var tail := path + q;
    var after := host + tail;
    assert "//" + host + path + q == "//" + after;
    assert host[0] !in SpecialAuthorityEnd;
    DropTwoSlashes(after);
    assert tail == [] || tail[0] in SpecialAuthorityEnd by {
      if path != [] { assert tail[0] == path[0]; }
      else if q != [] { assert tail[0] == q[0]; }
    }
    UpToHost(host, tail);
    PlainHostOf(host);
    var rest := "//" + after;
    HostUrlSteps(protocol, rest, after, host);
    assert after[|host|..] == tail;
    PathAndSearchForm(path, query);
    var expected := Url(protocol, Lower(host), if path == [] then "/" else path, q);
    assert ParseHostUrl(protocol, rest) == Some(expected);
    assert rest == "//" + host + path + q;
  }

  /** `scheme://host/path?query` with a plain host parses into exactly those parts. */
  lemma ParseHostForm(scheme: string, host: string, path: string, query: string)
    requires scheme in HostSchemes
    requires ValidHost(host) && Visible(host) && Visible(path) && Visible(query)
    requires forall j :: 0 <= j < |host| ==> host[j] !in SpecialAuthorityEnd && host[j] != '@' && host[j] != ':'
    requires path == [] || path[0] == '/'
    requires forall j :: 0 <= j < |path| ==> path[j] != '?' && path[j] != '#' && path[j] != '\\'
    requires forall j :: 0 <= j < |query| ==> query[j] != '#'
    ensures ParseUrl(scheme + "://" + host + path + (if query == [] then [] else "?" + query)) ==
            Some(Url(scheme + ":", Lower(host), if path == [] then "/" else path,
                     if query == [] then [] else "?" + query))
  {
    var q := if query == [] then [] else "?" + query;
    var rest := "//" + host + path + q;
    HostSchemeDispatch(scheme, rest);
    HostUrlForm(scheme + ":", host, path, query);
    var expected := Url(scheme + ":", Lower(host), if path == [] then "/" else path, q);
    assert ParseCleanUrl(scheme + ":" + rest) == Some(expected);
    SchemeSlashes(scheme, host, path, q);
    VisibleForm(scheme, host, path, query);
    PrepareSpec(scheme + "://" + host + path + q);
  }

  /** The text of such a URL has no control character or space. */
  lemma VisibleForm(scheme: string, host: string, path: string, query: string)
    requires scheme in HostSchemes && Visible(host) && Visible(path) && Visible(query)
    ensures Visible(scheme + "://" + host + path + (if query == [] then [] else "?" + query))
  {
    assert Visible(scheme);
    var q := if query == [] then [] else "?" + query;
    var s := scheme + "://" + host + path + q;
    forall j | 0 <= j < |s| ensures !IsC0OrSpace(s[j]) {
      var a := |scheme|;
      var b := a + 3 + |host|;
      var c := b + |path|;
      if j < a { assert s[j] == scheme[j]; }
      else if j < a + 3 { assert s[j] == "://"[j - a]; }
      else if j < b { assert s[j] == host[j - a - 3]; }
      else if j < c { assert s[j] == path[j - b]; }
      else if j == c { assert s[j] == '?'; }
      else { assert s[j] == query[j - c - 1]; }
    }
  }

  lemma SchemeSlashes(scheme: string, host: string, path: string, q: string)
    ensures scheme + "://" + host + path + q == scheme + ":" + ("//" + host + path + q)
  {
    assert "://" == ":" + "//";
  }
}
