/** `GET /api/proxy?url=...` (server/api/proxy.get.ts): a media proxy that only
    forwards https requests to the Instagram and Facebook CDNs, checks what comes
    back, and passes a fixed set of headers through. */
module Proxy {
  import opened Wrappers
  import opened Strings
  import opened Urls

  // ---------------------------------------------------------------- host allow-list

  predicate IsLabelChar(c: char) {
    IsAsciiAlpha(c) || IsAsciiDigit(c) || c == '-'
  }

  /** A match of `[a-zA-Z0-9-]+` */
  predicate IsLabel(t: string) {
    |t| > 0 && forall j :: 0 <= j < |t| ==> IsLabelChar(t[j])
  }

  /** `s` matches `^([a-zA-Z0-9-]+\.)*base$` with the `i` flag, for a lower-case
      `base`: either `s` is `base`, or it starts with a label ended by its first
      dot and the rest matches. Labels hold no dot, so the first dot is the only
      place the first label can end. */
  predicate MatchesLabels(s: string, base: string)
    decreases |s|
  {
    || Lower(s) == base
    || match IndexOf(s, '.')
       case None => false
       case Some(k) => IsLabel(s[..k]) && MatchesLabels(s[k + 1..], base)
  }

  const FbCdn: string := "fbcdn.net"
  const CdnInstagram: string := "cdninstagram.com"

  /** `isAllowedHost(hostname)` */
  predicate IsAllowedHost(hostname: string) {
    MatchesLabels(hostname, FbCdn) || MatchesLabels(hostname, CdnInstagram)
  }

  /** A run of zero or more labels, each followed by a dot: `([a-zA-Z0-9-]+\.)*`. */
  predicate DottedLabels(t: string)
    decreases |t|
  {
    || t == []
    || match IndexOf(t, '.')
       case None => false
       case Some(k) => IsLabel(t[..k]) && DottedLabels(t[k + 1..])
  }

  /** The first `c` of `s` is at `j` when `s[j]` is `c` and nothing before it is. */
  lemma IndexOfAt(s: string, c: char, j: nat)
    requires j < |s| && s[j] == c && c !in s[..j]
    ensures IndexOf(s, c) == Some(j)
  {
    assert s == s[..j] + s[j..];
    IndexOfAfter(s[..j], s[j..], c);
  }

  /** The first dot of `first.t`, for a `first` without dots, ends `first`. */
  lemma FirstDot(first: string, t: string)
    requires '.' !in first
    ensures var s := first + "." + t;
            IndexOf(s, '.') == Some(|first|) && s[..|first|] == first && s[|first| + 1..] == t
  {
    var s := first + "." + t;
    assert s == first + ("." + t);
    IndexOfAfter(first, "." + t, '.');
    assert s[..|first|] == first;
    assert s[|first| + 1..] == t;
  }

  /** Cutting a string at a dot. */
  lemma DotSplit(s: string, d: nat, k: nat)
    requires d < k <= |s| && s[d] == '.'
    ensures s[..k] == s[..d] + "." + s[d + 1..k]
  {
  }

  lemma LabelHasNoDot(t: string)
    requires IsLabel(t)
    ensures '.' !in t
  {
    assert forall j :: 0 <= j < |t| ==> t[j] != '.';
  }

  /** Where the dotted-labels part of a match ends: the regular expression read as
      "a run of labels, then `base`", forwards. */
  lemma {:induction false} MatchesLabelsSplit(s: string, base: string)
    requires MatchesLabels(s, base)
    ensures exists k :: 0 <= k <= |s| && DottedLabels(s[..k]) && Lower(s[k..]) == base
    decreases |s|
  {
    if Lower(s) == base {
      assert s[..0] == [] && s[0..] == s;
    } else {
      var d := IndexOf(s, '.').value;
      var rest := s[d + 1..];
      MatchesLabelsSplit(rest, base);
      var k' :| 0 <= k' <= |rest| && DottedLabels(rest[..k']) && Lower(rest[k'..]) == base;
      var k := LabelThenRun(s, d, k');
      assert Lower(s[k..]) == base;
    }
  }

  /** The forward step: the first label of `s`, its dot and a run of `k'` more
      characters of labels make a run of `d + 1 + k'` characters. */
  lemma LabelThenRun(s: string, d: nat, k': nat) returns (k: nat)
    requires IndexOf(s, '.') == Some(d) && IsLabel(s[..d])
    requires k' <= |s[d + 1..]| && DottedLabels(s[d + 1..][..k'])
    ensures k == d + 1 + k' && k <= |s| && DottedLabels(s[..k]) && s[k..] == s[d + 1..][k'..]
  {
    k := d + 1 + k';
    var rest := s[d + 1..];
    DotSplit(s, d, k);
    assert rest[..k'] == s[d + 1..k];
    ConsDotted(s[..d], rest[..k']);
  }

  /** A label and a dot in front of a run of labels make a longer run. */
  lemma ConsDotted(first: string, t: string)
    requires IsLabel(first) && DottedLabels(t)
    ensures DottedLabels(first + "." + t)
  {
    LabelHasNoDot(first);
    FirstDot(first, t);
  }

  /** The same reading, backwards: a run of labels followed by `base` matches. */
  lemma {:induction false} SplitMatchesLabels(s: string, base: string, k: nat)
    requires k <= |s| && DottedLabels(s[..k]) && Lower(s[k..]) == base
    ensures MatchesLabels(s, base)
    decreases k
  {
    if k == 0 {
      assert s[0..] == s;
    } else {
      var d := RunStartsWithLabel(s, k);
      SplitMatchesLabels(s[d + 1..], base, k - d - 1);
    }
  }

  /** The backward step: a non-empty run of labels at the front of `s` starts with
      the first label of `s`, and what follows its dot is a shorter run. */
  lemma RunStartsWithLabel(s: string, k: nat) returns (d: nat)
    requires 0 < k <= |s| && DottedLabels(s[..k])
    ensures d < k && IndexOf(s, '.') == Some(d) && IsLabel(s[..d])
    ensures k - d - 1 <= |s[d + 1..]| && DottedLabels(s[d + 1..][..k - d - 1])
    ensures s[d + 1..][k - d - 1..] == s[k..]
  {
    var t := s[..k];
    d := IndexOf(t, '.').value;
    var first := t[..d];
    LabelHasNoDot(first);
    var rest := s[d + 1..];
    assert s == first + "." + rest;
    FirstDot(first, rest);
    assert rest[..k - d - 1] == t[d + 1..];
    assert rest[k - d - 1..] == s[k..];
  }

  /** The allow-list in the regular expression's own terms: a host is allowed
      exactly when it is a run of labels followed by `fbcdn.net` or
      `cdninstagram.com`, in any case. */
  lemma AllowedHostIff(h: string)
    ensures IsAllowedHost(h) <==>
              exists k :: 0 <= k <= |h| && DottedLabels(h[..k]) &&
                          (Lower(h[k..]) == FbCdn || Lower(h[k..]) == CdnInstagram)
  {
    if MatchesLabels(h, FbCdn) { MatchesLabelsSplit(h, FbCdn); }
    if MatchesLabels(h, CdnInstagram) { MatchesLabelsSplit(h, CdnInstagram); }
    if k :| 0 <= k <= |h| && DottedLabels(h[..k]) && (Lower(h[k..]) == FbCdn || Lower(h[k..]) == CdnInstagram) {
      if Lower(h[k..]) == FbCdn { SplitMatchesLabels(h, FbCdn, k); }
      else { SplitMatchesLabels(h, CdnInstagram, k); }
    }
  }

  /** Every match is `base` itself or ends in `.base`: no host merely ending in the
      letters of `base` gets through. */
  lemma {:induction false} MatchesLabelsUnder(s: string, base: string)
    requires MatchesLabels(s, base)
    ensures Lower(s) == base || EndsWith(Lower(s), "." + base)
    decreases |s|
  {
    if Lower(s) != base {
      var d := IndexOf(s, '.').value;
      var rest := s[d + 1..];
      MatchesLabelsUnder(rest, base);
      assert s == s[..d + 1] + rest;
      LowerConcat(s[..d + 1], rest);
      var x := Lower(s[..d + 1]);
      assert x[d] == '.';
      if Lower(rest) == base {
        DotThenBase(x, base);
      } else {
        EndsWithAppend(x, Lower(rest), "." + base);
      }
    }
  }

  lemma DotThenBase(x: string, base: string)
    requires x != [] && x[|x| - 1] == '.'
    ensures EndsWith(x + base, "." + base)
  {
    assert (x + base)[|x| - 1..] == "." + base;
  }

  lemma EndsWithAppend(x: string, y: string, suffix: string)
    requires EndsWith(y, suffix)
    ensures EndsWith(x + y, suffix)
  {
    assert (x + y)[|x + y| - |suffix|..] == y[|y| - |suffix|..];
  }

  /** Putting a label in front of an allowed host keeps it allowed. */
  lemma PrependLabel(first: string, s: string, base: string)
    requires IsLabel(first) && MatchesLabels(s, base)
    ensures MatchesLabels(first + "." + s, base)
  {
    LabelHasNoDot(first);
    FirstDot(first, s);
  }

  /** The contrapositive of `MatchesLabelsUnder`. */
  lemma MatchesLabelsUnderImplication(s: string, base: string)
    ensures MatchesLabels(s, base) ==> Lower(s) == base || EndsWith(Lower(s), "." + base)
  {
    if MatchesLabels(s, base) { MatchesLabelsUnder(s, base); }
  }

  /** A host that is not `base` and has no dot just before its last `|base|`
      characters does not match: it merely ends in the letters of `base`. */
  lemma NoDotBeforeBase(s: string, base: string)
    requires |s| != |base|
    requires |s| > |base| ==> s[|s| - |base| - 1] != '.'
    ensures !MatchesLabels(s, base)
  {
    MatchesLabelsUnderImplication(s, base);
    if |s| > |base| {
      assert Lower(s)[|s| - |base| - 1] == LowerChar(s[|s| - |base| - 1]) != '.';
      assert Lower(s)[|s| - |base| - 1..][0] != '.';
    }
  }

  lemma DomainsAreLowerCase()
    ensures IsLowerCase(FbCdn) && IsLowerCase(CdnInstagram)
  {
  }

  /** A lower-case domain matches itself. */
  lemma MatchesItself(base: string)
    requires IsLowerCase(base)
    ensures MatchesLabels(base, base)
  {
    LowerOfLowerCase(base);
  }

  /** A host whose last letter differs from that of `base` does not match. */
  lemma LastLetterDiffers(s: string, base: string)
    requires base != [] && s != [] && LowerChar(s[|s| - 1]) != base[|base| - 1]
    ensures !MatchesLabels(s, base)
  {
    LastLetterBlocks(Lower(s), base);
    MatchesLabelsUnderImplication(s, base);
  }

  /** A string whose last letter differs from that of `base` is neither `base` nor
      ends in `.base`. */
  lemma LastLetterBlocks(l: string, base: string)
    requires base != [] && l != [] && l[|l| - 1] != base[|base| - 1]
    ensures l != base && !EndsWith(l, "." + base)
  {
    EndsWithLast(l, "." + base);
    assert ("." + base)[|base|] == base[|base| - 1];
  }

  lemma EndsWithLast(a: string, b: string)
    ensures EndsWith(a, b) && b != [] ==> a[|a| - 1] == b[|b| - 1]
  {
  }

  /** Glueing letters in front of an allowed domain does not give an allowed host:
      the glued part must end with a dot. */
  lemma RejectsGlued(x: string)
    requires x != [] && x[|x| - 1] != '.'
    ensures !IsAllowedHost(x + FbCdn)
    ensures !IsAllowedHost(x + CdnInstagram)
  {
    var s := x + FbCdn;
    assert s[|s| - |FbCdn| - 1] == x[|x| - 1];
    NoDotBeforeBase(s, FbCdn);
    assert s[|s| - 1] == 't';
    LastLetterDiffers(s, CdnInstagram);
    var t := x + CdnInstagram;
    assert t[|t| - |CdnInstagram| - 1] == x[|x| - 1];
    NoDotBeforeBase(t, CdnInstagram);
    assert t[|t| - 1] == 'm';
    LastLetterDiffers(t, FbCdn);
  }

  /** Look-alike hosts are rejected. */
  lemma RejectsLookalikes()
    ensures !IsAllowedHost("evilfbcdn.net")
    ensures !IsAllowedHost("attacker.com")
  {
    RejectsHost("evilfbcdn.net");
    RejectsHost("attacker.com");
  }

  /** A host of neither domain's length, with no dot where either would start. */
  lemma RejectsHost(h: string)
    requires |h| != |FbCdn| && |h| != |CdnInstagram|
    requires |h| > |FbCdn| ==> h[|h| - |FbCdn| - 1] != '.'
    requires |h| > |CdnInstagram| ==> h[|h| - |CdnInstagram| - 1] != '.'
    ensures !IsAllowedHost(h)
  {
    NoDotBeforeBase(h, FbCdn);
    NoDotBeforeBase(h, CdnInstagram);
  }

  /** A subdomain of either domain, of any depth, is accepted. */
  lemma AcceptsSubdomains(first: string, s: string)
    requires IsLabel(first) && IsAllowedHost(s)
    ensures IsAllowedHost(first + "." + s)
    ensures IsAllowedHost(first + "." + FbCdn) && IsAllowedHost(first + "." + CdnInstagram)
  {
    if MatchesLabels(s, FbCdn) { PrependLabel(first, s, FbCdn); }
    else { PrependLabel(first, s, CdnInstagram); }
    DomainsAreLowerCase();
    MatchesItself(FbCdn);
    PrependLabel(first, FbCdn, FbCdn);
    MatchesItself(CdnInstagram);
    PrependLabel(first, CdnInstagram, CdnInstagram);
  }

  // ---------------------------------------------------------------- media extensions

  /** `extIsAllowedFromUrl(u)`: the lower-cased path and query end in a media
      extension. */
  predicate ExtIsAllowedFromUrl(u: Url) {
    var p := Lower(u.pathname + u.search);
    || EndsWith(p, ".mp4") || EndsWith(p, ".webm") || EndsWith(p, ".mov")
    || EndsWith(p, ".jpg") || EndsWith(p, ".jpeg") || EndsWith(p, ".png")
    || EndsWith(p, ".webp")
  }

  /** The Content-Type chosen from the path: the first of the `includes` tests that
      holds. */
  function TypeFromPath(p: string): Option<string> {
    if Contains(p, ".mp4") then Some("video/mp4")
    else if Contains(p, ".webm") then Some("video/webm")
    else if Contains(p, ".mov") then Some("video/quicktime")
    else if Contains(p, ".jpg") || Contains(p, ".jpeg") then Some("image/jpeg")
    else if Contains(p, ".png") then Some("image/png")
    else if Contains(p, ".webp") then Some("image/webp")
    else None
  }

  /** Extensions and the types they stand for, in order of precedence. */
  const TypeTable: seq<(string, string)> := [
    (".mp4", "video/mp4"), (".webm", "video/webm"), (".mov", "video/quicktime"),
    (".jpg", "image/jpeg"), (".jpeg", "image/jpeg"), (".png", "image/png"),
    (".webp", "image/webp")]

  /** The type of the first entry of `table` whose extension occurs in `p`. */
  function FirstIncluded(p: string, table: seq<(string, string)>): Option<string> {
    if table == [] then None
    else if Contains(p, table[0].0) then Some(table[0].1)
    else FirstIncluded(p, table[1..])
  }

  /** `FirstIncluded` finds nothing exactly when no extension of the table occurs,
      and otherwise answers the type of the earliest one that does. */
  lemma {:induction false} FirstIncludedSpec(p: string, table: seq<(string, string)>)
    ensures var r := FirstIncluded(p, table);
            && (r.None? <==> forall i :: 0 <= i < |table| ==> !Contains(p, table[i].0))
            && (r.Some? ==> exists i :: 0 <= i < |table| && Contains(p, table[i].0) && r.value == table[i].1 &&
                                        forall j :: 0 <= j < i ==> !Contains(p, table[j].0))
  {
    if table != [] && !Contains(p, table[0].0) {
      FirstIncludedSpec(p, table[1..]);
      assert forall i :: 1 <= i < |table| ==> table[i] == table[1..][i - 1];
      var r := FirstIncluded(p, table[1..]);
      if r.Some? {
        var i :| 0 <= i < |table[1..]| && Contains(p, table[1..][i].0) && r.value == table[1..][i].1 &&
                 forall j :: 0 <= j < i ==> !Contains(p, table[1..][j].0);
        assert table[i + 1] == table[1..][i];
      }
    } else if table != [] {
      assert Contains(p, table[0].0);
    }
  }

  /** The synthesis chain is the first match in the precedence table. */
  lemma TypeFromPathIsFirstIncluded(p: string)
    ensures TypeFromPath(p) == FirstIncluded(p, TypeTable)
  {
    var t := TypeTable;
    FirstIncludedCons(p, t);
    FirstIncludedCons(p, t[1..]);
    FirstIncludedCons(p, t[2..]);
    assert t[2..][1..] == t[3..];
    FirstIncludedCons(p, t[3..]);
    assert t[3..][1..] == t[4..];
    FirstIncludedCons(p, t[4..]);
    assert t[4..][1..] == t[5..];
    FirstIncludedCons(p, t[5..]);
    assert t[5..][1..] == t[6..];
    FirstIncludedCons(p, t[6..]);
    assert t[6..][1..] == [];
  }

  lemma FirstIncludedCons(p: string, table: seq<(string, string)>)
    requires table != []
    ensures FirstIncluded(p, table) ==
              if Contains(p, table[0].0) then Some(table[0].1) else FirstIncluded(p, table[1..])
  {
  }

  /** A path ending in one of the seven media extensions gets a synthesised type. */
  lemma MediaSuffixGetsType(p: string)
    requires || EndsWith(p, ".mp4") || EndsWith(p, ".webm") || EndsWith(p, ".mov")
             || EndsWith(p, ".jpg") || EndsWith(p, ".jpeg") || EndsWith(p, ".png")
             || EndsWith(p, ".webp")
    ensures TypeFromPath(p).Some?
  {
    if EndsWith(p, ".mp4") { EndsWithContains(p, ".mp4"); }
    else if EndsWith(p, ".webm") { EndsWithContains(p, ".webm"); }
    else if EndsWith(p, ".mov") { EndsWithContains(p, ".mov"); }
    else if EndsWith(p, ".jpg") { EndsWithContains(p, ".jpg"); }
    else if EndsWith(p, ".jpeg") { EndsWithContains(p, ".jpeg"); }
    else if EndsWith(p, ".png") { EndsWithContains(p, ".png"); }
    else { EndsWithContains(p, ".webp"); }
  }

  /** Whenever the URL passes the extension test, a Content-Type is synthesised. */
  lemma AllowedExtGetsType(u: Url)
    requires ExtIsAllowedFromUrl(u)
    ensures TypeFromPath(Lower(u.pathname + u.search)).Some?
  {
    MediaSuffixGetsType(Lower(u.pathname + u.search));
  }

  // ---------------------------------------------------------------- request validation

  /** The checks made before anything is fetched, in order: only GET and HEAD
      (the request method `verb`, GET when unset or empty, in any case), a non-empty `url` query string that
      parses, the https scheme, an allowed host. The result is the upper-cased
      method and the parsed target. */
  function Validate(verb: Option<string>, url: Option<string>): (r: Result<(string, Url)>)
    ensures var m := Upper(if Truthy(verb) then verb.value else "GET");
            && (m != "GET" && m != "HEAD" ==> r == Err(HttpError(405, "Method Not Allowed")))
            && ((m == "GET" || m == "HEAD") && (url.None? || url.value == "") ==>
                  r == Err(HttpError(400, "Missing url")))
            && ((m == "GET" || m == "HEAD") && url.Some? && url.value != "" && ParseUrl(url.value).None? ==>
                  r == Err(HttpError(400, "Invalid url")))
            && ((m == "GET" || m == "HEAD") && url.Some? && url.value != "" && ParseUrl(url.value).Some? ==>
                  var t := ParseUrl(url.value).value;
                  && (t.protocol != "https:" ==> r == Err(HttpError(400, "Only https is allowed")))
                  && (t.protocol == "https:" && !IsAllowedHost(t.hostname) ==> r == Err(HttpError(403, "Host not allowed")))
                  && (t.protocol == "https:" && IsAllowedHost(t.hostname) ==> r == Ok((m, t))))
  {
    var m := Upper(if Truthy(verb) then verb.value else "GET");
    if m != "GET" && m != "HEAD" then Err(HttpError(405, "Method Not Allowed"))
    else if url.None? || url.value == "" then Err(HttpError(400, "Missing url"))
    else match ParseUrl(url.value)
      case None => Err(HttpError(400, "Invalid url"))
      case Some(t) =>
        if t.protocol != "https:" then Err(HttpError(400, "Only https is allowed"))
        else if !IsAllowedHost(t.hostname) then Err(HttpError(403, "Host not allowed"))
        else Ok((m, t))
  }

  /** The request the handler issues after validation goes to an https URL on one
      of the two CDN domains or a subdomain of one. */
  lemma ValidatedTarget(verb: Option<string>, url: Option<string>)
    ensures Validate(verb, url).Ok? ==>
              var (m, t) := Validate(verb, url).value;
              && (m == "GET" || m == "HEAD")
              && t.protocol == "https:"
              && (t.hostname == FbCdn || EndsWith(t.hostname, "." + FbCdn) ||
                  t.hostname == CdnInstagram || EndsWith(t.hostname, "." + CdnInstagram))
  {
    if Validate(verb, url).Ok? {
      var t := Validate(verb, url).value.1;
      assert ParseUrl(url.value) == Some(t);
      var p := Prepare(url.value);
      var scheme := Lower(p[..SchemeEnd(p).value]);
      assert scheme == (scheme + ":")[..|scheme|];
      assert scheme == "https";
      LowerOfLowerCase(t.hostname);
      if MatchesLabels(t.hostname, FbCdn) { MatchesLabelsUnder(t.hostname, FbCdn); }
      else { MatchesLabelsUnder(t.hostname, CdnInstagram); }
    }
  }


  // ---------------------------------------------------------------- upstream exchange

  /** What the proxy sends upstream (`fetch(target.toString(), { method, headers })`). */
  datatype Request = Request(target: Url, verb: string, headers: map<string, string>)

  /** What comes back: the status, the headers under lower-case names, and whether
      there is a body. */
  datatype Upstream = Upstream(status: nat, headers: map<string, string>, hasBody: bool)

  /** `headers.get(name)` */
  function HeaderGet(h: map<string, string>, name: string): Option<string> {
    if name in h then Some(h[name]) else None
  }

  /** The browser-like request headers, with the client's `range` header when it
      sent one. */
  function UpstreamHeaders(range: Option<string>): (h: map<string, string>)
    ensures h.Keys == {"user-agent", "accept", "referer", "origin", "accept-language"} +
                      (if range.Some? then {"range"} else {})
    ensures range.Some? ==> h["range"] == range.value
    ensures h["referer"] == "https://www.instagram.com/" && h["origin"] == "https://www.instagram.com"
  {
    var base := map[
      "user-agent" := "Mozilla/5.0 (Windows NT 10.0; Win64; x64) AppleWebKit(537.36) Chrome/120.0.0.0 Safari/537.36",
      "accept" := "*/*",
      "referer" := "https://www.instagram.com/",
      "origin" := "https://www.instagram.com",
      "accept-language" := "en-US,en;q=0.9"];
    if range.Some? then base["range" := range.value] else base
  }

  /** `res.ok` or 206 */
  predicate StatusAccepted(status: nat) {
    (200 <= status <= 299) || status == 206
  }

  /** `createError({ statusCode: res.status || 502, ... })` */
  function UpstreamError(status: nat): (f: Failure)
    ensures f.StatusCode() == (if status == 0 then 502 else status)
    ensures f.HttpError? && f.message == "Upstream error " + NatToString(status)
  {
    HttpError(if status == 0 then 502 else status, "Upstream error " + NatToString(status))
  }

  predicate IsOctet(ct: string) {
    StartsWith(ct, "application/octet-stream") || StartsWith(ct, "binary/octet-stream")
  }

  /** The lower-cased upstream Content-Type, empty when absent. */
  function UpstreamType(up: Upstream): (ct: string)
    ensures IsLowerCase(ct)
  {
    LowerIsLowerCase(HeaderGet(up.headers, "content-type").GetOr(""));
    Lower(HeaderGet(up.headers, "content-type").GetOr(""))
  }

  /** The content-type gate. */
  predicate AcceptableType(ct: string, target: Url) {
    StartsWith(ct, "video/") || StartsWith(ct, "image/") || (IsOctet(ct) && ExtIsAllowedFromUrl(target))
  }

  const MaxBytes: nat := 250 * 1024 * 1024

  /** `Number(s)` for a Content-Length value: plain decimal digits give their value;
      anything else is taken as NaN. */
  function NumberOf(s: string): (r: Option<nat>)
    ensures r.Some? <==> s != [] && forall i :: 0 <= i < |s| ==> IsAsciiDigit(s[i])
  {
    if s != [] && forall i :: 0 <= i < |s| ==> IsAsciiDigit(s[i]) then Some(DigitsValue(s)) else None
  }

  /** A Content-Length written as `String(n)` is read back as `n`. */
  lemma NumberOfRoundTrip(n: nat)
    ensures NumberOf(NatToString(n)) == Some(n)
  {
    NatToStringRoundTrip(n);
  }

  /** The size guard: a truthy Content-Length that is a number above 250 MiB. */
  predicate TooLarge(cl: Option<string>) {
    cl.Some? && cl.value != "" && NumberOf(cl.value).Some? && NumberOf(cl.value).value > MaxBytes
  }

  lemma TooLargeLimit(n: nat)
    ensures TooLarge(Some(NatToString(n))) <==> n > 262144000
    ensures !TooLarge(None)
  {
    NumberOfRoundTrip(n);
  }

  // ---------------------------------------------------------------- response headers

  /** The headers passed through, as `(upstream name, response name)`. */
  const HeaderMap: seq<(string, string)> := [
    ("accept-ranges", "Accept-Ranges"), ("content-type", "Content-Type"),
    ("content-length", "Content-Length"), ("content-range", "Content-Range"),
    ("etag", "ETag"), ("last-modified", "Last-Modified"), ("cache-control", "Cache-Control")]

  const DefaultCacheControl: string := "public, max-age=3600"

  /** The upstream headers the loop copies: those of `HeaderMap` with a non-empty
      value, under their response names. */
  function Forwarded(up: map<string, string>): (fwd: map<string, string>)
    ensures forall i :: 0 <= i < |HeaderMap| ==>
              (HeaderMap[i].1 in fwd <==> HeaderMap[i].0 in up && up[HeaderMap[i].0] != "")
    ensures forall i :: 0 <= i < |HeaderMap| && HeaderMap[i].1 in fwd ==> fwd[HeaderMap[i].1] == up[HeaderMap[i].0]
    ensures forall k :: k in fwd ==> exists i :: 0 <= i < |HeaderMap| && HeaderMap[i].1 == k
  {
    ForwardedPrefix(up, |HeaderMap|)
  }

  /** The part of `Forwarded` due to the first `n` entries of `HeaderMap`. */
  function ForwardedPrefix(up: map<string, string>, n: nat): (fwd: map<string, string>)
    requires n <= |HeaderMap|
    ensures forall i :: 0 <= i < n ==>
              (HeaderMap[i].1 in fwd <==> HeaderMap[i].0 in up && up[HeaderMap[i].0] != "")
    ensures forall i :: 0 <= i < n && HeaderMap[i].1 in fwd ==> fwd[HeaderMap[i].1] == up[HeaderMap[i].0]
    ensures forall k :: k in fwd ==> exists i :: 0 <= i < n && HeaderMap[i].1 == k
  {
    if n == 0 then map[]
    else
      var prev := ForwardedPrefix(up, n - 1);
      var (lower, proper) := HeaderMap[n - 1];
      assert forall i :: 0 <= i < n - 1 ==> HeaderMap[i].1 != proper;
      if lower in up && up[lower] != "" then prev[proper := up[lower]] else prev
  }

  /** The response headers: the forwarded ones, Cache-Control defaulted, `Vary:
      Range`, a Content-Type from the URL when upstream sent none or an
      octet-stream one and the URL names a type, and the target host. */
  function ResponseHeaders(up: Upstream, target: Url): map<string, string> {
    var fwd := Forwarded(up.headers);
    var cached := if "Cache-Control" in fwd then fwd else fwd["Cache-Control" := DefaultCacheControl];
    var varied := cached["Vary" := "Range"];
    var synth := TypeFromPath(Lower(target.pathname + target.search));
    var retype := ("Content-Type" !in fwd || IsOctet(UpstreamType(up))) && synth.Some?;
    var typed := if retype then varied["Content-Type" := synth.value] else varied;
    typed["X-Proxy-Host" := target.hostname]
  }

  /** What the response headers hold, header by header. */
  lemma ResponseHeadersSpec(up: Upstream, target: Url)
    ensures var h := ResponseHeaders(up, target);
            && h["Vary"] == "Range"
            && h["X-Proxy-Host"] == target.hostname
            && h["Cache-Control"] == (if Truthy(HeaderGet(up.headers, "cache-control"))
                                     then up.headers["cache-control"] else DefaultCacheControl)
            && (forall k :: k in h ==> k in {"Vary", "X-Proxy-Host", "Accept-Ranges", "Content-Type",
                                              "Content-Length", "Content-Range", "ETag", "Last-Modified",
                                              "Cache-Control"})
            && (forall i :: 1 < i < 6 ==>
                  (HeaderMap[i].1 in h <==> Truthy(HeaderGet(up.headers, HeaderMap[i].0))) &&
                  (HeaderMap[i].1 in h ==> h[HeaderMap[i].1] == up.headers[HeaderMap[i].0]))
            && ("Accept-Ranges" in h <==> Truthy(HeaderGet(up.headers, "accept-ranges")))
            && ("Accept-Ranges" in h ==> h["Accept-Ranges"] == up.headers["accept-ranges"])
  {
    var fwd := Forwarded(up.headers);
    assert HeaderMap[0].1 == "Accept-Ranges" && HeaderMap[6].1 == "Cache-Control";
    forall k | k in fwd
      ensures k in {"Accept-Ranges", "Content-Type", "Content-Length", "Content-Range", "ETag",
                    "Last-Modified", "Cache-Control"}
    {
      var i :| 0 <= i < |HeaderMap| && HeaderMap[i].1 == k;
    }
  }

  /** The Content-Type of the response: upstream's own unless it is missing or an
      octet-stream, in which case the URL's type when it names one. */
  lemma ResponseContentType(up: Upstream, target: Url)
    ensures var h := ResponseHeaders(up, target);
            var synth := TypeFromPath(Lower(target.pathname + target.search));
            var sent := HeaderGet(up.headers, "content-type");
            && (Truthy(sent) && !IsOctet(Lower(sent.value)) ==>
                  "Content-Type" in h && h["Content-Type"] == sent.value)
            && ((!Truthy(sent) || IsOctet(Lower(sent.value))) && synth.Some? ==>
                  "Content-Type" in h && h["Content-Type"] == synth.value)
            && ((!Truthy(sent) || IsOctet(Lower(sent.value))) && synth.None? ==>
                  ("Content-Type" in h <==> Truthy(sent)) && (Truthy(sent) ==> h["Content-Type"] == sent.value))
  {
    ResponseHeadersFrame(up, target);
    var fwd := Forwarded(up.headers);
    assert HeaderMap[1] == ("content-type", "Content-Type");
    assert "Content-Type" in fwd ==> fwd["Content-Type"] == up.headers["content-type"];
  }

  /** The pass-through of the handler: the copied headers, then the
      Cache-Control default, `Vary`, the Content-Type synthesis and `X-Proxy-Host`. */
  method PassHeaders(up: Upstream, target: Url) returns (pass: map<string, string>)
    ensures pass == ResponseHeaders(up, target)
  {
    pass := ForwardHeaders(up.headers);
    ghost var fwd := pass;
    ResponseHeadersFrame(up, target);
    if !Truthy(HeaderGet(pass, "Cache-Control")) {
      pass := pass["Cache-Control" := DefaultCacheControl];
    }
    ghost var cached := pass;
    assert "Vary" !in cached;
    var vary := HeaderGet(pass, "Vary");
    pass := pass["Vary" := if Truthy(vary) then vary.GetOr("") + ", Range" else "Range"];
    assert Truthy(HeaderGet(pass, "Content-Type")) <==> "Content-Type" in fwd;
    var ct := UpstreamType(up);
    if !Truthy(HeaderGet(pass, "Content-Type")) || IsOctet(ct) {
      var synth := TypeFromPath(Lower(target.pathname + target.search));
      if synth.Some? {
        pass := pass["Content-Type" := synth.value];
      }
    }
    pass := pass["X-Proxy-Host" := target.hostname];
  }

  /** The `for` loop over `headerMap`: copy each upstream header with a non-empty
      value under its response name. */
  method ForwardHeaders(up: map<string, string>) returns (fwd: map<string, string>)
    ensures fwd == Forwarded(up)
  {
    fwd := map[];
    for i := 0 to |HeaderMap|
      invariant fwd == ForwardedPrefix(up, i)
    {
      var (lower, proper) := HeaderMap[i];
      var v := HeaderGet(up, lower);
      if Truthy(v) {
        fwd := fwd[proper := v.value];
      }
    }
  }

  /** `Forwarded` only ever holds non-empty values, has no `Vary`, and holds
      Content-Type exactly when upstream sent a non-empty one. */
  lemma ResponseHeadersFrame(up: Upstream, target: Url)
    ensures var fwd := Forwarded(up.headers);
            && "Vary" !in fwd && "X-Proxy-Host" !in fwd
            && (forall k :: k in fwd ==> fwd[k] != "")
            && ("Content-Type" in fwd <==> Truthy(HeaderGet(up.headers, "content-type")))
  {
    var fwd := Forwarded(up.headers);
    assert HeaderMap[1] == ("content-type", "Content-Type");
    forall k | k in fwd ensures k != "Vary" && k != "X-Proxy-Host" && fwd[k] != "" {
      var i :| 0 <= i < |HeaderMap| && HeaderMap[i].1 == k;
    }
  }

  // ---------------------------------------------------------------- the handler

  /** What the client gets: the status, the headers and whether the body is
      streamed. */
  datatype Reply = Reply(status: nat, headers: map<string, string>, streamsBody: bool)

  /** The checks on what came back, and the reply they let through. */
  function Respond(verb: string, target: Url, up: Upstream): (r: Result<Reply>)
    ensures r.Ok? <==> (StatusAccepted(up.status) && AcceptableType(UpstreamType(up), target) &&
                        !TooLarge(HeaderGet(up.headers, "content-length")))
    ensures !StatusAccepted(up.status) ==> r == Err(UpstreamError(up.status))
    ensures StatusAccepted(up.status) && !AcceptableType(UpstreamType(up), target) ==>
              r == Err(HttpError(415, "Unsupported media type"))
    ensures (StatusAccepted(up.status) && AcceptableType(UpstreamType(up), target) &&
             TooLarge(HeaderGet(up.headers, "content-length"))) ==> r == Err(HttpError(413, "Media too large"))
    ensures r.Ok? ==> r.value.status == up.status && r.value.headers == ResponseHeaders(up, target) &&
                      (r.value.streamsBody <==> verb != "HEAD" && up.hasBody)
  {
    if !StatusAccepted(up.status) then Err(UpstreamError(up.status))
    else if !AcceptableType(UpstreamType(up), target) then Err(HttpError(415, "Unsupported media type"))
    else if TooLarge(HeaderGet(up.headers, "content-length")) then Err(HttpError(413, "Media too large"))
    else Ok(Reply(up.status, ResponseHeaders(up, target), verb != "HEAD" && up.hasBody))
  }

  lemma OctetIsNotMedia(ct: string)
    requires IsOctet(ct)
    ensures !StartsWith(ct, "video/") && !StartsWith(ct, "image/")
  {
    assert ct[0] == 'a' || ct[0] == 'b' by {
      assert StartsWith(ct, "application/octet-stream") ==> ct[0] == 'a';
      assert StartsWith(ct, "binary/octet-stream") ==> ct[0] == 'b';
    }
  }

  /** An accepted octet-stream reply always carries a media Content-Type. */
  lemma OctetReplyIsTyped(verb: string, target: Url, up: Upstream)
    requires Respond(verb, target, up).Ok?
    requires IsOctet(UpstreamType(up))
    ensures var synth := TypeFromPath(Lower(target.pathname + target.search));
            var h := Respond(verb, target, up).value.headers;
            synth.Some? && "Content-Type" in h && h["Content-Type"] == synth.value
  {
    OctetIsNotMedia(UpstreamType(up));
    AllowedExtGetsType(target);
    ResponseContentType(up, target);
    var sent := HeaderGet(up.headers, "content-type");
    assert Truthy(sent) ==> IsOctet(Lower(sent.value));
  }

  /** The handler from the upstream reply on: the status check, the two gates and
      the header pass-through. */
  method Relay(verb: string, target: Url, up: Upstream) returns (r: Result<Reply>)
    ensures r == Respond(verb, target, up)
  {
    if !StatusAccepted(up.status) {
      return Err(UpstreamError(up.status));
    }
    var contentType := UpstreamType(up);
    if !AcceptableType(contentType, target) {
      return Err(HttpError(415, "Unsupported media type"));
    }
    var cl := HeaderGet(up.headers, "content-length");
    if Truthy(cl) {
      var size := NumberOf(cl.value);
      if size.Some? && size.value > MaxBytes {
        return Err(HttpError(413, "Media too large"));
      }
    }
    var pass := PassHeaders(up, target);
    r := Ok(Reply(up.status, pass, !(verb == "HEAD" || !up.hasBody)));
  }

  /** The proxy handler. `verb` is the request method (`None` when unset), `url`
      the `url` query parameter when it is a string, `range` the client's Range
      header, and `fetch` the upstream exchange (`None` when it fails). */
  method HandleProxy(verb: Option<string>, url: Option<string>, range: Option<string>,
                     fetch: Request -> Option<Upstream>) returns (r: Result<Reply>)
    ensures match Validate(verb, url)
            case Err(e) => r == Err(e)
            case Ok((m, t)) =>
              match fetch(Request(t, m, UpstreamHeaders(range)))
              case None => r == Err(HttpError(502, "Upstream fetch failed"))
              case Some(up) => r == Respond(m, t, up)
  {
    var checked := Validate(verb, url);
    match checked {
      case Err(e) =>
        return Err(e);
      case Ok((m, target)) =>
        var response := fetch(Request(target, m, UpstreamHeaders(range)));
        match response {
          case None =>
            return Err(HttpError(502, "Upstream fetch failed"));
          case Some(up) =>
            r := Relay(m, target, up);
        }
    }
  }
}
