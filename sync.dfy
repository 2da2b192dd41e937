/** `GET /api/media/sync` (server/api/media/sync.get.ts): the ingestion pass. It
    fetches the dataset, downloads each post's video and thumbnail into the cache
    directories under deterministic names, records the local routes on the posts
    and writes the processed list as a timestamped snapshot and as `latest.json`. */
module Sync {
  import opened Wrappers
  import opened Strings
  import opened Urls
  import opened Paths
  import opened Posts
  import opened JsMaps
  import DataJson

  /** `urlExt(url)`: the lower-cased extension of the URL's path, or nothing when it
      is empty, longer than five characters, or the URL does not parse. */
  function UrlExt(url: string): (e: string)
    ensures e == "" || (e[0] == '.' && |e| <= 5 && IsLowerCase(e) && '/' !in e && '.' !in e[1..])
    ensures ParseUrl(url).None? ==> e == ""
    ensures ParseUrl(url).Some? ==>
              var x := Extname(ParseUrl(url).value.pathname);
              e == (if x != "" && |x| <= 5 then Lower(x) else "")
  {
    match ParseUrl(url)
    case None => ""
    case Some(u) =>
      var x := Extname(u.pathname);
      LowerIsLowerCase(x);
      LowerKeepsExtForm(x);
      if x != "" && |x| <= 5 then Lower(x) else ""
  }

  lemma LowerKeepsExtForm(x: string)
    requires x == [] || (x[0] == '.' && '.' !in x[1..] && '/' !in x)
    ensures var e := Lower(x); e == [] || (e[0] == '.' && '.' !in e[1..] && '/' !in e)
  {
    var e := Lower(x);
    forall i | 0 <= i < |x| ensures (e[i] == '.' <==> x[i] == '.') && (e[i] == '/' <==> x[i] == '/') {
      assert e[i] == LowerChar(x[i]);
    }
    if x != [] {
      assert x[1..] == x[1..];
      forall i | 0 <= i < |e[1..]| ensures e[1..][i] != '.' {
        assert e[1..][i] == e[i + 1] && x[1..][i] == x[i + 1];
      }
    }
  }

  /** The character conditions on the part of an https URL that follows `//`: no
      control character or space, which the parser would strip or, inside the URL,
      percent-encode, and none of the characters that end a component. */
  predicate PlainHost(host: string) {
    ValidHost(host) && Visible(host) &&
    forall j :: 0 <= j < |host| ==> host[j] !in SpecialAuthorityEnd && host[j] != '@' && host[j] != ':'
  }

  predicate PlainPath(path: string) {
    Visible(path) && forall j :: 0 <= j < |path| ==> path[j] != '?' && path[j] != '#' && path[j] != '\\'
  }

  predicate PlainQuery(query: string) {
    Visible(query) && forall j :: 0 <= j < |query| ==> query[j] != '#'
  }

  function Query(query: string): string {
    if query == [] then [] else "?" + query
  }

  lemma HttpsPrefix()
    ensures "https://" == "https" + "://"
  {
  }

  lemma LowerDotExt(x: string)
    ensures Lower("." + x) == "." + Lower(x)
  {
    LowerConcat(".", x);
    assert Lower(".") == ".";
  }

  /** The path of `https://host/path?query` is `path`. */
  lemma HttpsPathname(host: string, path: string, query: string)
    requires PlainHost(host) && PlainQuery(query) && PlainPath(path)
    requires path != [] && path[0] == '/'
    ensures ParseUrl("https://" + host + path + Query(query)).Some?
    ensures ParseUrl("https://" + host + path + Query(query)).value.pathname == path
  {
    ParseHostForm("https", host, path, query);
    HttpsPrefix();
  }

  /** `https://host/dir/stem.x?query`: the extension is `.x` in lower case when it has
      at most four characters after the dot, and nothing when it is longer; the
      query does not enter. */
  lemma UrlExtOfFile(host: string, dir: string, stem: string, x: string, query: string)
    requires PlainHost(host) && PlainQuery(query)
    requires dir == [] || dir[0] == '/'
    requires PlainPath(dir + "/" + stem + "." + x)
    requires stem != [] && '/' !in stem && '.' !in x && '/' !in x && (stem != "." || x != [])
    ensures var path := dir + "/" + stem + "." + x;
            UrlExt("https://" + host + path + Query(query)) == (if |x| <= 4 then "." + Lower(x) else "")
  {
    var path := dir + "/" + stem + "." + x;
    var url := "https://" + host + path + Query(query);
    HttpsPathname(host, path, query);
    ExtnameOfName(dir, stem, x);
    assert Extname(ParseUrl(url).value.pathname) == "." + x;
    LowerDotExt(x);
  }

  /** `https://host/dir/stem?query` with no `.` in the last component has no
      extension, so the download's content type decides it. */
  lemma UrlExtWithoutDot(host: string, dir: string, stem: string, query: string)
    requires PlainHost(host) && PlainQuery(query)
    requires dir == [] || dir[0] == '/'
    requires PlainPath(dir + "/" + stem)
    requires stem != [] && '/' !in stem && '.' !in stem
    ensures var path := dir + "/" + stem; UrlExt("https://" + host + path + Query(query)) == ""
  {
    var path := dir + "/" + stem;
    var url := "https://" + host + path + Query(query);
    assert ParseUrl(url).Some? && ParseUrl(url).value.pathname == path by {
      HttpsPathname(host, path, query);
    }
    assert Extname(path) == "" by {
      BaseNameOfPath(dir, stem);
    }
    NoExtNoUrlExt(url);
  }

  lemma NoExtNoUrlExt(url: string)
    requires ParseUrl(url).Some? && Extname(ParseUrl(url).value.pathname) == ""
    ensures UrlExt(url) == ""
  {
  }

  /** `fallbackVideoExt(ct)`: the extension named by the response's content type. */
  function FallbackVideoExt(ct: Option<string>): (e: string)
    ensures e in Video.Exts()
    ensures !Truthy(ct) ==> e == ".mp4"
    ensures e == ".webm" <==> Truthy(ct) && Contains(ct.value, "webm")
    ensures e == ".mov" <==>
              Truthy(ct) && !Contains(ct.value, "webm") &&
              (Contains(ct.value, "quicktime") || Contains(ct.value, "mov"))
  {
    if !Truthy(ct) then ".mp4"
    else if Contains(ct.value, "webm") then ".webm"
    else if Contains(ct.value, "quicktime") || Contains(ct.value, "mov") then ".mov"
    else ".mp4"
  }

  /** `fallbackImageExt(ct)`: the extension named by the response's content type. */
  function FallbackImageExt(ct: Option<string>): (e: string)
    ensures e in Image.Exts() && e != ".jpeg"
    ensures !Truthy(ct) ==> e == ".jpg"
    ensures e == ".webp" <==> Truthy(ct) && Contains(ct.value, "webp")
    ensures e == ".png" <==> Truthy(ct) && !Contains(ct.value, "webp") && Contains(ct.value, "png")
  {
    if !Truthy(ct) then ".jpg"
    else if Contains(ct.value, "webp") then ".webp"
    else if Contains(ct.value, "png") then ".png"
    else if Contains(ct.value, "jpeg") || Contains(ct.value, "jpg") then ".jpg"
    else ".jpg"
  }

  function FallbackExt(kind: MediaKind, ct: Option<string>): string {
    match kind
    case Video => FallbackVideoExt(ct)
    case Image => FallbackImageExt(ct)
  }

  /** `p` occurs in `top + "/" + p`. */
  lemma ContainsSubtype(top: string, p: string)
    ensures Contains(top + "/" + p, p)
  {
    var s := top + "/" + p;
    assert OccursAt(s, p, |top| + 1);
    ContainsAt(s, p);
  }

  /** The content types the CDN sends for video select the matching extension. */
  lemma VideoTypesSelectExtension()
    ensures FallbackVideoExt(Some("video/mp4")) == ".mp4"
    ensures FallbackVideoExt(Some("video/webm")) == ".webm"
    ensures FallbackVideoExt(Some("video/quicktime")) == ".mov"
  {
    Mp4Type();
    WebmType();
    QuicktimeType();
  }

  lemma Mp4Type()
    ensures FallbackVideoExt(Some("video/mp4")) == ".mp4"
  {
    PlainVideoType("video/mp4");
  }

  lemma WebmType()
    ensures FallbackVideoExt(Some("video/webm")) == ".webm"
  {
    var ct := "video/webm";
    assert ct[6..] == "webm";
    WebmVideoType(ct, 6);
  }

  lemma QuicktimeType()
    ensures FallbackVideoExt(Some("video/quicktime")) == ".mov"
  {
    var ct := "video/quicktime";
    assert ct[6..] == "quicktime";
    QuicktimeVideoType(ct, 6);
  }

  /** A content type that names neither webm nor a QuickTime type falls back to `.mp4`. */
  lemma PlainVideoType(ct: string)
    requires ct != [] && 'w' !in ct && 'q' !in ct
    requires forall k :: 0 <= k < |ct| - 1 ==> ct[k] != 'm' || ct[k + 1] != 'o'
    ensures FallbackVideoExt(Some(ct)) == ".mp4"
  {
    MissingCharNotContained(ct, "webm", 0);
    MissingCharNotContained(ct, "quicktime", 0);
    MissingPairNotContained(ct, "mov");
  }

  /** A content type that names webm selects `.webm`. */
  lemma WebmVideoType(ct: string, k: nat)
    requires OccursAt(ct, "webm", k)
    ensures FallbackVideoExt(Some(ct)) == ".webm"
  {
    ContainsAt(ct, "webm");
  }

  /** A content type that names a QuickTime type and not webm selects `.mov`. */
  lemma QuicktimeVideoType(ct: string, k: nat)
    requires 'w' !in ct && OccursAt(ct, "quicktime", k)
    ensures FallbackVideoExt(Some(ct)) == ".mov"
  {
    MissingCharNotContained(ct, "webm", 0);
    ContainsAt(ct, "quicktime");
  }

  /** The content types the CDN sends for images select the matching extension. */
  lemma ImageTypesSelectExtension()
    ensures FallbackImageExt(Some("image/jpeg")) == ".jpg"
    ensures FallbackImageExt(Some("image/png")) == ".png"
    ensures FallbackImageExt(Some("image/webp")) == ".webp"
  {
    JpegType();
    PngType();
    WebpType();
  }

  lemma JpegType()
    ensures FallbackImageExt(Some("image/jpeg")) == ".jpg"
  {
    PlainImageType("image/jpeg");
  }

  lemma PngType()
    ensures FallbackImageExt(Some("image/png")) == ".png"
  {
    var ct := "image/png";
    assert ct[6..] == "png";
    PngImageType(ct, 6);
  }

  lemma WebpType()
    ensures FallbackImageExt(Some("image/webp")) == ".webp"
  {
    var ct := "image/webp";
    assert ct[6..] == "webp";
    WebpImageType(ct, 6);
  }

  /** A content type that names neither webp nor png falls back to `.jpg`. */
  lemma PlainImageType(ct: string)
    requires ct != [] && 'w' !in ct && 'n' !in ct
    ensures FallbackImageExt(Some(ct)) == ".jpg"
  {
    MissingCharNotContained(ct, "webp", 0);
    MissingCharNotContained(ct, "png", 1);
  }

  /** A content type that names webp selects `.webp`. */
  lemma WebpImageType(ct: string, k: nat)
    requires OccursAt(ct, "webp", k)
    ensures FallbackImageExt(Some(ct)) == ".webp"
  {
    ContainsAt(ct, "webp");
  }

  /** A content type that names png and not webp selects `.png`. */
  lemma PngImageType(ct: string, k: nat)
    requires 'w' !in ct && OccursAt(ct, "png", k)
    ensures FallbackImageExt(Some(ct)) == ".png"
  {
    MissingCharNotContained(ct, "webp", 0);
    ContainsAt(ct, "png");
  }

  /** What fetching a media URL yields: the request failed, or a response with its
      status and content type, where `saved` says that reading the body and writing
      the file both succeeded. */
  datatype Download = Failed | Response(status: nat, contentType: Option<string>, saved: bool) {
    /** `res.ok` */
    predicate Ok() { Response? && 200 <= status <= 299 }
  }

  /** The outcome of one video or thumbnail block: the file name recorded on the
      post (none when the block failed), the file written (if any), and whether the
      URL was fetched. */
  datatype FieldOutcome = FieldOutcome(file: Option<string>, written: Option<string>, fetched: bool)

  function Written(o: FieldOutcome): set<string> {
    if o.written.Some? then {o.written.value} else {}
  }

  /** The extension the existence check uses: `ext`, the URL's extension, or the
      kind's default when the URL has none. */
  function CheckedExt(kind: MediaKind, ext: string): string {
    if ext != "" then ext else kind.DefaultExt()
  }

  /** The file name the existence check looks for. */
  function CheckedName(kind: MediaKind, ext: string, baseId: string): string {
    Candidate(baseId, kind, CheckedExt(kind, ext))
  }

  /** One video or thumbnail block for a URL whose extension is `ext`, given the
      names already in the kind's directory and what fetching the URL would yield. */
  function SyncField(kind: MediaKind, ext: string, baseId: string, dir: set<string>,
                     download: Download): (o: FieldOutcome)
    ensures o.fetched <==> CheckedName(kind, ext, baseId) !in dir
    ensures !o.fetched ==> o.file == Some(CheckedName(kind, ext, baseId)) && o.written.None?
    ensures o.fetched ==> o.file == o.written
    ensures o.fetched ==> (o.file.Some? <==> download.Ok() && download.saved)
    ensures o.file.Some? ==> o.file.value in dir + Written(o)
    ensures o.written.Some? && ext != "" ==> o.written.value == CheckedName(kind, ext, baseId)
    ensures o.written.Some? && ext == "" ==>
              o.written.value == Candidate(baseId, kind, FallbackExt(kind, download.contentType))
  {
    var name := CheckedName(kind, ext, baseId);
    if name in dir then FieldOutcome(Some(name), None, false)
    else if !download.Ok() then FieldOutcome(None, None, true)
    else
      var saved := if ext != "" then name
                   else Candidate(baseId, kind, FallbackExt(kind, download.contentType));
      if download.saved then FieldOutcome(Some(saved), Some(saved), true)
      else FieldOutcome(None, None, true)
  }

  /** Running a block again after it recorded a file, with that file now in the
      directory: it fetches again exactly when the URL has no extension and the
      content type named a different one than the default; when it does not fetch,
      it records the same name. */
  lemma RerunFetchesIff(kind: MediaKind, ext: string, baseId: string, dir: set<string>,
                        first: Download, second: Download)
    requires SyncField(kind, ext, baseId, dir, first).file.Some?
    ensures var o := SyncField(kind, ext, baseId, dir, first);
            var again := SyncField(kind, ext, baseId, dir + Written(o), second);
            && (again.fetched <==> ext == "" && o.file.value != CheckedName(kind, ext, baseId))
            && (!again.fetched ==> again.file == o.file)
  {
  }

  /** A URL with an extension makes the block skip-idempotent: the second run skips
      the download and records the same file. */
  lemma RerunWithExtensionSkips(kind: MediaKind, ext: string, baseId: string, dir: set<string>,
                                first: Download, second: Download)
    requires ext != ""
    requires SyncField(kind, ext, baseId, dir, first).file.Some?
    ensures var o := SyncField(kind, ext, baseId, dir, first);
            var again := SyncField(kind, ext, baseId, dir + Written(o), second);
            !again.fetched && again.file == o.file
  {
    RerunFetchesIff(kind, ext, baseId, dir, first, second);
  }

  /** A video URL without an extension served as `video/webm` is saved as `.webm`,
      but the next run looks for `.mp4`, misses, and downloads it again. */
  lemma WebmWithoutExtensionRefetches(ext: string, baseId: string, dir: set<string>, top: string,
                                      status: nat, second: Download)
    requires ext == ""
    requires CheckedName(Video, ext, baseId) !in dir
    requires 200 <= status <= 299
    ensures var o := SyncField(Video, ext, baseId, dir, Response(status, Some(top + "/" + "webm"), true));
            && o.written == Some(Candidate(baseId, Video, ".webm"))
            && SyncField(Video, ext, baseId, dir + Written(o), second).fetched
  {
    ContainsSubtype(top, "webm");
    var first := Response(status, Some(top + "/" + "webm"), true);
    RerunFetchesIff(Video, ext, baseId, dir, first, second);
    assert Candidate(baseId, Video, ".webm") != Candidate(baseId, Video, ".mp4") by {
      assert Candidate(baseId, Video, ".webm")[|baseId| + 7] == 'w';
    }
  }

  /** The URL an item offers for a kind. */
  function SourceUrl(item: PostItem, kind: MediaKind): Option<string> {
    match kind
    case Video => item.videoUrl
    case Image => item.displayUrl
  }

  /** The item's local-route field for a kind. */
  function LocalField(item: PostItem, kind: MediaKind): Option<string> {
    match kind
    case Video => item.localVideoUrl
    case Image => item.localDisplayUrl
  }

  function WithLocal(item: PostItem, kind: MediaKind, v: Option<string>): PostItem {
    match kind
    case Video => item.(localVideoUrl := v)
    case Image => item.(localDisplayUrl := v)
  }

  /** The names of the files in the video and image cache directories. */
  datatype MediaDirs = MediaDirs(videos: set<string>, images: set<string>) {
    function Dir(kind: MediaKind): set<string> {
      match kind
      case Video => videos
      case Image => images
    }

    function Add(kind: MediaKind, names: set<string>): MediaDirs {
      match kind
      case Video => this.(videos := videos + names)
      case Image => this.(images := images + names)
    }

    lemma AddNothing(kind: MediaKind)
      ensures Add(kind, {}) == this
    {
      assert videos + {} == videos && images + {} == images;
    }

    /** Every directory of `this` is contained in the same directory of `other`. */
    predicate Within(other: MediaDirs) {
      videos <= other.videos && images <= other.images
    }

    lemma WithinTrans(smaller: MediaDirs, larger: MediaDirs)
      requires smaller.Within(this) && Within(larger)
      ensures smaller.Within(larger)
    {
    }
  }

  /** `link` is the route of a file in `dir` whose name is `baseId`'s for the kind:
      `<route><baseId>_<role>` followed by an extension. */
  predicate RoutesTo(link: string, kind: MediaKind, baseId: string, dir: set<string>) {
    StartsWith(link, kind.Route()) &&
    var name := link[|kind.Route()|..];
    StartsWith(name, baseId + "_" + kind.Role()) && name in dir
  }

  /** The field of `done` is the one `raw` came with, or the route of one of
      `baseId`'s files in `dir`. */
  predicate Linked(raw: PostItem, done: PostItem, kind: MediaKind, baseId: string, dir: set<string>) {
    LocalField(done, kind) == LocalField(raw, kind) ||
    (LocalField(done, kind).Some? && RoutesTo(LocalField(done, kind).value, kind, baseId, dir))
  }

  lemma CandidateRoutes(kind: MediaKind, baseId: string, ext: string, dir: set<string>)
    requires Candidate(baseId, kind, ext) in dir
    ensures RoutesTo(kind.Route() + Candidate(baseId, kind, ext), kind, baseId, dir)
  {
    var link := kind.Route() + Candidate(baseId, kind, ext);
    assert link[|kind.Route()|..] == Candidate(baseId, kind, ext);
    assert Candidate(baseId, kind, ext) == (baseId + "_" + kind.Role()) + ext;
  }

  /** The video or the thumbnail block of the loop body. */
  function SyncMedia(item: PostItem, kind: MediaKind, baseId: string, dirs: MediaDirs,
                     urlExt: string -> string, download: string -> Download): (PostItem, MediaDirs)
  {
    if !Truthy(SourceUrl(item, kind)) then (item, dirs)
    else
      var url := SourceUrl(item, kind).value;
      var o := SyncField(kind, urlExt(url), baseId, dirs.Dir(kind), download(url));
      var done := if o.file.Some? then WithLocal(item, kind, Some(kind.Route() + o.file.value)) else item;
      (done, dirs.Add(kind, Written(o)))
  }

  /** When the item offers a URL of the kind, its field is set to the route of the
      file the block recorded and the directory gains the file it wrote; a failed
      block keeps the field as it was. Nothing else of the item or the directories
      changes. */
  lemma SyncMediaSpec(item: PostItem, kind: MediaKind, baseId: string, dirs: MediaDirs,
                      urlExt: string -> string, download: string -> Download)
    ensures var r := SyncMedia(item, kind, baseId, dirs, urlExt, download);
            && WithLocal(r.0, kind, LocalField(item, kind)) == item
            && (!Truthy(SourceUrl(item, kind)) ==> r == (item, dirs))
            && (Truthy(SourceUrl(item, kind)) ==>
                  var url := SourceUrl(item, kind).value;
                  var o := SyncField(kind, urlExt(url), baseId, dirs.Dir(kind), download(url));
                  && r.1 == dirs.Add(kind, Written(o))
                  && (o.written.None? ==> r.1 == dirs)
                  && (o.file.Some? ==> LocalField(r.0, kind) == Some(kind.Route() + o.file.value))
                  && (o.file.None? ==> r.0 == item))
            && dirs.Within(r.1)
            && Linked(item, r.0, kind, baseId, r.1.Dir(kind))
  {
    if Truthy(SourceUrl(item, kind)) {
      var url := SourceUrl(item, kind).value;
      var o := SyncField(kind, urlExt(url), baseId, dirs.Dir(kind), download(url));
      var after := dirs.Add(kind, Written(o));
      if o.written.None? { dirs.AddNothing(kind); }
      if o.file.Some? {
        var ext := if o.fetched && urlExt(url) == "" then FallbackExt(kind, download(url).contentType)
                   else CheckedExt(kind, urlExt(url));
        assert o.file.value == Candidate(baseId, kind, ext);
        assert after.Dir(kind) == dirs.Dir(kind) + Written(o);
        CandidateRoutes(kind, baseId, ext, after.Dir(kind));
      }
    }
  }

  /** The body of the loop for one item: its video block, then its thumbnail block. */
  function SyncItem(raw: PostItem, baseId: string, dirs: MediaDirs, urlExt: string -> string,
                    download: string -> Download): (PostItem, MediaDirs)
  {
    var v := SyncMedia(raw, Video, baseId, dirs, urlExt, download);
    SyncMedia(v.0, Image, baseId, v.1, urlExt, download)
  }

  /** The loop body changes only the two local fields, only adds files, and each
      field is kept or is the route of a cached file named for the post. */
  lemma SyncItemSpec(raw: PostItem, baseId: string, dirs: MediaDirs, urlExt: string -> string,
                     download: string -> Download)
    ensures var r := SyncItem(raw, baseId, dirs, urlExt, download);
            && Unlocal(r.0) == Unlocal(raw)
            && dirs.Within(r.1)
            && forall kind :: Linked(raw, r.0, kind, baseId, r.1.Dir(kind))
  {
    var v := SyncMedia(raw, Video, baseId, dirs, urlExt, download);
    var w := SyncMedia(v.0, Image, baseId, v.1, urlExt, download);
    SyncMediaSpec(raw, Video, baseId, dirs, urlExt, download);
    SyncMediaSpec(v.0, Image, baseId, v.1, urlExt, download);
    assert LocalField(w.0, Video) == LocalField(v.0, Video);
    assert LocalField(v.0, Image) == LocalField(raw, Image);
    LinkedGrows(raw, w.0, Video, baseId, v.1.Dir(Video), w.1.Dir(Video));
    assert Linked(raw, w.0, Image, baseId, w.1.Dir(Image));
    v.1.WithinTrans(dirs, w.1);
    forall kind ensures Linked(raw, w.0, kind, baseId, w.1.Dir(kind)) {
      if kind == Video {} else { assert kind == Image; }
    }
  }

  /** The post with both local-route fields cleared: what the loop must not change. */
  function Unlocal(item: PostItem): PostItem {
    item.(localVideoUrl := None, localDisplayUrl := None)
  }

  lemma LinkedGrows(raw: PostItem, done: PostItem, kind: MediaKind, baseId: string,
                    dir: set<string>, larger: set<string>)
    requires Linked(raw, done, kind, baseId, dir) && dir <= larger
    ensures Linked(raw, done, kind, baseId, larger)
  {
  }

  /** One pass of the loop body: from the index of a post, the post and the
      directories before it, the processed post and the directories after it. */
  type Step = (nat, PostItem, MediaDirs) -> (PostItem, MediaDirs)

  /** A loop of `step` over `items` in order, from the directories `dirs`: the
      processed posts and the directories at the end. */
  function Loop(items: seq<PostItem>, step: Step, dirs: MediaDirs): (seq<PostItem>, MediaDirs)
    decreases |items|
  {
    if items == [] then ([], dirs)
    else
      var n := |items| - 1;
      var before := Loop(items[..n], step, dirs);
      var after := step(n, items[n], before.1);
      (before.0 + [after.0], after.1)
  }

  /** The loop body of the handler. Post `i` is named with `entropy(i)` when it has
      no natural key. */
  function ItemStep(md5: Md5Hex, entropy: nat -> string, urlExt: string -> string,
                    download: string -> Download): Step
  {
    (i: nat, item: PostItem, d: MediaDirs) => SyncItem(item, SafeBaseId(item, md5, entropy(i)), d, urlExt, download)
  }

  /** The loop over the dataset: the processed posts in order and the directories
      after them. */
  function Processed(items: seq<PostItem>, md5: Md5Hex, entropy: nat -> string,
                     urlExt: string -> string, download: string -> Download, dirs: MediaDirs): (seq<PostItem>, MediaDirs)
  {
    Loop(items, ItemStep(md5, entropy, urlExt, download), dirs)
  }

  /** A loop body that never removes a file. */
  ghost predicate OnlyAdds(step: Step) {
    forall i: nat, x: PostItem, d: MediaDirs :: d.Within(step(i, x, d).1)
  }

  lemma ItemStepOnlyAdds(md5: Md5Hex, entropy: nat -> string, urlExt: string -> string,
                         download: string -> Download)
    ensures OnlyAdds(ItemStep(md5, entropy, urlExt, download))
  {
    var step := ItemStep(md5, entropy, urlExt, download);
    forall i: nat, x: PostItem, d: MediaDirs ensures d.Within(step(i, x, d).1) {
      SyncItemSpec(x, SafeBaseId(x, md5, entropy(i)), d, urlExt, download);
    }
  }

  lemma PrefixOfPrefix<T>(s: seq<T>, n: nat, i: nat)
    requires i <= n <= |s|
    ensures s[..n][..i] == s[..i]
    ensures i < n ==> s[..n][i] == s[i]
  {
  }

  /** The last post of the loop: the unfolding of `Loop`. */
  lemma LoopLast(items: seq<PostItem>, step: Step, dirs: MediaDirs)
    requires items != []
    ensures var n := |items| - 1;
            var before := Loop(items[..n], step, dirs);
            var after := step(n, items[n], before.1);
            Loop(items, step, dirs) == (before.0 + [after.0], after.1)
  {
  }

  /** The loop yields one post per input post. */
  lemma {:induction false} LoopSize(items: seq<PostItem>, step: Step, dirs: MediaDirs)
    ensures |Loop(items, step, dirs).0| == |items|
    decreases |items|
  {
    if items != [] {
      LoopSize(items[..|items| - 1], step, dirs);
    }
  }

  /** Each post's result depends only on the post and on the files the posts
      before it left in the cache: a failure in one post's blocks does not reach
      the others, and the loop goes on to the end. */
  lemma {:induction false} LoopItem(items: seq<PostItem>, step: Step, dirs: MediaDirs, i: nat)
    requires i < |items|
    ensures |Loop(items, step, dirs).0| == |items|
    ensures Loop(items, step, dirs).0[i] == step(i, items[i], Loop(items[..i], step, dirs).1).0
    decreases |items|
  {
    var n := |items| - 1;
    var init := items[..n];
    var before := Loop(init, step, dirs);
    LoopSize(init, step, dirs);
    var after := step(n, items[n], before.1);
    assert Loop(items, step, dirs).0 == before.0 + [after.0];
    if i < n {
      LoopItem(init, step, dirs, i);
      PrefixOfPrefix(items, n, i);
      assert (before.0 + [after.0])[i] == before.0[i];
    } else {
      assert (before.0 + [after.0])[i] == after.0;
    }
  }

  /** With a body that only adds files, the directories only grow along the loop:
      those after `items[..i]` lie within those at the end. */
  lemma {:induction false} LoopGrows(items: seq<PostItem>, step: Step, dirs: MediaDirs, i: nat)
    requires OnlyAdds(step) && i <= |items|
    ensures Loop(items[..i], step, dirs).1.Within(Loop(items, step, dirs).1)
    decreases |items|
  {
    if i < |items| {
      var n := |items| - 1;
      var init := items[..n];
      var before := Loop(init, step, dirs);
      var after := step(n, items[n], before.1);
      LoopGrows(init, step, dirs, i);
      PrefixOfPrefix(items, n, i);
      assert before.1.Within(after.1);
      before.1.WithinTrans(Loop(items[..i], step, dirs).1, after.1);
    } else {
      assert items[..i] == items;
    }
  }

  /** The loop changes nothing of a post but its two local-route fields, only adds
      files, and every route it sets names a file of that post's id that is in the
      cache when the loop ends. */
  lemma ProcessedSpec(items: seq<PostItem>, md5: Md5Hex, entropy: nat -> string,
                      urlExt: string -> string, download: string -> Download, dirs: MediaDirs)
    ensures var r := Processed(items, md5, entropy, urlExt, download, dirs);
            && |r.0| == |items|
            && dirs.Within(r.1)
            && (forall i :: 0 <= i < |items| ==> Unlocal(r.0[i]) == Unlocal(items[i]))
            && (forall i, kind :: 0 <= i < |items| ==>
                  Linked(items[i], r.0[i], kind, SafeBaseId(items[i], md5, entropy(i)), r.1.Dir(kind)))
  {
    var step := ItemStep(md5, entropy, urlExt, download);
    LoopSize(items, step, dirs);
    ItemStepOnlyAdds(md5, entropy, urlExt, download);
    LoopGrows(items, step, dirs, 0);
    assert items[..0] == [];
    forall i | 0 <= i < |items|
      ensures var r := Processed(items, md5, entropy, urlExt, download, dirs);
              && Unlocal(r.0[i]) == Unlocal(items[i])
              && forall kind :: Linked(items[i], r.0[i], kind, SafeBaseId(items[i], md5, entropy(i)), r.1.Dir(kind))
    {
      ProcessedAt(items, md5, entropy, urlExt, download, dirs, i);
    }
  }

  /** `ProcessedSpec` for post `i`. */
  lemma ProcessedAt(items: seq<PostItem>, md5: Md5Hex, entropy: nat -> string,
                    urlExt: string -> string, download: string -> Download, dirs: MediaDirs, i: nat)
    requires i < |items|
    ensures var r := Processed(items, md5, entropy, urlExt, download, dirs);
            && |r.0| == |items|
            && Unlocal(r.0[i]) == Unlocal(items[i])
            && forall kind :: Linked(items[i], r.0[i], kind, SafeBaseId(items[i], md5, entropy(i)), r.1.Dir(kind))
  {
    var step := ItemStep(md5, entropy, urlExt, download);
    var r := Loop(items, step, dirs);
    var baseId := SafeBaseId(items[i], md5, entropy(i));
    var before := Loop(items[..i], step, dirs).1;
    ItemStepOnlyAdds(md5, entropy, urlExt, download);
    LoopItem(items, step, dirs, i);
    LoopGrows(items, step, dirs, i + 1);
    LoopLast(items[..i + 1], step, dirs);
    PrefixOfPrefix(items, i + 1, i);
    var after := SyncItem(items[i], baseId, before, urlExt, download);
    assert step(i, items[i], before) == after;
    SyncItemSpec(items[i], baseId, before, urlExt, download);
    forall kind ensures Linked(items[i], r.0[i], kind, baseId, r.1.Dir(kind)) {
      LinkedGrows(items[i], r.0[i], kind, baseId, after.1.Dir(kind), r.1.Dir(kind));
    }
  }

  /** A block whose download fails, or whose response is not ok or cannot be
      saved, leaves the post's field as the dataset had it. */
  lemma FailedDownloadKeepsField(raw: PostItem, kind: MediaKind, baseId: string, dirs: MediaDirs,
                                 urlExt: string -> string, download: string -> Download)
    requires Truthy(SourceUrl(raw, kind))
    requires CheckedName(kind, urlExt(SourceUrl(raw, kind).value), baseId) !in dirs.Dir(kind)
    requires !download(SourceUrl(raw, kind).value).Ok() || !download(SourceUrl(raw, kind).value).saved
    ensures SyncMedia(raw, kind, baseId, dirs, urlExt, download) == (raw, dirs)
  {
    SyncMediaSpec(raw, kind, baseId, dirs, urlExt, download);
  }

  /** A file already in the cache is neither fetched nor written, and the post
      still gets its route. */
  lemma ExistingFileIsLinked(raw: PostItem, kind: MediaKind, baseId: string, dirs: MediaDirs,
                             urlExt: string -> string, download: string -> Download)
    requires Truthy(SourceUrl(raw, kind))
    requires CheckedName(kind, urlExt(SourceUrl(raw, kind).value), baseId) in dirs.Dir(kind)
    ensures var r := SyncMedia(raw, kind, baseId, dirs, urlExt, download);
            && r.1 == dirs
            && LocalField(r.0, kind) == Some(kind.Route() + CheckedName(kind, urlExt(SourceUrl(raw, kind).value), baseId))
  {
  }

  /** The extension is what distinguishes two names of the same id and kind. */
  lemma CandidateInjective(baseId: string, kind: MediaKind, e1: string, e2: string)
    requires Candidate(baseId, kind, e1) == Candidate(baseId, kind, e2)
    ensures e1 == e2
  {
    var p := baseId + "_" + kind.Role();
    assert Candidate(baseId, kind, e1) == p + e1 && Candidate(baseId, kind, e2) == p + e2;
    assert e1 == (p + e1)[|p|..];
    assert e2 == (p + e2)[|p|..];
  }

  /** A cached file whose extension is one the query endpoint searches is found
      by that endpoint's lookup for a post with no route yet. */
  lemma SavedFileIsServed(kind: MediaKind, baseId: string, ext: string, local: set<string>,
                          blobs: JsMap<string>)
    requires ext in kind.Exts() && Candidate(baseId, kind, ext) in local
    ensures DataJson.Resolve(None, kind, baseId, local, blobs).Some?
  {
    var i :| 0 <= i < |kind.Exts()| && kind.Exts()[i] == ext;
    DataJson.FirstHitSpec(kind.Exts(), baseId, kind, local, blobs);
    assert DataJson.TierHit(baseId, kind, kind.Exts()[i], local, blobs).Some?;
  }

  /** Every file a block records is served by the query endpoint when the URL had
      no extension (the content type then picks one from the searched list) or
      an extension from that list. */
  lemma SyncedFileIsServed(kind: MediaKind, ext: string, baseId: string, dir: set<string>,
                           download: Download, blobs: JsMap<string>)
    requires ext == "" || ext in kind.Exts()
    requires SyncField(kind, ext, baseId, dir, download).file.Some?
    ensures var o := SyncField(kind, ext, baseId, dir, download);
            DataJson.Resolve(None, kind, baseId, dir + Written(o), blobs).Some?
  {
    var o := SyncField(kind, ext, baseId, dir, download);
    var saved := if o.fetched && ext == "" then FallbackExt(kind, download.contentType) else CheckedExt(kind, ext);
    assert o.file.value == Candidate(baseId, kind, saved);
    assert saved in kind.Exts();
    SavedFileIsServed(kind, baseId, saved, dir + Written(o), blobs);
  }

  /** A file saved under an extension outside the searched list (a URL ending in
      `.m4v` or `.gif`, say) is never found locally by the query endpoint: with no
      blob store it leaves the post without a route. */
  lemma SavedOutsideListIsNotServed(kind: MediaKind, baseId: string, ext: string)
    requires ext !in kind.Exts()
    ensures DataJson.Resolve(None, kind, baseId, {Candidate(baseId, kind, ext)}, Empty()) == None
  {
    var local := {Candidate(baseId, kind, ext)};
    var blobs: JsMap<string> := Empty();
    forall i | 0 <= i < |kind.Exts()|
      ensures DataJson.TierHit(baseId, kind, kind.Exts()[i], local, blobs).None?
    {
      if Candidate(baseId, kind, kind.Exts()[i]) in local {
        CandidateInjective(baseId, kind, kind.Exts()[i], ext);
      }
    }
    DataJson.FirstHitSpec(kind.Exts(), baseId, kind, local, blobs);
  }

  /** The name of the timestamped snapshot, `data_<Date.now()>.json`. */
  function SnapshotName(now: nat): string {
    "data_" + NatToString(now) + ".json"
  }

  const LatestName: string := "latest.json"

  /** Snapshots of different instants have different names, and none of them is
      `latest.json`: a run never overwrites an earlier snapshot. */
  lemma SnapshotNames(t1: nat, t2: nat)
    ensures SnapshotName(t1) != LatestName
    ensures SnapshotName(t1) == SnapshotName(t2) ==> t1 == t2
  {
    assert SnapshotName(t1)[0] == 'd';
    if SnapshotName(t1) == SnapshotName(t2) {
      var a := NatToString(t1);
      var b := NatToString(t2);
      assert |a| == |b|;
      assert a == SnapshotName(t1)[5..5 + |a|];
      assert b == SnapshotName(t2)[5..5 + |b|];
      NatToStringInjective(t1, t2);
    }
  }

  const SyncMessage: string := "Media synchronized successfully"

  /** The single error every failure of the handler becomes. */
  const SyncFailed: Failure := HttpError(500, "Failed to sync media")

  /** The JSON body of a successful run. */
  datatype SyncReply = SyncReply(success: bool, message: string, itemsProcessed: nat, dataFile: string)

  /** The cache directories on disk: the names of the files in `videos/` and
      `images/`, and the documents in `data/` by file name. */
  class MediaCache {
    var videos: set<string>
    var images: set<string>
    var dataFiles: map<string, seq<PostItem>>

    constructor(videos: set<string>, images: set<string>, dataFiles: map<string, seq<PostItem>>)
      ensures this.videos == videos && this.images == images && this.dataFiles == dataFiles
    {
      this.videos := videos;
      this.images := images;
      this.dataFiles := dataFiles;
    }

    function Dirs(): MediaDirs
      reads this
    {
      MediaDirs(videos, images)
    }

    /** The video or the thumbnail block (lines 85-105 and 114-133) for a URL whose
        extension is `ext`; `response` is what fetching the URL yields. It checks
        the default name, fetches only when that file is missing, renames by
        content type when the URL has no extension, and writes the file. */
    method SaveMedia(kind: MediaKind, ext: string, baseId: string, response: Download)
      returns (file: Option<string>)
      modifies this
      ensures var o := SyncField(kind, ext, baseId, old(Dirs()).Dir(kind), response);
              file == o.file && Dirs() == old(Dirs()).Add(kind, Written(o))
      ensures dataFiles == old(dataFiles)
    {
      var before := Dirs();
      var chosen := if ext != "" then ext else kind.DefaultExt();
      var filename := Candidate(baseId, kind, chosen);
      if filename !in before.Dir(kind) {
        if !response.Ok() {
          before.AddNothing(kind);
          return None;
        }
        if ext == "" {
          chosen := FallbackExt(kind, response.contentType);
          filename := Candidate(baseId, kind, chosen);
        }
        if !response.saved {
          before.AddNothing(kind);
          return None;
        }
        if kind == Video {
          videos := videos + {filename};
        } else {
          images := images + {filename};
        }
      } else {
        before.AddNothing(kind);
      }
      file := Some(filename);
    }

    /** One block of the loop body on the item: when it offers a URL of the kind,
        save the file and set the item's route to it. */
    method SyncBlock(item: PostItem, kind: MediaKind, baseId: string, download: string -> Download)
      returns (done: PostItem)
      modifies this
      ensures (done, Dirs()) == SyncMedia(item, kind, baseId, old(Dirs()), UrlExt, download)
      ensures dataFiles == old(dataFiles)
    {
      done := item;
      var source := SourceUrl(item, kind);
      if Truthy(source) {
        var url := source.value;
        var f := SaveMedia(kind, UrlExt(url), baseId, download(url));
        if f.Some? {
          done := WithLocal(item, kind, Some(kind.Route() + f.value));
        }
      }
    }

    /** The loop body on post `i`: its video block, then its thumbnail block, both
        under the post's `safeBaseId`. */
    method SyncPost(i: nat, item: PostItem, md5: Md5Hex, entropy: nat -> string, download: string -> Download)
      returns (done: PostItem)
      modifies this
      ensures (done, Dirs()) == ItemStep(md5, entropy, UrlExt, download)(i, item, old(Dirs()))
      ensures dataFiles == old(dataFiles)
    {
      var baseId := SafeBaseId(item, md5, entropy(i));
      done := SyncBlock(item, Video, baseId, download);
      done := SyncBlock(done, Image, baseId, download);
    }

    /** The `for` loop over the dataset. */
    method SyncAll(items: seq<PostItem>, md5: Md5Hex, entropy: nat -> string, download: string -> Download)
      returns (out: seq<PostItem>)
      modifies this
      ensures (out, Dirs()) == Processed(items, md5, entropy, UrlExt, download, old(Dirs()))
      ensures dataFiles == old(dataFiles)
    {
      ghost var step := ItemStep(md5, entropy, UrlExt, download);
      out := [];
      for i := 0 to |items|
        invariant (out, Dirs()) == Loop(items[..i], step, old(Dirs()))
        invariant dataFiles == old(dataFiles)
      {
        var item := SyncPost(i, items[i], md5, entropy, download);
        LoopLast(items[..i + 1], step, old(Dirs()));
        PrefixOfPrefix(items, i + 1, i);
        out := out + [item];
      }
      assert items[..|items|] == items;
    }

    /** The handler. `dirsOk` says whether creating the directories succeeds,
        `dataset` is the fetched list (`None` when the request fails), `now` is
        `Date.now()`, `download(u)` is what fetching the media URL `u` yields and
        `writeOk(f)` whether writing the data file `f` succeeds. */
    method Sync(dirsOk: bool, dataset: Option<seq<PostItem>>, now: nat, md5: Md5Hex,
                entropy: nat -> string, download: string -> Download, writeOk: string -> bool)
      returns (r: Result<SyncReply>)
      modifies this
      ensures !dirsOk || dataset.None? ==>
                r == Err(SyncFailed) && Dirs() == old(Dirs()) && dataFiles == old(dataFiles)
      ensures dirsOk && dataset.Some? ==>
                var p := Processed(dataset.value, md5, entropy, UrlExt, download, old(Dirs()));
                var name := SnapshotName(now);
                && Dirs() == p.1
                && (!writeOk(name) ==> r == Err(SyncFailed) && dataFiles == old(dataFiles))
                && (writeOk(name) && !writeOk(LatestName) ==>
                      r == Err(SyncFailed) && dataFiles == old(dataFiles)[name := p.0])
                && (writeOk(name) && writeOk(LatestName) ==>
                      && r == Ok(SyncReply(true, SyncMessage, |dataset.value|, name))
                      && dataFiles == old(dataFiles)[name := p.0][LatestName := p.0])
      ensures r.Ok? ==> r.value.dataFile in dataFiles && LatestName in dataFiles &&
                        dataFiles[r.value.dataFile] == dataFiles[LatestName]
    {
      if !dirsOk || dataset.None? {
        return Err(SyncFailed);
      }
      var items := dataset.value;
      var out := SyncAll(items, md5, entropy, download);
      LoopSize(items, ItemStep(md5, entropy, UrlExt, download), old(Dirs()));
      var name := SnapshotName(now);
      if !writeOk(name) {
        return Err(SyncFailed);
      }
      dataFiles := dataFiles[name := out];
      if !writeOk(LatestName) {
        return Err(SyncFailed);
      }
      dataFiles := dataFiles[LatestName := out];
      assert dataFiles[name] == out && dataFiles[LatestName] == out;
      r := Ok(SyncReply(true, SyncMessage, |out|, name));
    }
  }
}
