/** `GET /api/data.json` (server/api/data.json.get.ts): the ranked posts, each with
    the address of its cached video and thumbnail resolved from the local cache
    directories or from the blob store, read from the first source that answers. */
module DataJson {
  import opened Wrappers
  import opened Strings
  import opened JsMaps
  import opened Urls
  import opened Posts
  import opened DataQuery

  /** One entry of a blob-store listing. */
  datatype BlobEntry = BlobEntry(pathname: Option<string>, url: Option<string>)

  const VideoPrefix: string := "instagram/videos/"
  const ImagePrefix: string := "instagram/images/"
  const LatestPrefix: string := "instagram/data/latest.json"
  const DatasetUrl: string := "https://api.apify.com/v2/datasets/EQ72boqcTz81HGI9Y/items?format=json&clean=true"
  const JsonContentType: string := "application/json; charset=utf-8"

  /** The name `listFilenames` files an entry under, `""` when it has none: the
      pathname after the listing prefix, else the last segment of the pathname,
      else the last segment of the path of the entry's URL. */
  function EntryName(prefix: string, b: BlobEntry): string {
    if Truthy(b.pathname) && StartsWith(b.pathname.value, prefix) then b.pathname.value[|prefix|..]
    else if Truthy(b.pathname) then LastSegment(b.pathname.value)
    else if Truthy(b.url) then
      match ParseUrl(b.url.value)
      case Some(u) => LastSegment(u.pathname)
      case None => ""
    else ""
  }

  /** A pathname under the prefix is filed under the rest of it; any other pathname
      under its last segment; an entry without a pathname under the last segment
      of the path of a URL that parses; any other entry under no name. */
  lemma EntryNameSpec(prefix: string, b: BlobEntry)
    ensures var name := EntryName(prefix, b);
            && (Truthy(b.pathname) && StartsWith(b.pathname.value, prefix) ==>
                  b.pathname.value == prefix + name)
            && (Truthy(b.pathname) && !StartsWith(b.pathname.value, prefix) ==>
                  var p := b.pathname.value;
                  '/' !in name && EndsWith(p, name) && (|name| < |p| ==> p[|p| - |name| - 1] == '/'))
            && (!Truthy(b.pathname) && name != "" ==>
                  && Truthy(b.url) && ParseUrl(b.url.value).Some?
                  && '/' !in name && EndsWith(ParseUrl(b.url.value).value.pathname, name))
            && (!Truthy(b.pathname) && !Truthy(b.url) ==> name == "")
  {
    if Truthy(b.pathname) && StartsWith(b.pathname.value, prefix) {
      assert b.pathname.value == prefix + b.pathname.value[|prefix|..];
    }
  }

  /** How `listFilenames` names the entries listed under `prefix`. The loop and
      its lemmas below hold for any naming function. */
  function Namer(prefix: string): BlobEntry -> string {
    b => EntryName(prefix, b)
  }

  /** The entry is filed under `k` (a non-empty name, and a URL to file). */
  predicate Keyed(name: BlobEntry -> string, b: BlobEntry, k: string) {
    k != "" && name(b) == k && Truthy(b.url)
  }

  /** One turn of the listing loop. */
  function AddEntry(m: JsMap<string>, name: BlobEntry -> string, b: BlobEntry): JsMap<string> {
    var n := name(b);
    if n != "" && Truthy(b.url) then m.Set(n, b.url.value) else m
  }

  /** The map the listing loop builds from `blobs`. */
  function NamesOf(name: BlobEntry -> string, blobs: seq<BlobEntry>): JsMap<string>
    decreases |blobs|
  {
    if blobs == [] then Empty()
    else AddEntry(NamesOf(name, blobs[..|blobs| - 1]), name, blobs[|blobs| - 1])
  }

  /** `listFilenames(prefix)`: `listing` is what the store lists under the prefix,
      `None` when the call fails, which leaves the map empty. */
  method ListFilenames(prefix: string, listing: Option<seq<BlobEntry>>) returns (names: JsMap<string>)
    ensures listing.None? ==> names == Empty()
    ensures listing.Some? ==> names == NamesOf(Namer(prefix), listing.value)
  {
    names := Empty();
    if listing.Some? {
      var blobs := listing.value;
      for i := 0 to |blobs|
        invariant names == NamesOf(Namer(prefix), blobs[..i])
      {
        assert blobs[..i + 1][..i] == blobs[..i];
        var b := blobs[i];
        var name := EntryName(prefix, b);
        if name != "" && Truthy(b.url) {
          names := names.Set(name, b.url.value);
        }
      }
      assert blobs[..|blobs|] == blobs;
    }
  }

  lemma {:induction false} NamesOfValid(name: BlobEntry -> string, blobs: seq<BlobEntry>)
    ensures NamesOf(name, blobs).Valid()
    decreases |blobs|
  {
    if blobs != [] {
      var b := blobs[|blobs| - 1];
      var m := NamesOf(name, blobs[..|blobs| - 1]);
      NamesOfValid(name, blobs[..|blobs| - 1]);
      if name(b) != "" && Truthy(b.url) {
        SetSpec(m, name(b), b.url.value);
      }
    }
  }

  /** One turn of the loop files the entry under its name and touches no other name. */
  lemma AddEntryEffect(m: JsMap<string>, name: BlobEntry -> string, b: BlobEntry, k: string)
    ensures k in AddEntry(m, name, b).entries <==> k in m.entries || Keyed(name, b, k)
    ensures Keyed(name, b, k) ==> AddEntry(m, name, b).entries[k] == b.url.value
    ensures !Keyed(name, b, k) && k in m.entries ==> AddEntry(m, name, b).entries[k] == m.entries[k]
  {
  }

  /** The map holds a name exactly when some entry is filed under it. */
  lemma {:induction false} NamesOfKeys(name: BlobEntry -> string, blobs: seq<BlobEntry>, k: string)
    ensures k in NamesOf(name, blobs).entries <==>
              exists i :: 0 <= i < |blobs| && Keyed(name, blobs[i], k)
    decreases |blobs|
  {
    if blobs != [] {
      var n := |blobs| - 1;
      var init := blobs[..n];
      assert NamesOf(name, blobs) == AddEntry(NamesOf(name, init), name, blobs[n]);
      NamesOfKeys(name, init, k);
      AddEntryEffect(NamesOf(name, init), name, blobs[n], k);
      if Keyed(name, blobs[n], k) {
        assert 0 <= n < |blobs| && Keyed(name, blobs[n], k);
      } else {
        if i :| 0 <= i < |blobs| && Keyed(name, blobs[i], k) {
          assert i < n && init[i] == blobs[i];
        }
        if i :| 0 <= i < n && Keyed(name, init[i], k) {
          assert init[i] == blobs[i];
        }
      }
    }
  }

  /** A name maps to the URL of the last entry filed under it. */
  lemma {:induction false} NamesOfLastWins(name: BlobEntry -> string, blobs: seq<BlobEntry>, k: string)
    requires k in NamesOf(name, blobs).entries
    ensures exists i :: 0 <= i < |blobs| && Keyed(name, blobs[i], k) &&
                        NamesOf(name, blobs).entries[k] == blobs[i].url.value &&
                        forall j :: i < j < |blobs| ==> !Keyed(name, blobs[j], k)
    decreases |blobs|
  {
    var n := |blobs| - 1;
    var init := blobs[..n];
    assert NamesOf(name, blobs) == AddEntry(NamesOf(name, init), name, blobs[n]);
    AddEntryEffect(NamesOf(name, init), name, blobs[n], k);
    if Keyed(name, blobs[n], k) {
      assert Keyed(name, blobs[n], k) && NamesOf(name, blobs).entries[k] == blobs[n].url.value;
    } else {
      NamesOfLastWins(name, init, k);
      var i :| 0 <= i < |init| && Keyed(name, init[i], k) &&
               NamesOf(name, init).entries[k] == init[i].url.value &&
               forall j :: i < j < |init| ==> !Keyed(name, init[j], k);
      assert init[i] == blobs[i];
      forall j | i < j < |blobs| ensures !Keyed(name, blobs[j], k) {
        if j < n { assert init[j] == blobs[j]; }
      }
      assert NamesOf(name, blobs).entries[k] == NamesOf(name, init).entries[k];
      assert 0 <= i < |blobs| && Keyed(name, blobs[i], k) &&
             NamesOf(name, blobs).entries[k] == blobs[i].url.value;
    }
  }

  /** The predicate of the blob-name search for one extension. */
  predicate BlobNameMatches(n: string, baseId: string, kind: MediaKind, ext: string) {
    || n == Candidate(baseId, kind, ext)
    || (StartsWith(n, baseId + "_" + kind.Role() + "-") && EndsWith(Lower(n), Lower(ext)))
  }

  /** `Array.from(m.keys()).find(...)`: the index of the first matching name. */
  function FindMatch(names: seq<string>, baseId: string, kind: MediaKind, ext: string): (r: Option<nat>)
    ensures r.Some? ==> r.value < |names| && BlobNameMatches(names[r.value], baseId, kind, ext) &&
                        forall j :: 0 <= j < r.value ==> !BlobNameMatches(names[j], baseId, kind, ext)
    ensures r.None? ==> forall j :: 0 <= j < |names| ==> !BlobNameMatches(names[j], baseId, kind, ext)
  {
    if names == [] then None
    else if BlobNameMatches(names[0], baseId, kind, ext) then Some(0)
    else match FindMatch(names[1..], baseId, kind, ext)
      case None => None
      case Some(k) => Some(k + 1)
  }

  /** What trying one extension yields: the local route when the local file exists,
      otherwise, when the blob map is not empty, the URL of the first matching blob
      name (its route when that URL is empty). */
  function TierHit(baseId: string, kind: MediaKind, ext: string, local: set<string>,
                   blobs: JsMap<string>): (r: Option<string>)
    ensures Candidate(baseId, kind, ext) in local ==> r == Some(kind.Route() + Candidate(baseId, kind, ext))
    ensures Candidate(baseId, kind, ext) !in local ==>
              (r.Some? <==> blobs.Size() > 0 && FindMatch(blobs.keys, baseId, kind, ext).Some?)
    ensures r.Some? && Candidate(baseId, kind, ext) !in local ==>
              var n := blobs.keys[FindMatch(blobs.keys, baseId, kind, ext).value];
              r.value == (if Truthy(blobs.Get(n)) then blobs.entries[n] else kind.Route() + n)
  {
    var fname := Candidate(baseId, kind, ext);
    if fname in local then Some(kind.Route() + fname)
    else if blobs.Size() > 0 then
      match FindMatch(blobs.keys, baseId, kind, ext)
      case Some(i) =>
        var n := blobs.keys[i];
        var g := blobs.Get(n);
        if Truthy(g) then g else Some(kind.Route() + n)
      case None => None
    else None
  }

  /** The hit of the first extension of `exts` that has one. */
  function FirstHit(exts: seq<string>, baseId: string, kind: MediaKind, local: set<string>,
                    blobs: JsMap<string>): Option<string>
  {
    if exts == [] then None
    else match TierHit(baseId, kind, exts[0], local, blobs)
      case Some(v) => Some(v)
      case None => FirstHit(exts[1..], baseId, kind, local, blobs)
  }

  /** `FirstHit` is the hit of the first extension that hits, and nothing exactly
      when no extension hits. */
  lemma {:induction false} FirstHitSpec(exts: seq<string>, baseId: string, kind: MediaKind,
                                        local: set<string>, blobs: JsMap<string>)
    ensures FirstHit(exts, baseId, kind, local, blobs).None? <==>
              forall i :: 0 <= i < |exts| ==> TierHit(baseId, kind, exts[i], local, blobs).None?
    ensures FirstHit(exts, baseId, kind, local, blobs).Some? ==>
              exists i :: 0 <= i < |exts| &&
                TierHit(baseId, kind, exts[i], local, blobs) == FirstHit(exts, baseId, kind, local, blobs) &&
                forall j :: 0 <= j < i ==> TierHit(baseId, kind, exts[j], local, blobs).None?
    decreases |exts|
  {
    if exts != [] && TierHit(baseId, kind, exts[0], local, blobs).None? {
      var rest := exts[1..];
      FirstHitSpec(rest, baseId, kind, local, blobs);
      assert forall i :: 1 <= i < |exts| ==> exts[i] == rest[i - 1];
      if FirstHit(exts, baseId, kind, local, blobs).Some? {
        var i :| 0 <= i < |rest| &&
                 TierHit(baseId, kind, rest[i], local, blobs) == FirstHit(rest, baseId, kind, local, blobs) &&
                 forall j :: 0 <= j < i ==> TierHit(baseId, kind, rest[j], local, blobs).None?;
        assert exts[i + 1] == rest[i];
        forall j | 0 <= j < i + 1 ensures TierHit(baseId, kind, exts[j], local, blobs).None? {
          if j > 0 { assert exts[j] == rest[j - 1]; }
        }
      }
    } else if exts != [] {
      assert TierHit(baseId, kind, exts[0], local, blobs) == FirstHit(exts, baseId, kind, local, blobs);
    }
  }

  /** The new value of an item's local-URL field: a truthy value stays; otherwise
      the first hit of the kind's extensions, and the old value when none hits. */
  function Resolve(current: Option<string>, kind: MediaKind, baseId: string, local: set<string>,
                   blobs: JsMap<string>): Option<string>
  {
    if Truthy(current) then current
    else match FirstHit(kind.Exts(), baseId, kind, local, blobs)
      case Some(v) => Some(v)
      case None => current
  }

  /** The lookup for one field: the `for` loop over the extensions with its two
      `break`s. */
  method ResolveField(current: Option<string>, kind: MediaKind, baseId: string,
                      local: set<string>, blobs: JsMap<string>) returns (field: Option<string>)
    ensures field == Resolve(current, kind, baseId, local, blobs)
  {
    field := current;
    if !Truthy(current) {
      var exts := kind.Exts();
      var i := 0;
      while i < |exts|
        invariant 0 <= i <= |exts|
        invariant field == current
        invariant FirstHit(exts, baseId, kind, local, blobs) == FirstHit(exts[i..], baseId, kind, local, blobs)
      {
        assert exts[i..][1..] == exts[i + 1..];
        var fname := Candidate(baseId, kind, exts[i]);
        if fname in local {
          field := Some(kind.Route() + fname);
          break;
        }
        if blobs.Size() > 0 {
          var found := FindMatch(blobs.keys, baseId, kind, exts[i]);
          if found.Some? {
            var n := blobs.keys[found.value];
            var g := blobs.Get(n);
            field := if Truthy(g) then g else Some(kind.Route() + n);
            break;
          }
        }
        i := i + 1;
      }
    }
  }

  /** The enriched copy of one item. */
  function Enriched(item: PostItem, md5: Md5Hex, entropy: string, localVideos: set<string>,
                    localImages: set<string>, blobVideos: JsMap<string>, blobImages: JsMap<string>): PostItem
  {
    var baseId := SafeBaseId(item, md5, entropy);
    item.(localVideoUrl := Resolve(item.localVideoUrl, Video, baseId, localVideos, blobVideos),
          localDisplayUrl := Resolve(item.localDisplayUrl, Image, baseId, localImages, blobImages))
  }

  /** The body of the `items.map` callback. */
  method EnrichItem(item: PostItem, md5: Md5Hex, entropy: string, localVideos: set<string>,
                    localImages: set<string>, blobVideos: JsMap<string>, blobImages: JsMap<string>)
    returns (r: PostItem)
    ensures r == Enriched(item, md5, entropy, localVideos, localImages, blobVideos, blobImages)
  {
    r := item;
    var baseId := SafeBaseId(r, md5, entropy);
    var v := ResolveField(r.localVideoUrl, Video, baseId, localVideos, blobVideos);
    r := r.(localVideoUrl := v);
    var d := ResolveField(r.localDisplayUrl, Image, baseId, localImages, blobImages);
    r := r.(localDisplayUrl := d);
  }

  /** `withLocalPaths(items, blobVideos, blobImages)`: `localVideos` and `localImages`
      are the names of the files in the two cache directories, and `entropy(i)` is
      the random text drawn for item `i` when it has no natural key. */
  method WithLocalPaths(items: seq<PostItem>, md5: Md5Hex, entropy: nat -> string,
                        localVideos: set<string>, localImages: set<string>,
                        blobVideos: JsMap<string>, blobImages: JsMap<string>)
    returns (out: seq<PostItem>)
    ensures |out| == |items|
    ensures forall i :: 0 <= i < |items| ==>
              out[i] == Enriched(items[i], md5, entropy(i), localVideos, localImages, blobVideos, blobImages)
  {
    out := [];
    for i := 0 to |items|
      invariant |out| == i
      invariant forall k :: 0 <= k < i ==>
                  out[k] == Enriched(items[k], md5, entropy(k), localVideos, localImages, blobVideos, blobImages)
    {
      var e := EnrichItem(items[i], md5, entropy(i), localVideos, localImages, blobVideos, blobImages);
      out := out + [e];
    }
  }

  /** The specification of `WithLocalPaths`, for use in functions and lemmas. */
  function EnrichAll(items: seq<PostItem>, md5: Md5Hex, entropy: nat -> string,
                     localVideos: set<string>, localImages: set<string>,
                     blobVideos: JsMap<string>, blobImages: JsMap<string>): (out: seq<PostItem>)
    ensures |out| == |items|
  {
    seq(|items|, i requires 0 <= i < |items| =>
      Enriched(items[i], md5, entropy(i), localVideos, localImages, blobVideos, blobImages))
  }

  /** A field that is already truthy is never overwritten, and the enrichment
      changes nothing but the two local-URL fields. */
  lemma EnrichedKeepsFields(item: PostItem, md5: Md5Hex, entropy: string, localVideos: set<string>,
                            localImages: set<string>, blobVideos: JsMap<string>, blobImages: JsMap<string>)
    ensures var r := Enriched(item, md5, entropy, localVideos, localImages, blobVideos, blobImages);
            && (Truthy(item.localVideoUrl) ==> r.localVideoUrl == item.localVideoUrl)
            && (Truthy(item.localDisplayUrl) ==> r.localDisplayUrl == item.localDisplayUrl)
            && r.(localVideoUrl := item.localVideoUrl, localDisplayUrl := item.localDisplayUrl) == item
  {
  }

  /** The whole list keeps its posts in order, each changed only in its unset
      local-URL fields. */
  lemma EnrichAllKeepsFields(items: seq<PostItem>, md5: Md5Hex, entropy: nat -> string,
                             localVideos: set<string>, localImages: set<string>,
                             blobVideos: JsMap<string>, blobImages: JsMap<string>)
    ensures var out := EnrichAll(items, md5, entropy, localVideos, localImages, blobVideos, blobImages);
            && |out| == |items|
            && (forall k :: 0 <= k < |out| ==>
                  out[k].(localVideoUrl := items[k].localVideoUrl, localDisplayUrl := items[k].localDisplayUrl) == items[k])
            && (forall k :: 0 <= k < |out| && Truthy(items[k].localVideoUrl) ==>
                  out[k].localVideoUrl == items[k].localVideoUrl)
            && (forall k :: 0 <= k < |out| && Truthy(items[k].localDisplayUrl) ==>
                  out[k].localDisplayUrl == items[k].localDisplayUrl)
  {
    var out := EnrichAll(items, md5, entropy, localVideos, localImages, blobVideos, blobImages);
    forall k | 0 <= k < |out|
      ensures out[k].(localVideoUrl := items[k].localVideoUrl, localDisplayUrl := items[k].localDisplayUrl) == items[k]
      ensures Truthy(items[k].localVideoUrl) ==> out[k].localVideoUrl == items[k].localVideoUrl
      ensures Truthy(items[k].localDisplayUrl) ==> out[k].localDisplayUrl == items[k].localDisplayUrl
    {
      EnrichedKeepsFields(items[k], md5, entropy(k), localVideos, localImages, blobVideos, blobImages);
    }
  }

  /** An unset field is set to the hit of the first extension, in the kind's order,
      that has a local file or a matching blob; when no extension hits, it stays as
      it was. */
  lemma ResolveFirstHit(current: Option<string>, kind: MediaKind, baseId: string,
                        local: set<string>, blobs: JsMap<string>)
    requires !Truthy(current)
    ensures (forall i :: 0 <= i < |kind.Exts()| ==> TierHit(baseId, kind, kind.Exts()[i], local, blobs).None?)
            ==> Resolve(current, kind, baseId, local, blobs) == current
    ensures Resolve(current, kind, baseId, local, blobs) != current ==>
              exists i :: 0 <= i < |kind.Exts()| &&
                TierHit(baseId, kind, kind.Exts()[i], local, blobs) == Resolve(current, kind, baseId, local, blobs) &&
                forall j :: 0 <= j < i ==> TierHit(baseId, kind, kind.Exts()[j], local, blobs).None?
  {
    FirstHitSpec(kind.Exts(), baseId, kind, local, blobs);
  }

  /** The walk goes extension by extension, not tier by tier: a blob `.mp4` is used
      even when a local `.webm` exists. */
  lemma BlobMp4BeatsLocalWebm(baseId: string, localVideos: set<string>, url: string)
    requires Candidate(baseId, Video, ".webm") in localVideos
    requires Candidate(baseId, Video, ".mp4") !in localVideos
    requires url != ""
    ensures var name := Candidate(baseId, Video, ".mp4");
            Resolve(None, Video, baseId, localVideos, JsMap([name], map[name := url])) == Some(url)
  {
    var name := Candidate(baseId, Video, ".mp4");
    var blobs := JsMap([name], map[name := url]);
    assert FindMatch(blobs.keys, baseId, Video, ".mp4") == Some(0);
    assert TierHit(baseId, Video, ".mp4", localVideos, blobs) == Some(url);
  }

  /** A local file wins over a blob match for the same extension. */
  lemma LocalWinsPerExtension(baseId: string, kind: MediaKind, local: set<string>, blobs: JsMap<string>)
    requires Candidate(baseId, kind, kind.Exts()[0]) in local
    ensures Resolve(None, kind, baseId, local, blobs) == Some(kind.Route() + Candidate(baseId, kind, kind.Exts()[0]))
  {
  }

  /** What the first entry under `instagram/data/latest.json` yields: the posts its
      URL serves, `None` when there is no such entry, it has no URL, or the list
      or fetch call fails. */
  function BlobLatest(list: string -> Option<seq<BlobEntry>>, fetchJson: string -> Option<seq<PostItem>>)
    : Option<seq<PostItem>>
  {
    match list(LatestPrefix)
    case Some(blobs) =>
      if |blobs| > 0 && Truthy(blobs[0].url) then fetchJson(blobs[0].url.value) else None
    case None => None
  }

  /** The response: its two headers and the JSON body. */
  datatype Reply = Reply(cacheControl: string, contentType: string, body: DataBody)

  /** The posts of a source, enriched and ranked. */
  function Ranked(items: seq<PostItem>, requestedLimit: Option<int>, md5: Md5Hex, entropy: nat -> string,
                  localVideos: set<string>, localImages: set<string>,
                  list: string -> Option<seq<BlobEntry>>): seq<PostItem>
  {
    var videos := if list(VideoPrefix).Some? then NamesOf(Namer(VideoPrefix), list(VideoPrefix).value) else Empty();
    var images := if list(ImagePrefix).Some? then NamesOf(Namer(ImagePrefix), list(ImagePrefix).value) else Empty();
    MostLiked(EnrichAll(items, md5, entropy, localVideos, localImages, videos, images), ClampLimit(requestedLimit))
  }

  /** The handler. `local` is the state of the local `latest.json`; `list` answers a
      blob-store listing for a prefix and `fetchJson` the posts a URL serves (`None`
      when the call fails). The sources are tried in the order local file, blob
      `latest.json`, remote dataset; each sets its own cache lifetime. */
  method HandleDataJson(requestedLimit: Option<int>, local: LatestFile, localVideos: set<string>,
                        localImages: set<string>, list: string -> Option<seq<BlobEntry>>,
                        fetchJson: string -> Option<seq<PostItem>>, md5: Md5Hex, entropy: nat -> string)
    returns (r: Result<Reply>)
    ensures r.Ok? ==> r.value.contentType == JsonContentType && r.value.body.success
    ensures local.Unreadable? <==> r.Err?
    ensures local.Unreadable? ==> r.error.StatusCode() == 500
    ensures local.Stored? ==>
              r == Ok(Reply("public, max-age=120", JsonContentType,
                DataBody(true, Ranked(local.items, requestedLimit, md5, entropy, localVideos, localImages, list), true)))
    ensures local.Missing? && BlobLatest(list, fetchJson).Some? ==>
              r == Ok(Reply("public, max-age=300", JsonContentType,
                DataBody(true, Ranked(BlobLatest(list, fetchJson).value, requestedLimit, md5, entropy,
                                      localVideos, localImages, list), true)))
    ensures local.Missing? && BlobLatest(list, fetchJson).None? && fetchJson(DatasetUrl).Some? ==>
              r == Ok(Reply("public, max-age=300", JsonContentType,
                DataBody(true, Ranked(fetchJson(DatasetUrl).value, requestedLimit, md5, entropy,
                                      localVideos, localImages, list), false)))
    ensures local.Missing? && BlobLatest(list, fetchJson).None? && fetchJson(DatasetUrl).None? ==>
              r == Ok(Reply("public, max-age=60", JsonContentType, DataBody(true, [], false)))
  {
    match local {
      case Unreadable =>
        return Err(Uncaught);
      case Stored(stored) =>
        var ranked := RankItems(stored, requestedLimit, md5, entropy, localVideos, localImages, list);
        return Ok(Reply("public, max-age=120", JsonContentType, DataBody(true, ranked, true)));
      case Missing =>
        var fromBlob := BlobLatest(list, fetchJson);
        if fromBlob.Some? {
          var ranked := RankItems(fromBlob.value, requestedLimit, md5, entropy, localVideos, localImages, list);
          return Ok(Reply("public, max-age=300", JsonContentType, DataBody(true, ranked, true)));
        }
        var remote := fetchJson(DatasetUrl);
        if remote.None? {
          return Ok(Reply("public, max-age=60", JsonContentType, DataBody(true, [], false)));
        }
        var ranked := RankItems(remote.value, requestedLimit, md5, entropy, localVideos, localImages, list);
        return Ok(Reply("public, max-age=300", JsonContentType, DataBody(true, ranked, false)));
    }
  }

  /** `toResponse(withLocalPaths(items, blobVideoSet, blobImageSet))`, with the two
      listings made first. */
  method RankItems(items: seq<PostItem>, requestedLimit: Option<int>, md5: Md5Hex, entropy: nat -> string,
                   localVideos: set<string>, localImages: set<string>, list: string -> Option<seq<BlobEntry>>)
    returns (ranked: seq<PostItem>)
    ensures ranked == Ranked(items, requestedLimit, md5, entropy, localVideos, localImages, list)
  {
    var limit := ClampLimit(requestedLimit);
    var videos := ListFilenames(VideoPrefix, list(VideoPrefix));
    var images := ListFilenames(ImagePrefix, list(ImagePrefix));
    var enriched := WithLocalPaths(items, md5, entropy, localVideos, localImages, videos, images);
    assert enriched == EnrichAll(items, md5, entropy, localVideos, localImages, videos, images);
    ranked := MostLiked(enriched, limit);
  }
}
