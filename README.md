# Media pipeline of the blog server, in Dafny

This project models the server side of a Nuxt blog that mirrors Instagram posts into a
local media cache and serves them. It covers five parts:

- `GET /api/data`, in module `DataQuery`. It returns the most-liked stored posts. It also
  holds the limit clamp and the ranking that `/api/data.json` uses too.
- `GET /api/data.json`, in module `DataJson`. It returns the ranked posts, each with the
  address of its cached video and thumbnail. An address comes from the local cache
  directories or from the blob store, and the posts come from the first source that
  answers.
- `GET /api/proxy`, in module `Proxy`. It is a media proxy for the two Instagram CDN
  domains. It validates the request in a fixed order, gates on the upstream status,
  content type and size, passes headers through and synthesises a Content-Type.
- `GET /api/media/sync`, in module `Sync`. This is the ingestion pass. It downloads each
  post's video and thumbnail into the cache under a name derived from the post, then
  writes a timestamped snapshot and `latest.json`.
- The media catalog `MediaDatabase`, in module `MediaDb`. It keeps a map from id to media
  record in insertion order, performs lookups that stamp the access time, and reports
  statistics.

The support modules are:

- `Wrappers`: `Option`, `Result`, and the HTTP failure value.
- `Strings`: ASCII case mapping, prefix, suffix and substring tests, and decimal rendering.
- `JsMaps`: a JavaScript `Map` as an ordered key list plus a finite map.
- `Urls`: the part of URL parsing the handlers rely on.
- `Paths`: the POSIX `extname`.
- `Posts`: the post record and `safeBaseId`.

Stateful code is written as classes with `modifies` clauses:

- `MediaDb.MediaDatabase` holds the catalog map.
- `Sync.MediaCache` holds the cache directories and the data files.

The loops of the source are methods with loop invariants. Each method is proved equal to a
specification function, and the properties are proved about those functions:

- `DataJson.ListFilenames`, `DataJson.ResolveField` and `DataJson.WithLocalPaths`;
- `Proxy.ForwardHeaders`;
- the item loop in `Sync.MediaCache.SyncAll`;
- `MediaDb.MediaDatabase.Load` and `MediaDb.MediaDatabase.FindByUrl`.

The outside world is passed in as parameters. Each is a value or function:

- a set of file names for each cache directory;
- a blob listing for a prefix;
- the posts a URL serves;
- the outcome of a download;
- whether a write succeeds;
- the current time;
- the MD5 digest, as an uninterpreted function that yields 32 lower-case hex digits;
- `Math.random()`, as a text drawn for each item.

## Model

| member | source | states |
|---|---|---|
| Posts.FirstTruthySpec | server/api/data.json.get.ts:21 | the `a \|\| b \|\| ...` chain yields the value at the first truthy position, and nothing exactly when no position is truthy |
| Posts.SafeBaseId | server/api/data.json.get.ts:20-23 | the id of a post is 12 lower-case hex characters |
| Posts.SameKeySameBaseId | server/api/media/sync.get.ts:54-63 | two posts whose first truthy key among id, shortcode, url, videoUrl, displayUrl agrees get the same id, whatever the random fallback would have drawn |
| DataQuery.ClampLimit | server/api/data.get.ts:11 | the limit lies in [1, 200] and is the point of that range nearest the requested number (30 when absent) |
| DataQuery.ClampLimitCases | server/api/data.json.get.ts:106 | an absent limit gives 30; one in range is kept; one below 1 gives 1; one above 200 gives 200 |
| DataQuery.Insert | server/api/data.get.ts:21 | inserting into a list ordered by descending likes keeps it ordered and adds exactly the one post |
| DataQuery.SortByLikes | server/api/data.get.ts:21 | the sorted copy is a permutation of the input, ordered by descending likes, with a missing count taken as 0 |
| DataQuery.InsertWithLikes | server/api/data.get.ts:21 | among the posts with its like count, an inserted post comes first, ahead of those already in the list |
| DataQuery.SortIsStable | server/api/data.get.ts:21 | posts with equal like counts keep their input order, as the stable array sort does |
| DataQuery.CutOrdered | server/api/data.get.ts:22 | cutting an ordered list leaves in the tail only posts with at most as many likes as any post kept |
| DataQuery.MostLiked | server/api/data.json.get.ts:109-113 | the answer has min(limit, n) posts, is ordered by descending likes, is drawn from the input (as a multiset), and no post left out has more likes than a post kept |
| DataQuery.MostLikedIsPermutationPrefix | server/api/data.get.ts:21-22 | the answer is a prefix of an ordering of all the input posts |
| DataQuery.HandleData | server/api/data.get.ts:9-25 | a missing file gives an empty uncached success; a stored list gives its top `limit` posts, cached, in non-increasing like order, drawn from the list, with no post left out liked more than one kept; an unreadable file gives an uncaught error |
| DataJson.EntryNameSpec | server/api/data.json.get.ts:31-45 | an entry is filed under its pathname less the prefix when the pathname starts with it; otherwise under the last `/` segment of the pathname, else of its URL's path; without a pathname or parsable URL, under no name |
| DataJson.ListFilenames | server/api/data.json.get.ts:25-52 | the listing loop builds the map of `NamesOf`; a failed listing gives the empty map |
| DataJson.NamesOfValid | server/api/data.json.get.ts:27-47 | the map built is a well-formed ordered map |
| DataJson.AddEntryEffect | server/api/data.json.get.ts:46 | one turn files the entry's URL under its name when that name is non-empty and the URL truthy, and changes no other name |
| DataJson.NamesOfKeys | server/api/data.json.get.ts:30-47 | the map holds a name exactly when some entry with a non-empty name and a URL is filed under it |
| DataJson.NamesOfLastWins | server/api/data.json.get.ts:46 | a name maps to the URL of the last entry filed under it |
| DataJson.FindMatch | server/api/data.json.get.ts:71 | the index of the first blob name that equals `<id>_<role><ext>` or starts with `<id>_<role>-` and ends in `ext` case-insensitively; none exactly when no name matches |
| DataJson.TierHit | server/api/data.json.get.ts:64-77 | for one extension, the local file wins; else, with a non-empty blob map, the first matching name gives its blob URL (its route when that URL is empty); else no hit |
| DataJson.FirstHitSpec | server/api/data.json.get.ts:63-78 | the walk yields the hit of the first extension that has one, and nothing exactly when none does |
| DataJson.ResolveField | server/api/data.json.get.ts:62-79 | the `for` loop with its two `break`s computes `Resolve`: a truthy field stays, otherwise the first hit |
| DataJson.EnrichItem | server/api/data.json.get.ts:57-100 | the callback body sets both fields of the copied post as `Enriched` describes |
| DataJson.WithLocalPaths | server/api/data.json.get.ts:54-102 | the output has one post per input post, in order, each the enriched copy of its input |
| DataJson.EnrichAll | server/api/data.json.get.ts:57 | the enrichment keeps the number of posts |
| DataJson.EnrichAllKeepsFields | server/api/data.json.get.ts:54-102 | every post keeps its place, and only its unset local-URL fields change |
| DataJson.EnrichedKeepsFields | server/api/data.json.get.ts:58-62 | a truthy local field is never overwritten, and nothing but the two local fields changes |
| DataJson.ResolveFirstHit | server/api/data.json.get.ts:62-79 | an unset field gets the hit of the first extension, in the kind's order, that has one; when no extension hits it stays unset |
| DataJson.BlobMp4BeatsLocalWebm | server/api/data.json.get.ts:63-77 | the walk goes extension by extension, so a blob `.mp4` is chosen over a local `.webm` |
| DataJson.LocalWinsPerExtension | server/api/data.json.get.ts:64-69 | a local file for the first extension wins over any blob |
| DataJson.RankItems | server/api/data.json.get.ts:106-132 | the posts answered are the posts enriched from both blob listings, ranked by likes and cut at the clamped limit |
| DataJson.HandleDataJson | server/api/data.json.get.ts:104-153 | the sources are tried in order: local file (max-age=120, cached), blob latest (max-age=300, cached), remote dataset (max-age=300, uncached), else an empty success (max-age=60); an unreadable local file gives an error |
| Proxy.AllowedHostIff | server/api/proxy.get.ts:5-12 | a host is allowed exactly when it is zero or more `[A-Za-z0-9-]+.` labels followed by `fbcdn.net` or `cdninstagram.com`, in any case |
| Proxy.MatchesLabelsUnder | server/api/proxy.get.ts:6-7 | every host a pattern accepts is the domain itself or ends in `.` and the domain |
| Proxy.RejectsGlued | server/api/proxy.get.ts:6-7 | letters glued in front of an allowed domain without a dot give a host that is refused |
| Proxy.RejectsLookalikes | server/api/proxy.get.ts:5-12 | `evilfbcdn.net` and `attacker.com` are refused |
| Proxy.RejectsHost | server/api/proxy.get.ts:5-12 | a host of neither domain's length, with no dot just before where either domain would start, is refused |
| Proxy.AcceptsSubdomains | server/api/proxy.get.ts:5-8 | one more label in front of an allowed host keeps it allowed, at any depth |
| Proxy.FirstIncludedSpec | server/api/proxy.get.ts:119-128 | the type of the first table entry whose extension occurs in the path; none exactly when no extension occurs |
| Proxy.TypeFromPathIsFirstIncluded | server/api/proxy.get.ts:121-127 | the `if`/`else` chain picks by the precedence mp4, webm, mov, jpg/jpeg, png, webp |
| Proxy.MediaSuffixGetsType | server/api/proxy.get.ts:14-25 | a path ending in one of the seven media extensions gets a synthesised type |
| Proxy.AllowedExtGetsType | server/api/proxy.get.ts:14-25 | a URL that passes the extension test always gets a synthesised type |
| Proxy.Validate | server/api/proxy.get.ts:27-52 | the checks run in order and the first that fails decides: 405 for a method other than GET or HEAD, where an absent or empty method counts as GET; 400 for a missing url, 400 for one that does not parse, 400 for a scheme other than https, 403 for a host off the list |
| Proxy.ValidatedTarget | server/api/proxy.get.ts:46-52 | the request the handler issues after validation goes by GET or HEAD to an https URL on one of the two domains or a subdomain of one |
| Proxy.UpstreamHeaders | server/api/proxy.get.ts:54-64 | the upstream request carries the five browser-like headers, plus `range` exactly when the client sent one |
| Proxy.UpstreamError | server/api/proxy.get.ts:74-76 | a refused upstream status is surfaced as that status (502 for 0), with message `Upstream error <status>` |
| Proxy.UpstreamType | server/api/proxy.get.ts:78 | the content type the gates test is lower case |
| Proxy.NumberOf | server/api/proxy.get.ts:89 | a Content-Length is a number exactly when it is non-empty decimal digits |
| Proxy.NumberOfRoundTrip | server/api/proxy.get.ts:89 | a length written in decimal is read back as itself |
| Proxy.TooLargeLimit | server/api/proxy.get.ts:86-93 | a Content-Length is refused exactly when it exceeds 262144000 bytes; an absent one passes |
| Proxy.Forwarded | server/api/proxy.get.ts:106-109 | of the seven listed headers, exactly the non-empty ones are copied under their response names, with their upstream values, and nothing else is |
| Proxy.ResponseHeadersSpec | server/api/proxy.get.ts:96-130 | Vary is `Range`; X-Proxy-Host is the target host; Cache-Control is upstream's or `public, max-age=3600`; no header outside the list is sent |
| Proxy.ResponseContentType | server/api/proxy.get.ts:119-128 | the Content-Type is upstream's unless it is missing or an octet-stream; then it is the URL's type when the URL names one |
| Proxy.ForwardHeaders | server/api/proxy.get.ts:106-109 | the `for` loop over `headerMap` copies exactly the headers `Forwarded` describes |
| Proxy.PassHeaders | server/api/proxy.get.ts:96-130 | the header loop and the fix-ups that follow it build `ResponseHeaders` |
| Proxy.ResponseHeadersFrame | server/api/proxy.get.ts:106-116 | the copied headers are non-empty, hold no Vary, and hold Content-Type exactly when upstream sent a truthy one |
| Proxy.Respond | server/api/proxy.get.ts:74-137 | a reply is sent exactly when the status is ok or 206, the type passes and the size passes; each refusal has its status and message; the reply mirrors upstream's status and streams a body only for a non-HEAD request with a body |
| Proxy.OctetReplyIsTyped | server/api/proxy.get.ts:78-128 | an accepted octet-stream reply always carries the media type its URL names |
| Proxy.Relay | server/api/proxy.get.ts:74-137 | the handler's statements from the status check on compute `Respond` |
| Proxy.HandleProxy | server/api/proxy.get.ts:27-142 | a validation failure is returned as is; a failed fetch gives 502; otherwise the reply is `Respond` on what came back |
| Urls.ParseUrl | server/api/proxy.get.ts:41 | the input is prepared first; a prepared string without a scheme does not parse; a parsed URL's protocol is the lower-cased scheme and a colon; a special-scheme URL has a valid lower-case host and a path starting with `/` |
| Urls.PrepareSpec | server/api/proxy.get.ts:41 | the prepared input holds no tab or newline, and an input with no control character or space is left as it is |
| Urls.ParseHostForm | server/api/proxy.get.ts:39-44 | `scheme://host/path?query` parses to that protocol, the lower-cased host, the path (or `/`) and the query |
| Paths.Extname | server/api/media/sync.get.ts:25 | the extension is empty or a dot followed by no dot and no slash |
| Paths.ExtnameOfName | server/api/media/sync.get.ts:25 | the extension of `dir/stem.x` is `.x` |
| Sync.UrlExt | server/api/media/sync.get.ts:22-31 | an unparsable URL gives nothing; otherwise the lower-cased extension of the path when it is non-empty and at most 5 characters long, else nothing |
| Sync.UrlExtOfFile | server/api/media/sync.get.ts:22-31 | for `https://host/dir/stem.x?query` the extension is `.x` in lower case when `x` has at most 4 characters, else nothing |
| Sync.UrlExtWithoutDot | server/api/media/sync.get.ts:22-31 | a URL whose last path component has no dot has no extension |
| Sync.FallbackVideoExt | server/api/media/sync.get.ts:33-38 | the result is `.mp4`, `.webm` or `.mov`; `.webm` exactly when the type names webm; `.mov` exactly when it names quicktime or mov and not webm; `.mp4` when there is no type |
| Sync.FallbackImageExt | server/api/media/sync.get.ts:40-46 | the result is `.webp`, `.png` or `.jpg`; `.webp` exactly when the type names webp; `.png` exactly when it names png and not webp; `.jpg` when there is no type |
| Sync.VideoTypesSelectExtension | server/api/media/sync.get.ts:33-38 | `video/webm`, `video/quicktime` and `video/mp4` select `.webm`, `.mov` and `.mp4` |
| Sync.ImageTypesSelectExtension | server/api/media/sync.get.ts:40-46 | `image/webp`, `image/png` and `image/jpeg` select `.webp`, `.png` and `.jpg` |
| Sync.PlainVideoType | server/api/media/sync.get.ts:33-38 | a content type with no `w`, no `q` and no `mo` falls back to `.mp4` |
| Sync.QuicktimeVideoType | server/api/media/sync.get.ts:33-38 | a content type without `w` that names `quicktime` selects `.mov` |
| Sync.PlainImageType | server/api/media/sync.get.ts:40-46 | a content type with no `w` and no `n` falls back to `.jpg` |
| Sync.PngImageType | server/api/media/sync.get.ts:40-46 | a content type without `w` that names `png` selects `.png` |
| Sync.SyncField | server/api/media/sync.get.ts:84-108 | the block fetches exactly when the checked name is absent; a present file is recorded without a write; after a fetch a file is recorded exactly when the response was ok and saved; a write uses the URL's extension, or the content type's when the URL has none |
| Sync.RerunFetchesIff | server/api/media/sync.get.ts:85-99 | a second run fetches again exactly when the URL has no extension and the first run saved under a name other than the default one |
| Sync.RerunWithExtensionSkips | server/api/media/sync.get.ts:85-89 | with an extension in the URL, a second run fetches nothing and records the same file |
| Sync.WebmWithoutExtensionRefetches | server/api/media/sync.get.ts:85-99 | a video URL with no extension served as webm is saved as `.webm` and is fetched again on every later run |
| Sync.SyncMediaSpec | server/api/media/sync.get.ts:82-109 | a block changes only its kind's local field and only when the post offers a URL of that kind; the field becomes the route of the recorded file, or stays when none was recorded; the directories only gain the written file |
| Sync.SyncItemSpec | server/api/media/sync.get.ts:77-139 | the loop body changes only the two local fields, only adds files, and each field is kept or is the route of an id-named file in the cache |
| Sync.LoopSize | server/api/media/sync.get.ts:77-140 | the loop gives one post per input post |
| Sync.ItemStepOnlyAdds | server/api/media/sync.get.ts:77-139 | the loop body never removes a file from either directory |
| Sync.LoopItem | server/api/media/sync.get.ts:77-140 | post i of the output is the loop body applied to input post i and the files the earlier posts left |
| Sync.LoopGrows | server/api/media/sync.get.ts:77-140 | with a body that never removes a file, the directories after a prefix of the posts lie within those after any longer prefix |
| Sync.ProcessedSpec | server/api/media/sync.get.ts:77-140 | order and length are kept, no file is removed, nothing but the local fields changes, and each local field is kept or is the route of a cached file named for its post |
| Sync.FailedDownloadKeepsField | server/api/media/sync.get.ts:106-108 | a failed, refused or unsaved download leaves the post and the directories as they were |
| Sync.ExistingFileIsLinked | server/api/media/sync.get.ts:89-105 | a file already cached is not written again, and the post still gets its route |
| Sync.CandidateInjective | server/api/media/sync.get.ts:86 | two file names of the same id and kind are equal only when their extensions are |
| Sync.SavedFileIsServed | server/api/data.json.get.ts:62-69 | a cached file whose extension is one the query endpoint searches is found for an unset field |
| Sync.SyncedFileIsServed | server/api/media/sync.get.ts:85-105 | every file a block records is served by the query endpoint when the URL's extension is absent or on the searched list |
| Sync.SavedOutsideListIsNotServed | server/api/data.json.get.ts:55-69 | a file saved under an extension outside the searched list is not found by the query endpoint |
| Sync.SnapshotNames | server/api/media/sync.get.ts:143 | snapshots of different instants get different names, none of them `latest.json` |
| Sync.MediaCache.SaveMedia | server/api/media/sync.get.ts:84-108 | the block on the cache directories records the file of `SyncField` and adds exactly what it writes |
| Sync.MediaCache.SyncBlock | server/api/media/sync.get.ts:82-109 | one block on the cache computes `SyncMedia` on the post and the directories |
| Sync.MediaCache.SyncPost | server/api/media/sync.get.ts:77-139 | the loop body on the cache runs the video block, then the thumbnail block, under the post's `safeBaseId`, and leaves the data files alone |
| Sync.MediaCache.SyncAll | server/api/media/sync.get.ts:77-140 | the loop on the cache yields the processed posts in order and leaves the directories as the fold of the loop body leaves them |
| Sync.MediaCache.Sync | server/api/media/sync.get.ts:65-157 | a failure to create the directories, fetch the dataset or write either file gives the single 500, with what was written so far; otherwise the reply counts the input posts and names the snapshot, both files hold the processed posts, and the file the reply names holds the same document as `latest.json` |
| JsMaps.SetSpec | server/utils/media-db.ts:78 | `Map.set` maps the key to the value, keeps every other key, and keeps the position of a present key or appends a new one |
| JsMaps.Values | server/utils/media-db.ts:104 | the values come one per key, in key order |
| MediaDb.Touch | server/utils/media-db.ts:86 | a touched record differs from the original only in `metadata.lastAccessed`, which is the access time |
| MediaDb.LoadedValid | server/utils/media-db.ts:59-61 | loading keeps the map well formed |
| MediaDb.LoadedUntouched | server/utils/media-db.ts:59-61 | an id no loaded record carries keeps its entry |
| MediaDb.LoadedLastWins | server/utils/media-db.ts:59-61 | with duplicate ids, the last record carrying an id wins |
| MediaDb.LoadedSize | server/utils/media-db.ts:59-61 | loading into the empty catalog holds exactly the ids of the list, so its size is the number of distinct ids |
| MediaDb.FirstWithUrl | server/utils/media-db.ts:93-94 | the index of the first record with the URL; none exactly when no record has it |
| MediaDb.FormatBytes | server/utils/media-db.ts:122-123 | zero bytes is written `0 Bytes` |
| MediaDb.CountsAddUp | server/utils/media-db.ts:110-111 | since a record is an image or a video, the two counts add up to the number of records |
| MediaDb.SameShapeSameStats | server/utils/media-db.ts:107-119 | the statistics depend only on each record's size and type |
| MediaDb.AddNewRecordStats | server/utils/media-db.ts:77-80 | adding a record under a new id adds one record, its size, and one to the count of its type |
| MediaDb.TouchKeepsStats | server/utils/media-db.ts:82-90 | stamping a record's access time leaves the statistics as they were |
| MediaDb.MediaDatabase.constructor | server/utils/media-db.ts:24 | a new catalog is empty |
| MediaDb.MediaDatabase.Load | server/utils/media-db.ts:54-66 | a missing or unreadable file leaves the catalog as it was; otherwise each record is set under its id, in order |
| MediaDb.MediaDatabase.AddRecord | server/utils/media-db.ts:77-80 | the id now maps to the record, and every other id keeps its entry |
| MediaDb.MediaDatabase.GetRecord | server/utils/media-db.ts:82-90 | an absent id gives nothing and changes nothing; a present one gives its record stamped with the access time, which also replaces it in the catalog |
| MediaDb.MediaDatabase.FindByUrl | server/utils/media-db.ts:92-101 | the first record in insertion order with the URL is stamped, stored and returned; when no record has it, nothing is returned and nothing changes |
| MediaDb.MediaDatabase.GetAllRecords | server/utils/media-db.ts:103-105 | exactly the map's values, one per key, in insertion order |
| MediaDb.MediaDatabase.GetStats | server/utils/media-db.ts:107-120 | the statistics of the values; the total is the number of entries, split exactly into images and videos |

## Left out

- The I/O is not modelled; all of it becomes parameters:
  - file reads, writes and existence checks (`readFile`, `writeFile`, `existsSync`, `mkdir`);
  - the network (`fetch`, `$fetch`, the blob store `list`);
  - body streaming (`Readable.fromWeb`, `sendStream`);
  - JSON parse and stringify. A parsed document is a `seq<PostItem>` or a record list, and one that fails to parse is `None` or `Unreadable`.
- The request headers of the ingestion downloads (`IG_FETCH_HEADERS`) and all console logging are not modelled: they have no effect on any result.
- URL parsing is a simplified WHATWG parser.
  - Modelled:
    - leading and trailing C0 controls and spaces are stripped, and every tab and newline is removed;
    - the scheme, with `\` read as `/` and the slashes after a special scheme skipped;
    - user info up to the last `@`, a port of decimal digits, and hosts lower-cased and refused for the listed forbidden characters;
    - the path, the query, and the fragment, which is dropped.
  - Not modelled:
    - the port range 0-65535;
    - percent-encoding, IDNA and non-ASCII case mapping;
    - IPv4 number forms and IPv6 hosts;
    - forbidden host characters outside the list;
    - dot-segment removal.

  The properties are stated for URLs of the plain `https://host/path?query` form.
- Proxy.ValidatedTarget: `fetch` follows redirects, and where a redirect leads is not modelled. The host check covers the request the handler issues, not what the CDN redirects it to.
- Proxy.NumberOf: only plain decimal digits count as a number. Signs, exponents, hex, surrounding blanks and fractions, which `Number()` also accepts, are treated as not a number.
- The `limit` query parameter is taken as an integer or absent. `Number()` giving NaN and fractional limits are not modelled.
- `MediaRecord.size` is an integer; JavaScript's floating-point number is not modelled.
- `Math.random()` in `safeBaseId` is the text `entropy(i)` drawn for post i. MD5 is any function from text to 32 lower-case hex digits.
- Posts.SameKeySameBaseId: this holds by the definition alone, so it carries no proof of its own.
- `Date.now()` and `new Date().toISOString()` are inputs: `now` and an access-time string.
- Sync.MediaCache.Sync: the download oracle answers by URL. Two fetches of the same URL in one run therefore get the same outcome.
- Sync.MediaCache.Sync: a write that fails part-way is not modelled. A failed write leaves no file.
- Sync.MediaCache.Sync: the ingestion pass is stated for any extension function. The handler passes `UrlExt`.
- The environment's base directory, `MEDIA_CACHE_DIR`, `VERCEL` and the blob token are not modelled. Each cache directory is a set of file names.
- `MediaDatabase` aliasing is not modelled:
  - records are values;
  - the record `getRecord` and `findByUrl` return is the stamped copy that is also stored;
  - later mutation of a returned object by a caller is not modelled.
- The persistence of the catalog is not modelled: `init`, `ensureDirectories` and `save` are I/O. Neither is the asynchronous, unawaited `init` of the constructor.
- MediaDb.FormatBytes: only the zero case is stated. Other sizes are rendered by a parameter, because `Math.log`, `Math.pow` and `Math.round` are floating-point arithmetic.
- The proxy's acceptance of status 206 falls under `res.ok`, since 206 is in 200-299.
- The proxy's `Vary` header is always `Range`: the pass-through record never holds `Vary` before that line.
- The static configuration files, the `/eventos/parroquia` redirect and the media delivery endpoints `/api/media/video/[filename]` and `/api/media/image/[filename]` are not part of this model.
