/** The post records both the ingestion pass and the query endpoints handle, and
    the short id (`safeBaseId`) that names an item's cached media files. */
module Posts {
  import opened Wrappers
  import opened Strings

  /** A post of the remote dataset. The fields the handlers read are named; all
      others travel in `others` unchanged. */
  datatype PostItem = PostItem(
    id: Option<string>,
    shortcode: Option<string>,
    url: Option<string>,
    videoUrl: Option<string>,
    displayUrl: Option<string>,
    likesCount: Option<int>,
    localVideoUrl: Option<string>,
    localDisplayUrl: Option<string>,
    others: map<string, string>)

  /** `item.likesCount || 0` */
  function Likes(item: PostItem): int {
    item.likesCount.GetOr(0)
  }

  /** The natural keys of an item, in the order `safeBaseId` tries them. */
  function KeyFields(item: PostItem): seq<Option<string>> {
    [item.id, item.shortcode, item.url, item.videoUrl, item.displayUrl]
  }

  /** `a || b || ...`: the first truthy value of the list. */
  function FirstTruthy(fields: seq<Option<string>>): (r: Option<string>)
  {
    if fields == [] then None
    else if Truthy(fields[0]) then fields[0]
    else FirstTruthy(fields[1..])
  }

  /** `FirstTruthy` finds the value at the first truthy position, and nothing
      exactly when no position is truthy. */
  lemma {:induction false} FirstTruthySpec(fields: seq<Option<string>>)
    ensures FirstTruthy(fields).None? <==> forall i :: 0 <= i < |fields| ==> !Truthy(fields[i])
    ensures FirstTruthy(fields).Some? ==>
              exists i :: 0 <= i < |fields| && fields[i] == FirstTruthy(fields) &&
                          Truthy(fields[i]) && forall j :: 0 <= j < i ==> !Truthy(fields[j])
  {
    if fields != [] && !Truthy(fields[0]) {
      FirstTruthySpec(fields[1..]);
      assert forall i :: 1 <= i < |fields| ==> fields[i] == fields[1..][i - 1];
      if FirstTruthy(fields).Some? {
        var i :| 0 <= i < |fields[1..]| && fields[1..][i] == FirstTruthy(fields[1..]) &&
                 Truthy(fields[1..][i]) && forall j :: 0 <= j < i ==> !Truthy(fields[1..][j]);
        assert fields[i + 1] == FirstTruthy(fields);
        assert forall j :: 0 <= j < i + 1 ==> !Truthy(fields[j]) by {
          forall j | 0 <= j < i + 1 ensures !Truthy(fields[j]) {
            if j > 0 { assert fields[j] == fields[1..][j - 1]; }
          }
        }
      }
    } else if fields != [] {
      assert fields[0] == FirstTruthy(fields);
    }
  }

  /** `item?.id || item?.shortcode || item?.url || item?.videoUrl || item?.displayUrl` */
  function NaturalKey(item: PostItem): Option<string> {
    FirstTruthy(KeyFields(item))
  }

  predicate IsLowerHexChar(c: char) {
    IsAsciiDigit(c) || 'a' <= c <= 'f'
  }

  predicate IsLowerHex(s: string) {
    forall i :: 0 <= i < |s| ==> IsLowerHexChar(s[i])
  }

  const ZeroDigest: string := "00000000000000000000000000000000"

  /** `crypto.createHash('md5').update(s).digest('hex')`: 32 lower-case hex digits.
      The digest itself is left uninterpreted: any such function may stand for it. */
  type Md5Hex = f: string -> string | forall s :: |f(s)| == 32 && IsLowerHex(f(s))
    witness (s: string) => ZeroDigest

  /** `safeBaseId(item)`: the first 12 hex digits of the MD5 of the natural key. An
      item with no truthy key hashes `entropy`, the text of the `Math.random()`
      value drawn for it. */
  function SafeBaseId(item: PostItem, md5: Md5Hex, entropy: string): (id: string)
    ensures |id| == 12 && IsLowerHex(id)
  {
    var base := match NaturalKey(item)
      case Some(k) => k
      case None => entropy;
    md5(base)[..12]
  }

  /** Two items that agree on the first truthy natural key get the same id, in any
      run: the random fallback does not enter. */
  lemma SameKeySameBaseId(a: PostItem, b: PostItem, md5: Md5Hex, entropyA: string, entropyB: string)
    requires NaturalKey(a).Some? && NaturalKey(a) == NaturalKey(b)
    ensures SafeBaseId(a, md5, entropyA) == SafeBaseId(b, md5, entropyB)
  {
  }

  /** The two kinds of cached asset an item may reference. */
  datatype MediaKind = Video | Image {
    /** The role word in the cached file name. */
    function Role(): string {
      match this
      case Video => "video"
      case Image => "thumb"
    }

    /** The extensions the query endpoint looks for, in order. */
    function Exts(): seq<string> {
      match this
      case Video => [".mp4", ".webm", ".mov"]
      case Image => [".webp", ".jpg", ".jpeg", ".png"]
    }

    /** The extension the ingestion pass assumes when the URL has none. */
    function DefaultExt(): string {
      match this
      case Video => ".mp4"
      case Image => ".jpg"
    }

    /** The server route that delivers a cached file of this kind. */
    function Route(): string {
      match this
      case Video => "/api/media/video/"
      case Image => "/api/media/image/"
    }
  }

  /** `${baseId}_video${ext}` or `${baseId}_thumb${ext}` */
  function Candidate(baseId: string, kind: MediaKind, ext: string): string {
    baseId + "_" + kind.Role() + ext
  }
}
