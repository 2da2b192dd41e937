/** `GET /api/data` (server/api/data.get.ts): the most-liked posts of the stored
    `latest.json`, and the limit clamp and ranking it shares with `/api/data.json`. */
module DataQuery {
  import opened Wrappers
  import opened Posts

  const DefaultLimit: int := 30
  const MaxLimit: int := 200

  function Dist(a: int, b: int): nat {
    if a <= b then b - a else a - b
  }

  function Min(a: int, b: int): int {
    if a <= b then a else b
  }

  /** `Math.max(1, Math.min(200, Number(q.limit || 30)))`. `requested` is the number
      the `limit` query parameter holds, `None` when it is absent or empty. The result
      is the point of [1, 200] nearest to the requested value (30 by default). */
  function ClampLimit(requested: Option<int>): (limit: int)
    ensures 1 <= limit <= MaxLimit
    ensures forall v :: 1 <= v <= MaxLimit ==>
              Dist(limit, requested.GetOr(DefaultLimit)) <= Dist(v, requested.GetOr(DefaultLimit))
  {
    var n := requested.GetOr(DefaultLimit);
    if n > MaxLimit then MaxLimit else if n < 1 then 1 else n
  }

  lemma ClampLimitCases(requested: Option<int>)
    ensures requested.None? ==> ClampLimit(requested) == DefaultLimit
    ensures requested.Some? && 1 <= requested.value <= MaxLimit ==> ClampLimit(requested) == requested.value
    ensures requested.Some? && requested.value < 1 ==> ClampLimit(requested) == 1
    ensures requested.Some? && requested.value > MaxLimit ==> ClampLimit(requested) == MaxLimit
  {
    var n := requested.GetOr(DefaultLimit);
    var l := ClampLimit(requested);
    if 1 <= n <= MaxLimit {
      assert Dist(l, n) <= Dist(n, n);
    } else if n < 1 {
      assert Dist(l, n) <= Dist(1, n);
    } else {
      assert Dist(l, n) <= Dist(MaxLimit, n);
    }
  }

  /** Ordered from most to fewest likes (a missing count being 0). */
  ghost predicate NonIncreasing(s: seq<PostItem>) {
    forall i, j :: 0 <= i < j < |s| ==> Likes(s[i]) >= Likes(s[j])
  }

  /** Places `x` before the first element that has no more likes than it, so that
      it precedes the elements with as many likes that come after it in the input. */
  function Insert(x: PostItem, s: seq<PostItem>): (r: seq<PostItem>)
    requires NonIncreasing(s)
    ensures multiset(r) == multiset(s) + multiset{x}
    ensures NonIncreasing(r)
    ensures |r| > 0 && (r[0] == x || (s != [] && r[0] == s[0]))
  {
    if s == [] || Likes(x) >= Likes(s[0]) then
      ConsNonIncreasing(x, s);
      [x] + s
    else
      TailNonIncreasing(s);
      var rest := Insert(x, s[1..]);
      assert Likes(s[0]) >= Likes(rest[0]);
      ConsNonIncreasing(s[0], rest);
      assert s == [s[0]] + s[1..];
      [s[0]] + rest
  }

  lemma ConsNonIncreasing(a: PostItem, t: seq<PostItem>)
    requires NonIncreasing(t) && (t == [] || Likes(a) >= Likes(t[0]))
    ensures NonIncreasing([a] + t)
  {
    forall i, j | 0 <= i < j < |[a] + t| ensures Likes(([a] + t)[i]) >= Likes(([a] + t)[j]) {
      if i == 0 {
        assert ([a] + t)[j] == t[j - 1];
        assert Likes(t[0]) >= Likes(t[j - 1]) || j == 1;
      } else {
        assert ([a] + t)[i] == t[i - 1] && ([a] + t)[j] == t[j - 1];
      }
    }
  }

  lemma TailNonIncreasing(s: seq<PostItem>)
    requires NonIncreasing(s) && s != []
    ensures NonIncreasing(s[1..])
  {
    forall i, j | 0 <= i < j < |s[1..]| ensures Likes(s[1..][i]) >= Likes(s[1..][j]) {
      assert s[1..][i] == s[i + 1] && s[1..][j] == s[j + 1];
    }
  }

  /** `[...items].sort((a, b) => (b.likesCount || 0) - (a.likesCount || 0))`: the
      stable sort by likes, most first. */
  function SortByLikes(s: seq<PostItem>): (r: seq<PostItem>)
    ensures multiset(r) == multiset(s)
    ensures |r| == |s|
    ensures NonIncreasing(r)
  {
    if s == [] then []
    else
      assert s == [s[0]] + s[1..];
      Insert(s[0], SortByLikes(s[1..]))
  }

  /** The elements with exactly `v` likes, in order. */
  function WithLikes(s: seq<PostItem>, v: int): seq<PostItem> {
    if s == [] then [] else (if Likes(s[0]) == v then [s[0]] else []) + WithLikes(s[1..], v)
  }

  lemma WithLikesCons(a: PostItem, t: seq<PostItem>, v: int)
    ensures WithLikes([a] + t, v) == (if Likes(a) == v then [a] else []) + WithLikes(t, v)
  {
    assert ([a] + t)[1..] == t;
  }

  lemma {:induction false} InsertWithLikes(x: PostItem, s: seq<PostItem>, v: int)
    requires NonIncreasing(s)
    ensures WithLikes(Insert(x, s), v) == (if Likes(x) == v then [x] else []) + WithLikes(s, v)
    decreases |s|
  {
    if s == [] || Likes(x) >= Likes(s[0]) {
      WithLikesCons(x, s, v);
    } else {
      var rest := Insert(x, s[1..]);
      WithLikesCons(s[0], rest, v);
      InsertWithLikes(x, s[1..], v);
      WithLikesCons(s[0], s[1..], v);
      assert s == [s[0]] + s[1..];
    }
  }

  /** The sort is stable: for every like count, the posts with that count keep
      their input order. */
  lemma {:induction false} SortIsStable(s: seq<PostItem>, v: int)
    ensures WithLikes(SortByLikes(s), v) == WithLikes(s, v)
    decreases |s|
  {
    if s != [] {
      SortIsStable(s[1..], v);
      InsertWithLikes(s[0], SortByLikes(s[1..]), v);
    }
  }

  /** Cutting an ordered list after `k` elements leaves behind only elements with no
      more likes than any kept one. */
  lemma CutOrdered(sorted: seq<PostItem>, k: nat)
    requires NonIncreasing(sorted) && k <= |sorted|
    ensures multiset(sorted[..k]) <= multiset(sorted)
    ensures multiset(sorted) - multiset(sorted[..k]) == multiset(sorted[k..])
    ensures NonIncreasing(sorted[..k])
    ensures forall x, i :: x in multiset(sorted[k..]) && 0 <= i < k ==> Likes(x) <= Likes(sorted[i])
  {
    assert sorted == sorted[..k] + sorted[k..];
    forall i, j | 0 <= i < j < k ensures Likes(sorted[..k][i]) >= Likes(sorted[..k][j]) {
      assert sorted[..k][i] == sorted[i] && sorted[..k][j] == sorted[j];
    }
    forall x, i | x in multiset(sorted[k..]) && 0 <= i < k
      ensures Likes(x) <= Likes(sorted[i])
    {
      var j :| 0 <= j < |sorted[k..]| && sorted[k..][j] == x;
      assert sorted[k + j] == x;
    }
  }

  /** `sorted.slice(0, limit)` after the sort: the `limit` most-liked posts. No post
      left out has more likes than a post kept. */
  function MostLiked(items: seq<PostItem>, limit: nat): (r: seq<PostItem>)
    ensures |r| == Min(limit, |items|)
    ensures NonIncreasing(r)
    ensures multiset(r) <= multiset(items)
    ensures forall x, i :: x in multiset(items) - multiset(r) && 0 <= i < |r| ==> Likes(x) <= Likes(r[i])
  {
    var sorted := SortByLikes(items);
    var k := Min(limit, |items|);
    CutSorted(items, sorted, k);
    sorted[..k]
  }

  /** Cutting an ordering of `items` at `k` keeps `k` of them, in order, none liked
      less than any left behind. */
  lemma CutSorted(items: seq<PostItem>, sorted: seq<PostItem>, k: nat)
    requires multiset(sorted) == multiset(items) && NonIncreasing(sorted) && k <= |sorted|
    ensures NonIncreasing(sorted[..k])
    ensures multiset(sorted[..k]) <= multiset(items)
    ensures forall x, i :: x in multiset(items) - multiset(sorted[..k]) && 0 <= i < |sorted[..k]| ==>
              Likes(x) <= Likes(sorted[..k][i])
  {
    CutOrdered(sorted, k);
    forall x, i | x in multiset(items) - multiset(sorted[..k]) && 0 <= i < |sorted[..k]|
      ensures Likes(x) <= Likes(sorted[..k][i])
    {
      assert x in multiset(sorted[k..]);
      assert sorted[..k][i] == sorted[i];
    }
  }

  /** The answer is a prefix of an ordering of all the inputs. */
  lemma MostLikedIsPermutationPrefix(items: seq<PostItem>, limit: nat)
    ensures exists p :: multiset(p) == multiset(items) && NonIncreasing(p) &&
                        |MostLiked(items, limit)| <= |p| && MostLiked(items, limit) == p[..|MostLiked(items, limit)|]
  {
    var p := SortByLikes(items);
    assert MostLiked(items, limit) == p[..|MostLiked(items, limit)|];
  }

  /** What `latest.json` holds for the endpoint: no file, a file that cannot be read
      or parsed, or the stored posts. */
  datatype LatestFile = Missing | Unreadable | Stored(items: seq<PostItem>)

  /** The JSON body `{ success, mostLiked, cached }`. */
  datatype DataBody = DataBody(success: bool, mostLiked: seq<PostItem>, cached: bool)

  /** The handler: a missing file answers an empty, uncached success; a stored list
      answers its `limit` most-liked posts, cached. A file that exists but cannot be
      read or parsed raises an error the handler does not catch. */
  function HandleData(requestedLimit: Option<int>, latest: LatestFile): (r: Result<DataBody>)
    ensures latest.Missing? ==> r == Ok(DataBody(true, [], false))
    ensures latest.Unreadable? ==> r.Err? && r.error.StatusCode() == 500
    ensures latest.Stored? ==>
              && r.Ok? && r.value.success && r.value.cached
              && |r.value.mostLiked| == Min(ClampLimit(requestedLimit), |latest.items|)
              && NonIncreasing(r.value.mostLiked)
              && multiset(r.value.mostLiked) <= multiset(latest.items)
              && (forall x, i :: (x in multiset(latest.items) - multiset(r.value.mostLiked) &&
                                  0 <= i < |r.value.mostLiked|) ==> Likes(x) <= Likes(r.value.mostLiked[i]))
  {
    match latest
    case Missing => Ok(DataBody(true, [], false))
    case Unreadable => Err(Uncaught)
    case Stored(items) => Ok(DataBody(true, MostLiked(items, ClampLimit(requestedLimit)), true))
  }
}
