/** The data model of insta_trend_tool/models.py: an Instagram post with its
    derived fields and export record, one hashtag's fetch result with its
    engagement statistics, and the progress record shown while fetching.
    Timestamps are integers (seconds); floating point is replaced by exact
    reals. */
module Models {
  import opened Common
  import opened Sorting

  /** What `InstagramPost.to_dict` produces for export. `posted_at` stays an
      integer timestamp here (ISO formatting is not modelled). */
  datatype ExportRecord = ExportRecord(
    postUrl: string,
    shortcode: string,
    postedAt: int,
    likes: nat,
    comments: nat,
    engagementScore: nat,
    ownerUsername: string,
    caption: string,
    hashtags: string,
    postType: string,
    videoViews: Option<int>,
    location: Option<string>,
    isSponsored: bool)

  /** `InstagramPost`. Engagement, post type and the export record are member
      functions, so they are recomputed from the fields on every use. */
  datatype Post = Post(
    shortcode: string,
    postUrl: string,
    ownerUsername: string,
    ownerId: string,
    postedAt: int,
    likes: nat,
    comments: nat,
    caption: string,
    hashtags: seq<string>,
    isVideo: bool,
    videoViewCount: Option<int>,
    location: Option<string>,
    isSponsored: bool)
  {
    /** Likes plus comments. */
    function EngagementScore(): (r: nat)
      ensures r >= likes && r >= comments
      ensures r - comments == likes
    {
      likes + comments
    }

    function PostType(): (r: string)
      ensures r == "video" <==> isVideo
      ensures r == "photo" <==> !isVideo
    {
      if isVideo then "video" else "photo"
    }

    function ToDict(): (d: ExportRecord)
      ensures d.shortcode == shortcode && d.postUrl == postUrl && d.postedAt == postedAt
      ensures d.likes == likes && d.comments == comments
      ensures d.engagementScore == d.likes + d.comments
      ensures d.ownerUsername == ownerUsername && d.caption == caption
      ensures d.location == location && d.isSponsored == isSponsored
      ensures d.postType == "video" <==> isVideo
      ensures d.postType == "photo" <==> !isVideo
      ensures d.videoViews == (if isVideo then videoViewCount else None)
      ensures hashtags == [] ==> d.hashtags == ""
      ensures d.hashtags == Concat(Separated(hashtags))
      ensures hashtags != [] && NoCommaIn(hashtags) ==> SplitTags(d.hashtags) == hashtags
    {
      SplitJoinTags(hashtags);
      JoinTagsSeparated(hashtags);
      ExportRecord(
        postUrl, shortcode, postedAt, likes, comments, EngagementScore(),
        ownerUsername, caption, JoinTags(hashtags), PostType(),
        if isVideo then videoViewCount else None, location, isSponsored)
    }
  }

  /** The engagement score as a sort key. */
  function EngagementOf(p: Post): int { p.EngagementScore() }

  // ---------------------------------------------------------------------
  // `", ".join(tags)` and its inverse `s.split(", ")`
  // ---------------------------------------------------------------------

  function JoinTags(tags: seq<string>): string
  {
    if tags == [] then ""
    else if |tags| == 1 then tags[0]
    else tags[0] + ", " + JoinTags(tags[1..])
  }

  /** Python's `s.split(", ")`, with `cur` the part collected so far. */
  function SplitFrom(s: string, cur: string): (r: seq<string>)
    ensures |r| >= 1
    decreases |s|
  {
    if s == [] then [cur]
    else if |s| >= 2 && s[0] == ',' && s[1] == ' ' then [cur] + SplitFrom(s[2..], "")
    else SplitFrom(s[1..], cur + [s[0]])
  }

  /** Every tag followed by ", ", except the last. */
  function Separated(tags: seq<string>): (r: seq<string>)
    ensures |r| == |tags|
  {
    seq(|tags|, i requires 0 <= i < |tags| => if i < |tags| - 1 then tags[i] + ", " else tags[i])
  }

  /** `", ".join(tags)` is the tags laid end to end, each but the last
      followed by ", ", whatever characters the tags hold. */
  lemma {:induction false} JoinTagsSeparated(tags: seq<string>)
    ensures JoinTags(tags) == Concat(Separated(tags))
  {
    if tags == [] {
    } else if |tags| == 1 {
      ConcatCons(tags[0], []);
      assert Separated(tags) == [tags[0]] + [];
      assert tags[0] + "" == tags[0];
    } else {
      var rest := Separated(tags[1..]);
      JoinTagsSeparated(tags[1..]);
      assert Separated(tags) == [tags[0] + ", "] + rest;
      ConcatCons(tags[0] + ", ", rest);
      AppendAssoc(tags[0], ", ", Concat(rest));
    }
  }

  function SplitTags(s: string): seq<string> { SplitFrom(s, "") }

  ghost predicate NoCommaIn(tags: seq<string>) {
    forall i :: 0 <= i < |tags| ==> ',' !in tags[i]
  }

  lemma {:induction false} SplitFromPlain(t: string, u: string, cur: string)
    requires ',' !in t
    ensures SplitFrom(t + u, cur) == SplitFrom(u, cur + t)
  {
    if t == [] {
      assert t + u == u && cur + t == cur;
    } else {
      assert (t + u)[0] == t[0] && (t + u)[1..] == t[1..] + u;
      SplitFromPlain(t[1..], u, cur + [t[0]]);
      assert cur + [t[0]] + t[1..] == cur + t;
    }
  }

  lemma {:induction false} SplitFromJoin(tags: seq<string>, cur: string)
    requires tags != [] && NoCommaIn(tags)
    ensures SplitFrom(JoinTags(tags), cur) == [cur + tags[0]] + tags[1..]
  {
    if |tags| == 1 {
      SplitFromPlain(tags[0], "", cur);
      assert tags[0] + "" == tags[0];
    } else {
      var rest := JoinTags(tags[1..]);
      assert JoinTags(tags) == tags[0] + (", " + rest);
      SplitFromPlain(tags[0], ", " + rest, cur);
      assert (", " + rest)[2..] == rest;
      SplitFromJoin(tags[1..], "");
      assert "" + tags[1..][0] == tags[1];
      assert [tags[1]] + tags[2..] == tags[1..];
    }
  }

  /** Joining non-empty, comma-free tags is undone by splitting at ", ". */
  lemma SplitJoinTags(tags: seq<string>)
    ensures tags != [] && NoCommaIn(tags) ==> SplitTags(JoinTags(tags)) == tags
  {
    if tags != [] && NoCommaIn(tags) {
      SplitFromJoin(tags, "");
      assert "" + tags[0] == tags[0];
    }
  }

  // ---------------------------------------------------------------------
  // Sums over posts
  // ---------------------------------------------------------------------

  /** `sum(p.engagement_score for p in posts)`. */
  function SumEngagement(posts: seq<Post>): nat
  {
    if posts == [] then 0
    else SumEngagement(posts[..|posts| - 1]) + posts[|posts| - 1].EngagementScore()
  }

  function SumLikes(posts: seq<Post>): nat
  {
    if posts == [] then 0 else SumLikes(posts[..|posts| - 1]) + posts[|posts| - 1].likes
  }

  function SumComments(posts: seq<Post>): nat
  {
    if posts == [] then 0 else SumComments(posts[..|posts| - 1]) + posts[|posts| - 1].comments
  }

  /** The total engagement is total likes plus total comments. */
  lemma {:induction false} SumEngagementSplits(posts: seq<Post>)
    ensures SumEngagement(posts) == SumLikes(posts) + SumComments(posts)
  {
    if posts != [] {
      SumEngagementSplits(posts[..|posts| - 1]);
    }
  }

  lemma {:induction false} SumEngagementAppend(a: seq<Post>, b: seq<Post>)
    ensures SumEngagement(a + b) == SumEngagement(a) + SumEngagement(b)
  {
    if b == [] {
      assert a + b == a;
    } else {
      assert (a + b)[..|a + b| - 1] == a + b[..|b| - 1];
      assert (a + b)[|a + b| - 1] == b[|b| - 1];
      SumEngagementAppend(a, b[..|b| - 1]);
    }
  }

  /** Removing one occurrence of `x` lowers the sum by its score. */
  lemma {:induction false} SumEngagementRemove(s: seq<Post>, i: nat)
    requires i < |s|
    ensures SumEngagement(s) == SumEngagement(s[..i] + s[i + 1..]) + s[i].EngagementScore()
  {
    assert s == s[..i] + [s[i]] + s[i + 1..];
    SumEngagementAppend(s[..i] + [s[i]], s[i + 1..]);
    SumEngagementAppend(s[..i], [s[i]]);
    SumEngagementAppend(s[..i], s[i + 1..]);
    assert [s[i]][..0] == [];
  }

  lemma MultisetRemoveAt(s: seq<Post>, i: nat)
    requires i < |s|
    ensures multiset(s[..i] + s[i + 1..]) == multiset(s) - multiset{s[i]}
  {
    assert s == s[..i] + [s[i]] + s[i + 1..];
  }

  /** The total does not depend on the order of the posts. */
  lemma {:induction false} SumEngagementPermutation(a: seq<Post>, b: seq<Post>)
    requires multiset(a) == multiset(b)
    ensures SumEngagement(a) == SumEngagement(b)
    decreases |a|
  {
    if a == [] {
      assert |b| == |multiset(b)| == 0;
    } else {
      var init, x := a[..|a| - 1], a[|a| - 1];
      assert a == init + [x];
      assert multiset(a) == multiset(init) + multiset{x};
      assert x in multiset(b);
      var j :| 0 <= j < |b| && b[j] == x;
      MultisetRemoveAt(b, j);
      SumEngagementPermutation(init, b[..j] + b[j + 1..]);
      SumEngagementRemove(b, j);
    }
  }

  /** `sum(1 for p in posts if p.is_video)`. */
  function CountVideos(posts: seq<Post>): (r: nat)
    ensures r <= |posts|
  {
    if posts == [] then 0
    else CountVideos(posts[..|posts| - 1]) + (if posts[|posts| - 1].isVideo then 1 else 0)
  }

  lemma {:induction false} CountVideosAppend(a: seq<Post>, b: seq<Post>)
    ensures CountVideos(a + b) == CountVideos(a) + CountVideos(b)
  {
    if b == [] {
      assert a + b == a;
    } else {
      assert (a + b)[..|a + b| - 1] == a + b[..|b| - 1];
      assert (a + b)[|a + b| - 1] == b[|b| - 1];
      CountVideosAppend(a, b[..|b| - 1]);
    }
  }

  function IsVideoPost(p: Post): bool { p.isVideo }

  /** The video count is the number of posts a video filter keeps. */
  lemma {:induction false} CountVideosIsFilterLength(posts: seq<Post>)
    ensures CountVideos(posts) == |KeepIf(posts, IsVideoPost)|
  {
    if posts != [] {
      CountVideosIsFilterLength(posts[1..]);
      assert posts == [posts[0]] + posts[1..];
      CountVideosAppend([posts[0]], posts[1..]);
      assert [posts[0]][..0] == [];
    }
  }

  // ---------------------------------------------------------------------
  // Filtering criteria on one post
  // ---------------------------------------------------------------------

  function LikesAtLeast(m: int): Post -> bool { (p: Post) => p.likes >= m }
  function CommentsAtLeast(m: int): Post -> bool { (p: Post) => p.comments >= m }
  function EngagementAtLeast(m: int): Post -> bool { (p: Post) => p.EngagementScore() >= m }
  function NotSponsored(p: Post): bool { !p.isSponsored }

  /** `total / count if count else 0`, as an exact rational. */
  function Mean(total: nat, count: nat): (r: real)
    ensures count == 0 ==> r == 0.0
    ensures count != 0 ==> r * (count as real) == total as real
    ensures r >= 0.0
  {
    if count == 0 then 0.0 else total as real / count as real
  }

  // ---------------------------------------------------------------------
  // TrendAnalysisResult: one hashtag's fetch outcome
  // ---------------------------------------------------------------------

  datatype FetchResult = FetchResult(
    hashtag: string,
    startDate: int,
    endDate: int,
    totalPostsFetched: int,
    posts: seq<Post>,
    fetchTimestamp: int,
    errorMessages: seq<string>)
  {
    function TotalEngagement(): (r: nat)
      ensures r == SumLikes(posts) + SumComments(posts)
    {
      SumEngagementSplits(posts);
      SumEngagement(posts)
    }

    /** 0.0 for no posts, otherwise the exact mean. */
    function AverageEngagement(): (r: real)
      ensures posts == [] ==> r == 0.0
      ensures posts != [] ==> r * (|posts| as real) == TotalEngagement() as real
      ensures r >= 0.0
    {
      Mean(TotalEngagement(), |posts|)
    }

    /** `sorted(posts, key=engagement, reverse=True)[:n]`. */
    function GetTopPosts(n: int): (r: seq<Post>)
      ensures |r| == SliceLength(|posts|, n)
      ensures n >= 0 ==> |r| == Min(n, |posts|)
      ensures NonIncreasing(r, EngagementOf)
      ensures multiset(r) <= multiset(posts)
      ensures forall i, y :: 0 <= i < |r| && y in multiset(posts) - multiset(r) ==>
                EngagementOf(r[i]) >= EngagementOf(y)
      ensures r == SortByKey(posts, EngagementOf, true)[..|r|]
    {
      SortedPrefixSpec(posts, EngagementOf, SliceLength(|posts|, n));
      PySliceTo(SortByKey(posts, EngagementOf, true), n)
    }

    /** `[p for p in posts if p.likes >= min_likes]`. */
    function FilterByMinLikes(minLikes: int): (r: seq<Post>)
      ensures forall i :: 0 <= i < |r| ==> r[i] in posts && r[i].likes >= minLikes
      ensures forall i :: 0 <= i < |posts| && posts[i].likes >= minLikes ==> posts[i] in r
      ensures forall p :: multiset(r)[p] == if p.likes >= minLikes then multiset(posts)[p] else 0
    {
      KeepIfCounts(posts, LikesAtLeast(minLikes));
      KeepIf(posts, LikesAtLeast(minLikes))
    }
  }
  /** `filter_by_min_likes` keeps the passing posts in their original order:
      the result reads the posts at the increasing positions whose likes
      reach the bound, and at no other position. */
  lemma FilterByMinLikesOrder(res: FetchResult, minLikes: int)
    ensures exists idx: seq<nat> :: PicksInOrder(res.FilterByMinLikes(minLikes), res.posts, idx) &&
              forall k :: 0 <= k < |res.posts| ==> (k in idx <==> res.posts[k].likes >= minLikes)
  {
    var f := LikesAtLeast(minLikes);
    KeepIfIndices(res.posts, f);
    var idx: seq<nat> :| PicksInOrder(KeepIf(res.posts, f), res.posts, idx) &&
                         forall k :: 0 <= k < |res.posts| ==> (k in idx <==> f(res.posts[k]));
    assert res.FilterByMinLikes(minLikes) == KeepIf(res.posts, f);
  }


  // ---------------------------------------------------------------------
  // FetchProgress
  // ---------------------------------------------------------------------

  datatype FetchProgress = FetchProgress(
    currentHashtag: string,
    totalHashtags: int,
    currentHashtagIndex: int,
    postsFetched: int,
    estimatedTotal: Option<int>)
  {
    /** The share of hashtags done, in percent; 0.0 when there are none. */
    function Percentage(): (r: real)
      ensures totalHashtags == 0 ==> r == 0.0
      ensures totalHashtags != 0 ==> r * (totalHashtags as real) == 100.0 * (currentHashtagIndex as real)
      ensures 0 < totalHashtags && 0 <= currentHashtagIndex <= totalHashtags ==> 0.0 <= r <= 100.0
    {
      if totalHashtags == 0 then 0.0
      else
        var share := currentHashtagIndex as real / totalHashtags as real;
        assert share * (totalHashtags as real) == currentHashtagIndex as real;
        share * 100.0
    }

    /** "Processing #<tag> (<index>/<total>): <fetched> posts fetched". */
    function StatusMessage(): (r: string)
      ensures IsInfix("#" + currentHashtag, r)
      ensures IsInfix("(" + IntToString(currentHashtagIndex) + "/" + IntToString(totalHashtags) + ")", r)
      ensures IsInfix(IntToString(postsFetched) + " posts fetched", r)
    {
      var tag := "#" + currentHashtag;
      var position := "(" + IntToString(currentHashtagIndex) + "/" + IntToString(totalHashtags) + ")";
      var count := IntToString(postsFetched) + " posts fetched";
      var tail := ": " + count;
      var fromPosition := position + tail;
      var fromTag := tag + (" " + fromPosition);
      InfixPrefix(tag, " " + fromPosition);
      InfixSuffix("Processing ", fromTag);
      InfixTrans(tag, fromTag, "Processing " + fromTag);
      InfixPrefix(position, tail);
      InfixSuffix(" ", fromPosition);
      InfixTrans(position, fromPosition, " " + fromPosition);
      InfixSuffix(tag, " " + fromPosition);
      InfixTrans(position, " " + fromPosition, fromTag);
      InfixTrans(position, fromTag, "Processing " + fromTag);
      InfixSuffix(": ", count);
      InfixSuffix(position, tail);
      InfixTrans(count, tail, fromPosition);
      InfixTrans(count, fromPosition, " " + fromPosition);
      InfixTrans(count, " " + fromPosition, fromTag);
      InfixTrans(count, fromTag, "Processing " + fromTag);
      "Processing " + fromTag
    }
  }
}
