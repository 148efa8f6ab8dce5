/** The trend processor: merging the per-hashtag results, filtering and
    sorting posts, selecting the top posts, and the cross-hashtag analysis
    with its co-occurring hashtag counts. */
module Processor {
  import opened Common
  import opened Sorting
  import opened Models

  // ---------------------------------------------------------------------
  // merge_results
  // ---------------------------------------------------------------------

  function ShortcodeOf(p: Post): string { p.shortcode }

  /** The posts of every result, one result after another. */
  function AllPosts(results: seq<FetchResult>): (r: seq<Post>)
  {
    if results == [] then []
    else AllPosts(results[..|results| - 1]) + results[|results| - 1].posts
  }

  lemma AllPostsSnoc(results: seq<FetchResult>, x: FetchResult)
    ensures AllPosts(results + [x]) == AllPosts(results) + x.posts
  {
    assert (results + [x])[..|results|] == results;
  }

  /** The merged list: the first post seen for every shortcode. */
  function Merged(results: seq<FetchResult>): seq<Post> {
    FirstOccurrences(AllPosts(results), ShortcodeOf)
  }

  /** Extends one list by every result's posts in turn. */
  method ConcatPosts(results: seq<FetchResult>) returns (all: seq<Post>)
    ensures all == AllPosts(results)
  {
    all := [];
    var i := 0;
    while i < |results|
      invariant 0 <= i <= |results|
      invariant all == AllPosts(results[..i])
    {
      AllPostsSnoc(results[..i], results[i]);
      assert results[..i + 1] == results[..i] + [results[i]];
      all := all + results[i].posts;
      i := i + 1;
    }
    assert results[..|results|] == results;
  }

  /** Concatenates every result's posts, then keeps the first post of every
      shortcode, in the order the shortcodes were first met. */
  method MergeResults(results: seq<FetchResult>) returns (unique: seq<Post>)
    ensures unique == Merged(results)
    ensures DistinctKeys(unique, ShortcodeOf)
    ensures KeySet(unique, ShortcodeOf) == KeySet(AllPosts(results), ShortcodeOf)
    ensures |unique| <= |AllPosts(results)|
  {
    var all := ConcatPosts(results);
    var seen: set<string> := {};
    unique := [];
    var j := 0;
    while j < |all|
      invariant 0 <= j <= |all|
      invariant seen == KeySet(all[..j], ShortcodeOf)
      invariant unique == FirstOccurrences(all[..j], ShortcodeOf)
    {
      var post := all[j];
      DedupStep(all, j, seen, unique);
      if post.shortcode !in seen {
        seen := seen + {post.shortcode};
        unique := unique + [post];
      }
      j := j + 1;
    }
    assert all[..|all|] == all;
    MergedKeys(results);
  }

  /** One step of the de-duplication loop: a new shortcode is recorded and
      its post kept, a seen one changes nothing. */
  lemma DedupStep(all: seq<Post>, j: nat, seen: set<string>, unique: seq<Post>)
    requires j < |all|
    requires seen == KeySet(all[..j], ShortcodeOf) && unique == FirstOccurrences(all[..j], ShortcodeOf)
    ensures all[j].shortcode !in seen ==>
              seen + {all[j].shortcode} == KeySet(all[..j + 1], ShortcodeOf) &&
              unique + [all[j]] == FirstOccurrences(all[..j + 1], ShortcodeOf)
    ensures all[j].shortcode in seen ==>
              seen == KeySet(all[..j + 1], ShortcodeOf) && unique == FirstOccurrences(all[..j + 1], ShortcodeOf)
  {
    FirstOccurrencesSnoc(all[..j], all[j], ShortcodeOf);
    assert all[..j + 1] == all[..j] + [all[j]];
  }

  /** The merged list has no shortcode twice and every shortcode of the
      input once. */
  lemma MergedKeys(results: seq<FetchResult>)
    ensures DistinctKeys(Merged(results), ShortcodeOf)
    ensures KeySet(Merged(results), ShortcodeOf) == KeySet(AllPosts(results), ShortcodeOf)
    ensures |Merged(results)| <= |AllPosts(results)|
  {
    FirstOccurrencesDistinct(AllPosts(results), ShortcodeOf);
    FirstOccurrencesKeys(AllPosts(results), ShortcodeOf);
  }

  /** Each merged post is the first post with its shortcode across all the
      results, and the merged list keeps the order of first appearance. */
  lemma MergedFirstWins(results: seq<FetchResult>)
    ensures forall i :: 0 <= i < |Merged(results)| ==>
              var all, m := AllPosts(results), Merged(results);
              m[i].shortcode in KeySet(all, ShortcodeOf) &&
              m[i] == all[FirstIndex(all, ShortcodeOf, m[i].shortcode)]
    ensures forall i, j :: 0 <= i < j < |Merged(results)| ==>
              var all, m := AllPosts(results), Merged(results);
              m[i].shortcode in KeySet(all, ShortcodeOf) && m[j].shortcode in KeySet(all, ShortcodeOf) &&
              FirstIndex(all, ShortcodeOf, m[i].shortcode) < FirstIndex(all, ShortcodeOf, m[j].shortcode)
  {
    FirstOccurrencesFirst(AllPosts(results), ShortcodeOf);
    FirstOccurrencesOrder(AllPosts(results), ShortcodeOf);
  }

  /** A result whose shortcodes were all seen already adds nothing. */
  lemma MergeSeenResult(results: seq<FetchResult>, x: FetchResult)
    requires KeySet(x.posts, ShortcodeOf) <= KeySet(AllPosts(results), ShortcodeOf)
    ensures Merged(results + [x]) == Merged(results)
  {
    AllPostsSnoc(results, x);
    FirstOccurrencesSeen(AllPosts(results), x.posts, ShortcodeOf);
  }

  /** Merging a result with itself gives the same list as the result alone. */
  lemma MergeTwiceSame(x: FetchResult)
    ensures Merged([x, x]) == Merged([x])
  {
    AllPostsSnoc([], x);
    AllPostsSnoc([x], x);
    assert [] + [x] == [x];
    assert [x] + [x] == [x, x];
    assert AllPosts([x]) == x.posts;
    assert AllPosts([x, x]) == x.posts + x.posts;
    FirstOccurrencesDoubled(x.posts, ShortcodeOf);
  }

  // ---------------------------------------------------------------------
  // filter_posts
  // ---------------------------------------------------------------------

  /** One optional `>=` criterion; an absent bound accepts every post. */
  function AtLeastOpt(bound: Option<int>, field: Post -> int): Post -> bool {
    (p: Post) => bound.None? || field(p) >= bound.value
  }

  function LikesOf(p: Post): int { p.likes }
  function CommentsOf(p: Post): int { p.comments }
  function PostedAtOf(p: Post): int { p.postedAt }

  function SponsorCheck(excludeSponsored: bool): Post -> bool {
    (p: Post) => !excludeSponsored || !p.isSponsored
  }

  /** Whether one post satisfies every criterion that was given. */
  function Meets(minLikes: Option<int>, minComments: Option<int>, minEngagement: Option<int>,
                 excludeSponsored: bool): Post -> bool
  {
    (p: Post) =>
      AtLeastOpt(minLikes, LikesOf)(p) && AtLeastOpt(minComments, CommentsOf)(p) &&
      AtLeastOpt(minEngagement, EngagementOf)(p) && SponsorCheck(excludeSponsored)(p)
  }

  /** The filters applied one after the other, each only when its criterion
      was given. */
  function FilterPosts(posts: seq<Post>, minLikes: Option<int>, minComments: Option<int>,
                       minEngagement: Option<int>, excludeSponsored: bool): seq<Post>
  {
    var a := if minLikes.Some? then KeepIf(posts, LikesAtLeast(minLikes.value)) else posts;
    var b := if minComments.Some? then KeepIf(a, CommentsAtLeast(minComments.value)) else a;
    var c := if minEngagement.Some? then KeepIf(b, EngagementAtLeast(minEngagement.value)) else b;
    if excludeSponsored then KeepIf(c, NotSponsored) else c
  }

  /** A filter step that is skipped is a filter by a criterion that always holds. */
  lemma OptionalStep(s: seq<Post>, given: bool, f: Post -> bool, g: Post -> bool)
    requires forall p :: g(p) == (!given || f(p))
    ensures (if given then KeepIf(s, f) else s) == KeepIf(s, g)
  {
    if given {
      KeepIfSame(s, f, g);
    } else {
      KeepIfAll(s, g);
    }
  }

  /** The chain of filters is one order-preserving filter by the conjunction
      of the criteria: a post is kept exactly when it meets all of them. */
  lemma {:induction false} FilterPostsIsConjunction(posts: seq<Post>, minLikes: Option<int>, minComments: Option<int>,
                                 minEngagement: Option<int>, excludeSponsored: bool)
    ensures FilterPosts(posts, minLikes, minComments, minEngagement, excludeSponsored)
            == KeepIf(posts, Meets(minLikes, minComments, minEngagement, excludeSponsored))
  {
    var g1 := AtLeastOpt(minLikes, LikesOf);
    var g2 := AtLeastOpt(minComments, CommentsOf);
    var g3 := AtLeastOpt(minEngagement, EngagementOf);
    var g4 := SponsorCheck(excludeSponsored);
    var a := if minLikes.Some? then KeepIf(posts, LikesAtLeast(minLikes.value)) else posts;
    forall p ensures g1(p) == (!minLikes.Some? || (if minLikes.Some? then LikesAtLeast(minLikes.value) else g1)(p)) {
      if minLikes.Some? {
        assert g1(p) == (LikesOf(p) >= minLikes.value);
      }
    }
    OptionalStep(posts, minLikes.Some?, if minLikes.Some? then LikesAtLeast(minLikes.value) else g1, g1);
    var b := if minComments.Some? then KeepIf(a, CommentsAtLeast(minComments.value)) else a;
    forall p ensures g2(p) == (!minComments.Some? || (if minComments.Some? then CommentsAtLeast(minComments.value) else g2)(p)) {
      if minComments.Some? {
        assert g2(p) == (CommentsOf(p) >= minComments.value);
      }
    }
    OptionalStep(a, minComments.Some?, if minComments.Some? then CommentsAtLeast(minComments.value) else g2, g2);
    var c := if minEngagement.Some? then KeepIf(b, EngagementAtLeast(minEngagement.value)) else b;
    forall p ensures g3(p) == (!minEngagement.Some? || (if minEngagement.Some? then EngagementAtLeast(minEngagement.value) else g3)(p)) {
      if minEngagement.Some? {
        assert g3(p) == (EngagementOf(p) >= minEngagement.value);
      }
    }
    OptionalStep(b, minEngagement.Some?, if minEngagement.Some? then EngagementAtLeast(minEngagement.value) else g3, g3);
    OptionalStep(c, excludeSponsored, NotSponsored, g4);
    var h12 := (p: Post) => g1(p) && g2(p);
    var h123 := (p: Post) => h12(p) && g3(p);
    KeepIfTwice(posts, g1, g2, h12);
    KeepIfTwice(posts, h12, g3, h123);
    KeepIfTwice(posts, h123, g4, Meets(minLikes, minComments, minEngagement, excludeSponsored));
  }

  /** What a filtered post satisfies, and which posts survive. */
  lemma {:induction false} FilterPostsMembers(posts: seq<Post>, minLikes: Option<int>, minComments: Option<int>,
                           minEngagement: Option<int>, excludeSponsored: bool)
    ensures var r := FilterPosts(posts, minLikes, minComments, minEngagement, excludeSponsored);
            (forall i :: 0 <= i < |r| ==>
               r[i] in posts &&
               (minLikes.Some? ==> r[i].likes >= minLikes.value) &&
               (minComments.Some? ==> r[i].comments >= minComments.value) &&
               (minEngagement.Some? ==> r[i].EngagementScore() >= minEngagement.value) &&
               (excludeSponsored ==> !r[i].isSponsored)) &&
            (forall i :: 0 <= i < |posts| && Meets(minLikes, minComments, minEngagement, excludeSponsored)(posts[i]) ==>
               posts[i] in r)
  {
    FilterPostsIsConjunction(posts, minLikes, minComments, minEngagement, excludeSponsored);
    var m := Meets(minLikes, minComments, minEngagement, excludeSponsored);
    var r := KeepIf(posts, m);
    forall i | 0 <= i < |r|
      ensures (minLikes.Some? ==> r[i].likes >= minLikes.value) &&
              (minComments.Some? ==> r[i].comments >= minComments.value) &&
              (minEngagement.Some? ==> r[i].EngagementScore() >= minEngagement.value) &&
              (excludeSponsored ==> !r[i].isSponsored)
    {
      MeetsMeans(minLikes, minComments, minEngagement, excludeSponsored, r[i]);
    }
  }

  /** What meeting every given criterion means for one post. */
  lemma MeetsMeans(minLikes: Option<int>, minComments: Option<int>, minEngagement: Option<int>,
                   excludeSponsored: bool, p: Post)
    ensures Meets(minLikes, minComments, minEngagement, excludeSponsored)(p) ==
            ((minLikes.Some? ==> p.likes >= minLikes.value) &&
             (minComments.Some? ==> p.comments >= minComments.value) &&
             (minEngagement.Some? ==> p.EngagementScore() >= minEngagement.value) &&
             (excludeSponsored ==> !p.isSponsored))
  {
    assert AtLeastOpt(minLikes, LikesOf)(p) == (minLikes.None? || LikesOf(p) >= minLikes.value);
    assert AtLeastOpt(minComments, CommentsOf)(p) == (minComments.None? || CommentsOf(p) >= minComments.value);
    assert AtLeastOpt(minEngagement, EngagementOf)(p) == (minEngagement.None? || EngagementOf(p) >= minEngagement.value);
  }

  /** With no criterion given the posts come back unchanged. */
  lemma FilterPostsNoCriteria(posts: seq<Post>)
    ensures FilterPosts(posts, None, None, None, false) == posts
  {
  }

  /** Filtering a filtered list again by the same criteria changes nothing. */
  lemma {:induction false} FilterPostsIdempotent(posts: seq<Post>, minLikes: Option<int>, minComments: Option<int>,
                              minEngagement: Option<int>, excludeSponsored: bool)
    ensures var r := FilterPosts(posts, minLikes, minComments, minEngagement, excludeSponsored);
            FilterPosts(r, minLikes, minComments, minEngagement, excludeSponsored) == r
  {
    var m := Meets(minLikes, minComments, minEngagement, excludeSponsored);
    FilterPostsIsConjunction(posts, minLikes, minComments, minEngagement, excludeSponsored);
    var r := KeepIf(posts, m);
    FilterPostsIsConjunction(r, minLikes, minComments, minEngagement, excludeSponsored);
    KeepIfAll(r, m);
  }

  /** The result's own like filter is the processor's filter with only a
      like bound. */
  lemma FilterByMinLikesAgrees(res: FetchResult, m: int)
    ensures res.FilterByMinLikes(m) == FilterPosts(res.posts, Some(m), None, None, false)
  {
  }

  /** The result's like filter and the processor's like criterion are the
      same test. */
  lemma LikesBoundsAgree(m: int, p: Post)
    ensures LikesAtLeast(m)(p) == AtLeastOpt(Some(m), LikesOf)(p)
  {
    assert AtLeastOpt(Some(m), LikesOf)(p) == (LikesOf(p) >= m);
    assert LikesAtLeast(m)(p) == (p.likes >= m);
  }

  /** Since likes are never negative, a bound of 0 keeps every post; so
      skipping the filter when the bound is 0 does not change the outcome. */
  lemma ZeroLikesBoundKeepsAll(posts: seq<Post>)
    ensures FilterPosts(posts, Some(0), None, None, false) == posts
  {
    KeepIfAll(posts, LikesAtLeast(0));
  }

  // ---------------------------------------------------------------------
  // sort_posts
  // ---------------------------------------------------------------------

  datatype SortField = ByEngagement | ByLikes | ByComments | ByDate

  /** The sort key named by `sort_by`; an unknown name means engagement. */
  function ParseSortField(name: string): (k: SortField)
    ensures name == "likes" ==> k == ByLikes
    ensures name == "comments" ==> k == ByComments
    ensures name == "date" ==> k == ByDate
    ensures name !in {"likes", "comments", "date"} ==> k == ByEngagement
  {
    if name == "likes" then ByLikes
    else if name == "comments" then ByComments
    else if name == "date" then ByDate
    else ByEngagement
  }

  function FieldName(k: SortField): string {
    match k
    case ByEngagement => "engagement"
    case ByLikes => "likes"
    case ByComments => "comments"
    case ByDate => "date"
  }

  /** Every key's own name selects that key. */
  lemma ParseFieldName(k: SortField)
    ensures ParseSortField(FieldName(k)) == k
  {
  }

  function KeyOf(k: SortField): Post -> int {
    match k
    case ByEngagement => EngagementOf
    case ByLikes => LikesOf
    case ByComments => CommentsOf
    case ByDate => PostedAtOf
  }

  /** Python's stable `sorted(posts, key=..., reverse=reverse)`. */
  function SortPosts(posts: seq<Post>, sortBy: string, reverse: bool): (r: seq<Post>)
    ensures multiset(r) == multiset(posts)
    ensures reverse ==> NonIncreasing(r, KeyOf(ParseSortField(sortBy)))
    ensures !reverse ==> NonDecreasing(r, KeyOf(ParseSortField(sortBy)))
    ensures forall k :: KeyClass(r, KeyOf(ParseSortField(sortBy)), k) ==
                        KeyClass(posts, KeyOf(ParseSortField(sortBy)), k)
  {
    SortSpec(posts, KeyOf(ParseSortField(sortBy)), reverse);
    SortByKey(posts, KeyOf(ParseSortField(sortBy)), reverse)
  }

  /** The sorted list is the only ordered, stable rearrangement of the input. */
  lemma SortPostsUnique(posts: seq<Post>, sortBy: string, reverse: bool, t: seq<Post>)
    requires multiset(t) == multiset(posts)
    requires Ordered(t, KeyOf(ParseSortField(sortBy)), reverse)
    requires forall k :: KeyClass(t, KeyOf(ParseSortField(sortBy)), k) ==
                         KeyClass(posts, KeyOf(ParseSortField(sortBy)), k)
    ensures t == SortPosts(posts, sortBy, reverse)
  {
    SortUnique(posts, t, KeyOf(ParseSortField(sortBy)), reverse);
  }

  /** An unknown sort name sorts exactly as "engagement" does. */
  lemma SortPostsFallback(posts: seq<Post>, sortBy: string, reverse: bool)
    requires sortBy !in {"engagement", "likes", "comments", "date"}
    ensures SortPosts(posts, sortBy, reverse) == SortPosts(posts, "engagement", reverse)
  {
  }

  // ---------------------------------------------------------------------
  // get_top_posts_efficient
  // ---------------------------------------------------------------------

  /** The whole list sorted when it is no longer than `n`, otherwise
      `heapq.nlargest(n, posts, key)`. */
  function TopPostsEfficient(posts: seq<Post>, n: int, sortBy: string): (r: seq<Post>)
    ensures n >= 0 ==> r == Take(SortPosts(posts, sortBy, true), n)
    ensures n < 0 ==> r == []
    ensures |r| == Min(Max(n, 0), |posts|)
  {
    if |posts| <= n then
      assert Take(SortPosts(posts, sortBy, true), n) == SortPosts(posts, sortBy, true);
      SortPosts(posts, sortBy, true)
    else
      NLargest(n, posts, KeyOf(ParseSortField(sortBy)))
  }

  /** The selected posts are the highest-ranked ones: in order, drawn from
      the input, and no post left out ranks above a selected one. */
  lemma TopPostsDominate(posts: seq<Post>, n: nat, sortBy: string)
    ensures var r, key := TopPostsEfficient(posts, n, sortBy), KeyOf(ParseSortField(sortBy));
            NonIncreasing(r, key) && multiset(r) <= multiset(posts) &&
            forall i, y :: 0 <= i < |r| && y in multiset(posts) - multiset(r) ==> key(r[i]) >= key(y)
  {
    var m := Min(n, |posts|);
    SortedPrefixSpec(posts, KeyOf(ParseSortField(sortBy)), m);
  }

  /** With the default key the fast path agrees with the result's own
      `get_top_posts`. */
  lemma TopPostsAgreeWithResult(res: FetchResult, n: nat)
    ensures TopPostsEfficient(res.posts, n, "engagement") == res.GetTopPosts(n)
  {
  }

  // ---------------------------------------------------------------------
  // analyze_trends: co-occurring hashtags
  // ---------------------------------------------------------------------

  function TagKey(t: string): string { t }

  function LowerHashtagOf(res: FetchResult): string { Lower(res.hashtag) }

  /** `{r.hashtag.lower() for r in results}`. */
  function SearchTags(results: seq<FetchResult>): set<string> {
    KeySet(results, LowerHashtagOf)
  }

  /** The lower-cased tags of one post that are not search tags, in order. */
  function PostTagOccurrences(tags: seq<string>, search: set<string>): (r: seq<string>)
    ensures forall i :: 0 <= i < |r| ==> r[i] !in search
  {
    if tags == [] then []
    else
      var t := Lower(tags[|tags| - 1]);
      PostTagOccurrences(tags[..|tags| - 1], search) + (if t in search then [] else [t])
  }

  /** Every counted tag occurrence over all posts, in visiting order. */
  function TagOccurrences(posts: seq<Post>, search: set<string>): (r: seq<string>)
    ensures forall i :: 0 <= i < |r| ==> r[i] !in search
  {
    if posts == [] then []
    else TagOccurrences(posts[..|posts| - 1], search) + PostTagOccurrences(posts[|posts| - 1].hashtags, search)
  }

  /** Visiting one more post adds that post's counted tags. */
  lemma TagOccurrencesSnoc(posts: seq<Post>, i: nat, search: set<string>)
    requires i < |posts|
    ensures TagOccurrences(posts[..i + 1], search) ==
            TagOccurrences(posts[..i], search) + PostTagOccurrences(posts[i].hashtags, search)
  {
    assert posts[..i + 1][..i] == posts[..i];
  }

  /** Visiting one more tag of a post adds it, lower-cased, unless it is a
      search tag. */
  lemma PostTagOccurrencesSnoc(tags: seq<string>, j: nat, search: set<string>)
    requires j < |tags|
    ensures PostTagOccurrences(tags[..j + 1], search) ==
            PostTagOccurrences(tags[..j], search) +
            (if Lower(tags[j]) in search then [] else [Lower(tags[j])])
  {
    assert tags[..j + 1][..j] == tags[..j];
  }

  /** Every tag of every post, in visiting order. */
  function AllTags(posts: seq<Post>): seq<string> {
    if posts == [] then []
    else AllTags(posts[..|posts| - 1]) + posts[|posts| - 1].hashtags
  }

  function LowerAll(tags: seq<string>): (r: seq<string>)
    ensures |r| == |tags| && forall i :: 0 <= i < |tags| ==> r[i] == Lower(tags[i])
  {
    seq(|tags|, i requires 0 <= i < |tags| => Lower(tags[i]))
  }

  lemma LowerAllAppend(a: seq<string>, b: seq<string>)
    ensures LowerAll(a + b) == LowerAll(a) + LowerAll(b)
  {
  }

  function NotSearchTag(search: set<string>): string -> bool {
    (t: string) => t !in search
  }

  /** A post contributes its lower-cased tags minus the search tags, in
      order: nothing is lost, nothing is reordered. */
  lemma {:induction false} PostTagOccurrencesIsFilter(tags: seq<string>, search: set<string>)
    ensures PostTagOccurrences(tags, search) == KeepIf(LowerAll(tags), NotSearchTag(search))
  {
    if tags != [] {
      var init, t := tags[..|tags| - 1], tags[|tags| - 1];
      PostTagOccurrencesIsFilter(init, search);
      assert tags == init + [t];
      LowerAllAppend(init, [t]);
      assert LowerAll([t]) == [Lower(t)];
      KeepIfAppend(LowerAll(init), [Lower(t)], NotSearchTag(search));
      assert KeepIf([Lower(t)], NotSearchTag(search)) == if Lower(t) in search then [] else [Lower(t)];
    }
  }

  /** The counted occurrences are all lower-cased tags of all posts, in
      visiting order, with the search tags removed. */
  lemma {:induction false} TagOccurrencesIsFilter(posts: seq<Post>, search: set<string>)
    ensures TagOccurrences(posts, search) == KeepIf(LowerAll(AllTags(posts)), NotSearchTag(search))
  {
    if posts != [] {
      var init, p := posts[..|posts| - 1], posts[|posts| - 1];
      TagOccurrencesIsFilter(init, search);
      PostTagOccurrencesIsFilter(p.hashtags, search);
      assert AllTags(posts) == AllTags(init) + p.hashtags;
      LowerAllAppend(AllTags(init), p.hashtags);
      KeepIfAppend(LowerAll(AllTags(init)), LowerAll(p.hashtags), NotSearchTag(search));
    }
  }

  /** A tag is counted once for every post tag that lower-cases to it,
      unless it is a search tag. */
  lemma TagOccurrencesCount(posts: seq<Post>, search: set<string>, u: string)
    ensures multiset(TagOccurrences(posts, search))[u] ==
            if u in search then 0 else multiset(LowerAll(AllTags(posts)))[u]
  {
    TagOccurrencesIsFilter(posts, search);
    KeepIfCounts(LowerAll(AllTags(posts)), NotSearchTag(search));
  }

  datatype TagCount = TagCount(hashtag: string, count: nat)

  function CountOf(c: TagCount): int { c.count }

  /** The counting dictionary's items in insertion order: every distinct
      occurrence once, in order of first appearance, with its multiplicity. */
  function Tally(occ: seq<string>): (r: seq<TagCount>)
  {
    var d := FirstOccurrences(occ, TagKey);
    seq(|d|, i requires 0 <= i < |d| => TagCount(d[i], multiset(occ)[d[i]]))
  }

  /** The twenty most frequent tags, ties in order of first appearance. */
  function TopCoOccurring(posts: seq<Post>, search: set<string>): seq<TagCount> {
    PySliceTo(SortByKey(Tally(TagOccurrences(posts, search)), CountOf, true), 20)
  }

  ghost predicate TallyEntriesTrue(occ: seq<string>, t: seq<TagCount>) {
    forall i :: 0 <= i < |t| ==> t[i].hashtag in occ && t[i].count == multiset(occ)[t[i].hashtag] > 0
  }

  ghost predicate DistinctTags(t: seq<TagCount>) {
    forall i, j :: 0 <= i < j < |t| ==> t[i].hashtag != t[j].hashtag
  }

  /** The tally lists every occurring tag exactly once with its number of
      occurrences, and nothing else. */
  lemma {:induction false} TallySpec(occ: seq<string>)
    ensures TallyEntriesTrue(occ, Tally(occ))
    ensures DistinctTags(Tally(occ))
    ensures forall i :: 0 <= i < |occ| ==> exists j :: 0 <= j < |Tally(occ)| && Tally(occ)[j].hashtag == occ[i]
  {
    FirstOccurrencesDistinct(occ, TagKey);
    DistinctTalliedTags(occ);
    TalliedTagsOccur(occ);
    TallyCovers(occ);
  }

  lemma DistinctTalliedTags(occ: seq<string>)
    requires DistinctKeys(FirstOccurrences(occ, TagKey), TagKey)
    ensures DistinctTags(Tally(occ))
  {
    var d := FirstOccurrences(occ, TagKey);
    forall i, j | 0 <= i < j < |d| ensures Tally(occ)[i].hashtag != Tally(occ)[j].hashtag {
      assert TagKey(d[i]) != TagKey(d[j]);
    }
  }

  lemma TalliedTagsOccur(occ: seq<string>)
    ensures TallyEntriesTrue(occ, Tally(occ))
  {
    var d := FirstOccurrences(occ, TagKey);
    FirstOccurrencesKeys(occ, TagKey);
    forall i | 0 <= i < |d| ensures d[i] in occ {
      assert TagKey(d[i]) in KeySet(occ, TagKey);
      KeySetWitness(occ, TagKey, d[i]);
    }
  }

  lemma TallyCovers(occ: seq<string>)
    ensures forall i :: 0 <= i < |occ| ==> exists j :: 0 <= j < |Tally(occ)| && Tally(occ)[j].hashtag == occ[i]
  {
    forall i | 0 <= i < |occ| ensures exists j :: 0 <= j < |Tally(occ)| && Tally(occ)[j].hashtag == occ[i] {
      var j := TallyEntryOf(occ, i);
    }
    assert forall i :: 0 <= i < |occ| ==> exists j :: 0 <= j < |Tally(occ)| && Tally(occ)[j].hashtag == occ[i];
  }

  /** The position in the tally of the tag at one position of the occurrences. */
  lemma TallyEntryOf(occ: seq<string>, i: nat) returns (j: nat)
    requires i < |occ|
    ensures j < |Tally(occ)| && Tally(occ)[j].hashtag == occ[i]
  {
    var d := FirstOccurrences(occ, TagKey);
    var t := TagKey(occ[i]);
    FirstOccurrencesKeys(occ, TagKey);
    assert t in KeySet(occ, TagKey);
    KeySetWitness(d, TagKey, t);
    j :| 0 <= j < |d| && TagKey(d[j]) == t;
    TallyHashtag(occ, j);
  }

  lemma TallyHashtag(occ: seq<string>, j: nat)
    requires j < |FirstOccurrences(occ, TagKey)|
    ensures j < |Tally(occ)| && Tally(occ)[j].hashtag == FirstOccurrences(occ, TagKey)[j]
  {
  }

  /** In a sequence, an element at two positions occurs at least twice. */
  lemma MultisetTwice(s: seq<TagCount>, i: nat, j: nat)
    requires i < j < |s| && s[i] == s[j]
    ensures multiset(s)[s[i]] >= 2
  {
    assert s == s[..j] + [s[j]] + s[j + 1..];
    assert s[..j] == s[..j][..i] + [s[i]] + s[..j][i + 1..];
  }

  /** In a list with distinct tags, every entry occurs once. */
  lemma DistinctTagsOnce(t: seq<TagCount>, a: nat)
    requires DistinctTags(t) && a < |t|
    ensures multiset(t)[t[a]] == 1
  {
    assert t == t[..a] + [t[a]] + t[a + 1..];
    forall k | 0 <= k < |t| && k != a ensures t[k] != t[a] {
      if k < a { assert t[k].hashtag != t[a].hashtag; } else { assert t[a].hashtag != t[k].hashtag; }
    }
    assert t[a] !in multiset(t[..a]) by {
      forall k | 0 <= k < a ensures t[..a][k] != t[a] { assert t[..a][k] == t[k]; }
    }
    var rest := t[a + 1..];
    assert t[a] !in multiset(rest) by {
      forall k | 0 <= k < |rest| ensures rest[k] != t[a] { assert rest[k] == t[a + 1 + k]; }
    }
  }

  /** A rearrangement of a list with distinct tags still has distinct tags. */
  lemma DistinctAfterPermutation(tally: seq<TagCount>, sorted: seq<TagCount>)
    requires multiset(sorted) == multiset(tally)
    requires DistinctTags(tally)
    ensures DistinctTags(sorted)
  {
    forall i, j | 0 <= i < j < |sorted| ensures sorted[i].hashtag != sorted[j].hashtag {
      if sorted[i].hashtag == sorted[j].hashtag {
        assert sorted[i] in multiset(tally) && sorted[j] in multiset(tally);
        var a :| 0 <= a < |tally| && tally[a] == sorted[i];
        var b :| 0 <= b < |tally| && tally[b] == sorted[j];
        if a == b {
          MultisetTwice(sorted, i, j);
          DistinctTagsOnce(tally, a);
        }
      }
    }
  }

  /** The first `m` entries of a rearranged tally are true tally entries. */
  lemma TallyEntriesPermuted(occ: seq<string>, tally: seq<TagCount>, sorted: seq<TagCount>, m: nat)
    requires TallyEntriesTrue(occ, tally)
    requires multiset(sorted) == multiset(tally)
    requires m <= |sorted|
    ensures TallyEntriesTrue(occ, sorted[..m])
  {
    forall i | 0 <= i < m
      ensures sorted[i].hashtag in occ && sorted[i].count == multiset(occ)[sorted[i].hashtag] > 0
    {
      assert sorted[i] in multiset(tally);
      var k :| 0 <= k < |tally| && tally[k] == sorted[i];
    }
  }

  /** The reported co-occurring tags: at most twenty, each with its true
      number of occurrences, no tag twice, none of them a search tag. */
  lemma {:induction false} TopCoOccurringEntries(posts: seq<Post>, search: set<string>)
    ensures |TopCoOccurring(posts, search)| <= 20
    ensures TallyEntriesTrue(TagOccurrences(posts, search), TopCoOccurring(posts, search))
    ensures DistinctTags(TopCoOccurring(posts, search))
    ensures forall i :: 0 <= i < |TopCoOccurring(posts, search)| ==> TopCoOccurring(posts, search)[i].hashtag !in search
  {
    var occ := TagOccurrences(posts, search);
    var tally := Tally(occ);
    TallySpec(occ);
    var sorted := SortByKey(tally, CountOf, true);
    SortPermutes(tally, CountOf, true);
    var m := SliceLength(|tally|, 20);
    var top := sorted[..m];
    assert top == TopCoOccurring(posts, search);
    TallyEntriesPermuted(occ, tally, sorted, m);
    DistinctAfterPermutation(tally, sorted);
    DistinctPrefix(sorted, m);
    NoSearchTag(posts, search, top);
  }

  lemma DistinctPrefix(t: seq<TagCount>, m: nat)
    requires DistinctTags(t) && m <= |t|
    ensures DistinctTags(t[..m])
  {
    forall i, j | 0 <= i < j < m ensures t[..m][i].hashtag != t[..m][j].hashtag {
      assert t[..m][i] == t[i] && t[..m][j] == t[j];
    }
  }

  lemma NoSearchTag(posts: seq<Post>, search: set<string>, top: seq<TagCount>)
    requires TallyEntriesTrue(TagOccurrences(posts, search), top)
    ensures forall i :: 0 <= i < |top| ==> top[i].hashtag !in search
  {
    var occ := TagOccurrences(posts, search);
    forall i | 0 <= i < |top| ensures top[i].hashtag !in search {
      var w :| 0 <= w < |occ| && occ[w] == top[i].hashtag;
    }
  }

  /** The reported tags come most frequent first, and every tag left out
      occurs no more often than any tag reported. */
  lemma {:induction false} TopCoOccurringRanked(posts: seq<Post>, search: set<string>)
    ensures NonIncreasing(TopCoOccurring(posts, search), CountOf)
    ensures var top, tally := TopCoOccurring(posts, search), Tally(TagOccurrences(posts, search));
            forall i, y :: 0 <= i < |top| && y in multiset(tally) - multiset(top) ==> top[i].count >= y.count
  {
    var tally := Tally(TagOccurrences(posts, search));
    var m := SliceLength(|tally|, 20);
    SortedPrefixSpec(tally, CountOf, m);
    var sorted := SortByKey(tally, CountOf, true);
    var top := sorted[..m];
    assert TopCoOccurring(posts, search) == top;
    forall i, y | 0 <= i < |top| && y in multiset(tally) - multiset(top) ensures top[i].count >= y.count {
      assert top[i] == sorted[i];
      assert CountOf(sorted[i]) >= CountOf(y);
    }
  }

  /** Each reported count is the number of post tags, over all posts, that
      lower-case to the reported tag. */
  lemma TopCoOccurringCounts(posts: seq<Post>, search: set<string>)
    ensures var top := TopCoOccurring(posts, search);
            forall i :: 0 <= i < |top| ==>
              top[i].hashtag !in search && top[i].count == multiset(LowerAll(AllTags(posts)))[top[i].hashtag] > 0
  {
    var top := TopCoOccurring(posts, search);
    TopCoOccurringEntries(posts, search);
    forall i | 0 <= i < |top|
      ensures top[i].hashtag !in search && top[i].count == multiset(LowerAll(AllTags(posts)))[top[i].hashtag] > 0
    {
      TagOccurrencesCount(posts, search, top[i].hashtag);
    }
  }

  /** Tags with equal counts are reported in order of their first
      appearance among the counted occurrences. */
  lemma TopCoOccurringTies(posts: seq<Post>, search: set<string>)
    ensures var occ, top := TagOccurrences(posts, search), TopCoOccurring(posts, search);
            forall i, j :: 0 <= i < j < |top| && top[i].count == top[j].count ==>
              top[i].hashtag in KeySet(occ, TagKey) && top[j].hashtag in KeySet(occ, TagKey) &&
              FirstIndex(occ, TagKey, top[i].hashtag) < FirstIndex(occ, TagKey, top[j].hashtag)
  {
    var occ := TagOccurrences(posts, search);
    var sorted := SortByKey(Tally(occ), CountOf, true);
    var top := TopCoOccurring(posts, search);
    assert top == sorted[..SliceLength(|Tally(occ)|, 20)];
    forall i, j | 0 <= i < j < |top| && top[i].count == top[j].count
      ensures top[i].hashtag in KeySet(occ, TagKey) && top[j].hashtag in KeySet(occ, TagKey) &&
              FirstIndex(occ, TagKey, top[i].hashtag) < FirstIndex(occ, TagKey, top[j].hashtag)
    {
      assert top[i] == sorted[i] && top[j] == sorted[j];
      SortedTallyTie(occ, i, j);
    }
  }

  /** Two equally counted entries of the sorted tally keep the order in
      which their tags first occurred. */
  lemma SortedTallyTie(occ: seq<string>, i: nat, j: nat)
    requires i < j < |SortByKey(Tally(occ), CountOf, true)|
    requires SortByKey(Tally(occ), CountOf, true)[i].count == SortByKey(Tally(occ), CountOf, true)[j].count
    ensures var t := SortByKey(Tally(occ), CountOf, true);
            t[i].hashtag in KeySet(occ, TagKey) && t[j].hashtag in KeySet(occ, TagKey) &&
            FirstIndex(occ, TagKey, t[i].hashtag) < FirstIndex(occ, TagKey, t[j].hashtag)
  {
    var tally := Tally(occ);
    var t := SortByKey(tally, CountOf, true);
    assert CountOf(t[i]) == CountOf(t[j]);
    SortKeepsTieOrder(tally, CountOf, true, i, j);
    var p, q :| 0 <= p < q < |tally| && tally[p] == t[i] && tally[q] == t[j];
    TallyFirstSeen(occ, p, q);
  }

  /** The tally lists tags in the order of their first occurrence. */
  lemma TallyFirstSeen(occ: seq<string>, p: nat, q: nat)
    requires p < q < |Tally(occ)|
    ensures var t := Tally(occ);
            t[p].hashtag in KeySet(occ, TagKey) && t[q].hashtag in KeySet(occ, TagKey) &&
            FirstIndex(occ, TagKey, t[p].hashtag) < FirstIndex(occ, TagKey, t[q].hashtag)
  {
    var d := FirstOccurrences(occ, TagKey);
    FirstOccurrencesSpec(occ, TagKey);
    assert Tally(occ)[p].hashtag == d[p] && Tally(occ)[q].hashtag == d[q];
  }

  /** The dictionary's state: keys in insertion order, each with its count. */
  ghost predicate Counted(occ: seq<string>, order: seq<string>, counts: map<string, nat>) {
    order == FirstOccurrences(occ, TagKey) &&
    counts.Keys == KeySet(occ, TagKey) &&
    forall t :: t in counts ==> counts[t] == multiset(occ)[t]
  }

  /** `hashtag_counts.get(t, 0) + 1`. */
  function Bump(counts: map<string, nat>, t: string): map<string, nat> {
    counts[t := if t in counts then counts[t] + 1 else 1]
  }

  /** One increment of the counting dictionary keeps it in step with the
      occurrences counted so far. */
  lemma CountStep(occ: seq<string>, t: string, order: seq<string>, counts: map<string, nat>)
    requires Counted(occ, order, counts)
    ensures Counted(occ + [t], if t in counts then order else order + [t], Bump(counts, t))
  {
    KeySetSnoc(occ, t, TagKey);
    assert (occ + [t])[..|occ|] == occ;
    if t !in counts {
      forall i | 0 <= i < |occ| ensures occ[i] != t {
        assert TagKey(occ[i]) in KeySet(occ, TagKey);
      }
      assert t !in multiset(occ);
    }
  }

  lemma OccurrencesStep(occ0: seq<string>, tags: seq<string>, j: nat, search: set<string>)
    requires j < |tags|
    ensures Lower(tags[j]) in search ==>
              occ0 + PostTagOccurrences(tags[..j + 1], search) == occ0 + PostTagOccurrences(tags[..j], search)
    ensures Lower(tags[j]) !in search ==>
              occ0 + PostTagOccurrences(tags[..j + 1], search) == occ0 + PostTagOccurrences(tags[..j], search) + [Lower(tags[j])]
  {
    PostTagOccurrencesSnoc(tags, j, search);
    var seen := PostTagOccurrences(tags[..j], search);
    assert seen + [] == seen;
    assert occ0 + seen + [Lower(tags[j])] == occ0 + (seen + [Lower(tags[j])]);
  }

  /** One step of the inner loop, on its whole state. */
  lemma TagStep(occ0: seq<string>, tags: seq<string>, j: nat, search: set<string>,
                order: seq<string>, counts: map<string, nat>)
    requires j < |tags|
    requires Counted(occ0 + PostTagOccurrences(tags[..j], search), order, counts)
    ensures Lower(tags[j]) in search ==>
              PostTagOccurrences(tags[..j + 1], search) == PostTagOccurrences(tags[..j], search)
    ensures Lower(tags[j]) !in search ==>
              Counted(occ0 + PostTagOccurrences(tags[..j + 1], search),
                      if Lower(tags[j]) in counts then order else order + [Lower(tags[j])],
                      Bump(counts, Lower(tags[j])))
  {
    var occ := occ0 + PostTagOccurrences(tags[..j], search);
    OccurrencesStep(occ0, tags, j, search);
    if Lower(tags[j]) !in search {
      CountStep(occ, Lower(tags[j]), order, counts);
    } else {
      PostTagOccurrencesSnoc(tags, j, search);
      assert PostTagOccurrences(tags[..j], search) + [] == PostTagOccurrences(tags[..j], search);
    }
  }

  /** The inner loop: counts the tags of one post. */
  method CountPostTags(tags: seq<string>, search: set<string>, order0: seq<string>, counts0: map<string, nat>,
                       ghost occ0: seq<string>)
    returns (order: seq<string>, counts: map<string, nat>)
    requires Counted(occ0, order0, counts0)
    ensures Counted(occ0 + PostTagOccurrences(tags, search), order, counts)
  {
    order, counts := order0, counts0;
    var j := 0;
    assert occ0 + PostTagOccurrences(tags[..0], search) == occ0;
    while j < |tags|
      invariant 0 <= j <= |tags|
      invariant Counted(occ0 + PostTagOccurrences(tags[..j], search), order, counts)
    {
      var tagLower := Lower(tags[j]);
      TagStep(occ0, tags, j, search, order, counts);
      if tagLower !in search {
        if tagLower !in counts {
          order := order + [tagLower];
        }
        counts := Bump(counts, tagLower);
      }
      j := j + 1;
    }
    assert tags[..|tags|] == tags;
  }

  /** Counts the co-occurring tags in a dictionary whose keys remember their
      insertion order, visiting the posts and their tags in order. */
  method CountHashtags(posts: seq<Post>, search: set<string>) returns (order: seq<string>, counts: map<string, nat>)
    ensures Counted(TagOccurrences(posts, search), order, counts)
  {
    order := [];
    counts := map[];
    ghost var occ: seq<string> := [];
    var i := 0;
    while i < |posts|
      invariant 0 <= i <= |posts|
      invariant occ == TagOccurrences(posts[..i], search)
      invariant Counted(occ, order, counts)
    {
      order, counts := CountPostTags(posts[i].hashtags, search, order, counts, occ);
      TagOccurrencesSnoc(posts, i, search);
      occ := occ + PostTagOccurrences(posts[i].hashtags, search);
      i := i + 1;
    }
    assert posts[..|posts|] == posts;
  }

  /** `hashtag_counts.items()`: the keys in insertion order with their counts. */
  function Items(order: seq<string>, counts: map<string, nat>): seq<TagCount> {
    seq(|order|, i requires 0 <= i < |order| => TagCount(order[i], if order[i] in counts then counts[order[i]] else 0))
  }

  /** The counting dictionary's items are the tally of the occurrences. */
  lemma ItemsAreTally(occ: seq<string>, order: seq<string>, counts: map<string, nat>)
    requires Counted(occ, order, counts)
    ensures Items(order, counts) == Tally(occ)
  {
    FirstOccurrencesKeys(occ, TagKey);
    forall i | 0 <= i < |order| ensures Items(order, counts)[i] == Tally(occ)[i] {
      assert TagKey(order[i]) in KeySet(order, TagKey);
    }
  }

  // ---------------------------------------------------------------------
  // analyze_trends
  // ---------------------------------------------------------------------

  datatype Summary = Summary(
    totalPostsAnalyzed: nat,
    filteredPosts: nat,
    totalEngagement: nat,
    averageEngagement: real,
    videoPosts: nat,
    photoPosts: int,
    hashtagsSearched: seq<string>)

  datatype HashtagErrors = HashtagErrors(hashtag: string, errors: seq<string>)

  datatype Analysis = Analysis(
    summary: Summary,
    topPosts: seq<Post>,
    topCoOccurringHashtags: seq<TagCount>,
    errors: seq<HashtagErrors>)

  /** `if min_likes:` — a bound of None or 0 skips the filter. */
  function FilteredPosts(merged: seq<Post>, minLikes: Option<int>): seq<Post> {
    if minLikes.Some? && minLikes.value != 0 then FilterPosts(merged, minLikes, None, None, false)
    else merged
  }

  predicate HasErrors(res: FetchResult) { res.errorMessages != [] }

  function ErrorEntry(res: FetchResult): HashtagErrors {
    HashtagErrors(res.hashtag, res.errorMessages)
  }

  /** One entry per result that reported errors, in order: exactly the
      entries of the results that pass `HasErrors`. */
  function CollectErrors(results: seq<FetchResult>): (r: seq<HashtagErrors>)
    ensures |r| == |KeepIf(results, HasErrors)|
    ensures forall i :: 0 <= i < |r| ==> r[i] == ErrorEntry(KeepIf(results, HasErrors)[i])
    ensures |r| <= |results|
  {
    if results == [] then []
    else
      var x := results[|results| - 1];
      ErrorEntriesStep(results, CollectErrors(results[..|results| - 1]));
      CollectErrors(results[..|results| - 1]) + (if x.errorMessages != [] then [ErrorEntry(x)] else [])
  }

  /** Every entry carries errors and names a result; every result with
      errors has its entry. */
  lemma CollectErrorsMembers(results: seq<FetchResult>)
    ensures var r := CollectErrors(results);
            (forall i :: 0 <= i < |r| ==> r[i].errors != []) &&
            (forall k :: 0 <= k < |results| && results[k].errorMessages != [] ==>
               HashtagErrors(results[k].hashtag, results[k].errorMessages) in r) &&
            (forall i :: 0 <= i < |r| ==>
               exists k :: 0 <= k < |results| && r[i] == HashtagErrors(results[k].hashtag, results[k].errorMessages))
  {
    ErrorEntriesMembers(results, CollectErrors(results));
  }

  /** Appending one result extends the filtered list by that result if it
      has errors. */
  lemma ErrorEntriesStep(results: seq<FetchResult>, r0: seq<HashtagErrors>)
    requires results != []
    requires var init := results[..|results| - 1];
             |r0| == |KeepIf(init, HasErrors)| &&
             forall i :: 0 <= i < |r0| ==> r0[i] == ErrorEntry(KeepIf(init, HasErrors)[i])
    ensures var x := results[|results| - 1];
            var r := r0 + (if x.errorMessages != [] then [ErrorEntry(x)] else []);
            |r| == |KeepIf(results, HasErrors)| &&
            forall i :: 0 <= i < |r| ==> r[i] == ErrorEntry(KeepIf(results, HasErrors)[i])
  {
    var init, x := results[..|results| - 1], results[|results| - 1];
    assert init + [x] == results;
    KeepIfAppend(init, [x], HasErrors);
    assert KeepIf([x], HasErrors) == if HasErrors(x) then [x] else [];
  }

  /** The entries of the filtered results mention only results with errors,
      and all of them. */
  lemma ErrorEntriesMembers(results: seq<FetchResult>, r: seq<HashtagErrors>)
    requires |r| == |KeepIf(results, HasErrors)|
    requires forall i :: 0 <= i < |r| ==> r[i] == ErrorEntry(KeepIf(results, HasErrors)[i])
    ensures forall i :: 0 <= i < |r| ==> r[i].errors != []
    ensures forall k :: 0 <= k < |results| && results[k].errorMessages != [] ==>
              HashtagErrors(results[k].hashtag, results[k].errorMessages) in r
    ensures forall i :: 0 <= i < |r| ==>
              exists k :: 0 <= k < |results| && r[i] == HashtagErrors(results[k].hashtag, results[k].errorMessages)
  {
    var kept := KeepIf(results, HasErrors);
    forall k | 0 <= k < |results| && results[k].errorMessages != []
      ensures HashtagErrors(results[k].hashtag, results[k].errorMessages) in r
    {
      assert results[k] in kept;
      var j :| 0 <= j < |kept| && kept[j] == results[k];
      assert r[j] == ErrorEntry(results[k]);
    }
    forall i | 0 <= i < |r|
      ensures exists k :: 0 <= k < |results| && r[i] == HashtagErrors(results[k].hashtag, results[k].errorMessages)
    {
      assert kept[i] in results;
      var k :| 0 <= k < |results| && results[k] == kept[i];
      assert r[i] == ErrorEntry(results[k]);
    }
  }

  function Hashtags(results: seq<FetchResult>): (r: seq<string>)
    ensures |r| == |results| && forall i :: 0 <= i < |r| ==> r[i] == results[i].hashtag
  {
    seq(|results|, i requires 0 <= i < |results| => results[i].hashtag)
  }

  /** The cross-hashtag analysis: merge, optional like filter, top posts by
      engagement, totals, video/photo split, co-occurring tags and errors. */
  method AnalyzeTrends(results: seq<FetchResult>, topN: int, minLikes: Option<int>) returns (a: Analysis)
    ensures a.summary.totalPostsAnalyzed == |Merged(results)|
    ensures a.summary.filteredPosts == |FilteredPosts(Merged(results), minLikes)|
    ensures a.summary.totalEngagement == SumEngagement(FilteredPosts(Merged(results), minLikes))
    ensures a.summary.averageEngagement == Mean(a.summary.totalEngagement, a.summary.filteredPosts)
    ensures a.summary.videoPosts == CountVideos(FilteredPosts(Merged(results), minLikes))
    ensures a.summary.videoPosts + a.summary.photoPosts == a.summary.filteredPosts
    ensures a.summary.hashtagsSearched == Hashtags(results)
    ensures a.topPosts == TopPostsEfficient(FilteredPosts(Merged(results), minLikes), topN, "engagement")
    ensures a.topCoOccurringHashtags == TopCoOccurring(FilteredPosts(Merged(results), minLikes), SearchTags(results))
    ensures a.errors == CollectErrors(results)
  {
    var allPosts := MergeResults(results);
    var filtered := if minLikes.Some? && minLikes.value != 0
                    then FilterPosts(allPosts, minLikes, None, None, false) else allPosts;
    var topPosts := TopPostsEfficient(filtered, topN, "engagement");
    var total := SumEngagement(filtered);
    var avg := Mean(total, |filtered|);
    var videos := CountVideos(filtered);
    var photos := |filtered| - videos;
    var search := SearchTags(results);
    var order, counts := CountHashtags(filtered, search);
    ItemsAreTally(TagOccurrences(filtered, search), order, counts);
    var top := PySliceTo(SortByKey(Items(order, counts), CountOf, true), 20);
    a := Analysis(
      Summary(|allPosts|, |filtered|, total, avg, videos, photos, Hashtags(results)),
      topPosts, top, CollectErrors(results));
  }

  /** Every top post survived the like filter and comes from the merged posts. */
  lemma AnalysisTopPostsFiltered(results: seq<FetchResult>, topN: int, m: int)
    requires m != 0
    ensures var filtered := FilteredPosts(Merged(results), Some(m));
            var top := TopPostsEfficient(filtered, topN, "engagement");
            forall i :: 0 <= i < |top| ==> top[i].likes >= m && top[i] in Merged(results)
  {
    var merged := Merged(results);
    var filtered := FilteredPosts(merged, Some(m));
    var top := TopPostsEfficient(filtered, topN, "engagement");
    FilterPostsMembers(merged, Some(m), None, None, false);
    if topN >= 0 {
      var sorted := SortPosts(filtered, "engagement", true);
      forall i | 0 <= i < |top| ensures top[i].likes >= m && top[i] in merged {
        assert top[i] == sorted[i];
        assert sorted[i] in multiset(filtered);
      }
    }
  }
}
