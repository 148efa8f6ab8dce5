# insta_trend_tool in Dafny

This project models the core of insta_trend_tool. The tool fetches Instagram
posts for a list of hashtags within a date window, merges and filters them,
and reports the top posts by engagement. It also reports the hashtags that
co-occur most often with the searched ones.

The model has five modules:

- `Common`: Python building blocks the core relies on:
  - order-preserving filters (list comprehensions);
  - `[:n]` slicing with Python's rules for negative `n`;
  - first-occurrence de-duplication by a key;
  - ASCII `str.lower`;
  - decimal `str(int)` and its parse;
  - an infix predicate on strings.
- `Sorting`: Python's stable `sorted` as an insertion sort that places a later
  element after equal keys, and `heapq.nlargest` as a bounded selection. The
  module proves:
  - the sort is a permutation, ordered and stable;
  - the sort is the only such rearrangement;
  - the selection is the first `n` elements of the descending sort.
- `Models` (`models.py`):
  - `InstagramPost` (`Post`) with its engagement score, post type and export
    record;
  - `TrendAnalysisResult` (`FetchResult`) with total and average engagement,
    top posts and the like filter;
  - `FetchProgress` with its percentage and status message.
- `Processor` (`processor.py`, the `TrendProcessor` methods):
  - `merge_results`, `filter_posts`, `sort_posts`,
    `get_top_posts_efficient` and `analyze_trends`;
  - the loops of `merge_results` and the hashtag-counting loops of
    `analyze_trends` are methods proved against specification functions.
- `Fetcher` (`fetcher.py`):
  - `_convert_post_to_model`, with the caption's `split()` and
    `strip("#")`;
  - the stream loop of `fetch_hashtag_posts`, with its date window, cap,
    conversion failures and exception translation;
  - the retry loop of `fetch_multiple_hashtags`.

  Everything the Instagram client does is an input:
  - a hashtag is missing, its lookup raises a client error, or it yields a
    sequence of posts;
  - each post carries an optional conversion failure;
  - the stream ends or raises after its last post;
  - the retry loop receives a function from (hashtag, attempt) to that
    behaviour.

Timestamps are integers (seconds). The current time is a parameter. Floating
point is replaced by exact reals.

Details of the code that the model keeps:

- `get_top_posts_efficient` passes `sort_by` to `sort_posts` on its small-input
  path (`processor.py:132-133`), so both paths rank by the requested key.
  `TopPostsEfficient` states that both equal the first `n` elements of the
  descending sort by that key.
- `analyze_trends` applies the like filter only when `min_likes` is truthy
  (`processor.py:171`), so a bound of 0 is skipped. `ZeroLikesBoundKeepsAll`
  shows that this changes nothing, because likes are never negative.
- `max_posts` is tested for truthiness (`fetcher.py:184`):
  - a cap of 0 means no cap;
  - a negative cap stops after the first post kept.
- `fetch_multiple_hashtags` with `max_retries <= 0` records nothing for a
  hashtag (`fetcher.py:251`).

## Model

| member | source | states |
|---|---|---|
| Models.Post.EngagementScore | insta_trend_tool/models.py:37-40 | the score is at least the likes and at least the comments, and removing the comments leaves the likes |
| Models.Post.PostType | insta_trend_tool/models.py:42-45 | "video" exactly for video posts, "photo" exactly for the others |
| Models.Post.ToDict | insta_trend_tool/models.py:47-63 | every exported field is the post's own; the engagement is likes plus comments; the post type is "video" exactly for videos and "photo" exactly for the others; video views appear only for videos; the tags are laid end to end, each but the last followed by ", " (so no tags give ""); splitting the joined tags at ", " gives back comma-free tags |
| Models.JoinTagsSeparated | insta_trend_tool/models.py:58 | `", ".join(tags)` is the tags in order, each but the last followed by ", ", for tags holding any characters |
| Models.SplitJoinTags | insta_trend_tool/models.py:58 | `", ".join` of non-empty comma-free tags is undone by splitting at ", " |
| Models.FetchResult.TotalEngagement | insta_trend_tool/models.py:80-83 | the total engagement is total likes plus total comments |
| Models.SumEngagementSplits | insta_trend_tool/models.py:80-83 | the sum of scores equals the sum of likes plus the sum of comments |
| Models.SumEngagementAppend | insta_trend_tool/models.py:83 | the sum over two concatenated lists is the sum of the two sums |
| Models.SumEngagementPermutation | insta_trend_tool/models.py:83 | the total does not depend on the order of the posts |
| Models.Mean | insta_trend_tool/processor.py:181 | 0 for no posts; otherwise the mean times the count is the total; never negative |
| Models.FetchResult.AverageEngagement | insta_trend_tool/models.py:85-90 | 0.0 for no posts; otherwise the average times the number of posts is the total engagement; never negative |
| Models.FetchResult.GetTopPosts | insta_trend_tool/models.py:92-98 | length follows Python's `[:n]`; min(n, len) for n ≥ 0; highest engagement first; drawn from the posts; no post left out has a higher score than a kept one; a prefix of the stable descending sort |
| Models.FetchResult.FilterByMinLikes | insta_trend_tool/models.py:100-102 | every kept post comes from the result and has at least the likes; every such post is kept; each post occurs as often as in the result when it has the likes and not at all otherwise |
| Models.FilterByMinLikesOrder | insta_trend_tool/models.py:100-102 | the filtered list is the result's posts read at the increasing positions whose post has at least the likes, and at no other position |
| Models.FetchProgress.Percentage | insta_trend_tool/models.py:115-120 | 0.0 with no hashtags; otherwise the percentage times the total is 100 times the index; between 0 and 100 while the index is within the total |
| Models.FetchProgress.StatusMessage | insta_trend_tool/models.py:122-128 | the message contains "#tag", "(index/total)" and "N posts fetched" |
| Models.CountVideosIsFilterLength | insta_trend_tool/processor.py:184 | the video count is the length of the list of video posts |
| Common.KeepIf | insta_trend_tool/processor.py:67 | a comprehension keeps only input elements that pass the test, and keeps every element that passes |
| Common.KeepIfCounts | insta_trend_tool/processor.py:67 | each element occurs in the comprehension's result as often as in the input when it passes the test, and not at all otherwise |
| Common.KeepIfIndices | insta_trend_tool/processor.py:67 | the result is the input read at the increasing enumeration of exactly the positions whose element passes |
| Common.KeepIfTwice | insta_trend_tool/processor.py:64-80 | two filters in a row are one filter by the conjunction |
| Common.SliceLength | insta_trend_tool/models.py:98 | the length of `s[:n]`: min(n, len) for n ≥ 0 and max(0, len + n) for negative n |
| Common.PySliceTo | insta_trend_tool/processor.py:202 | `s[:n]` is the prefix of s of that length |
| Sorting.TakeIsPySlice | insta_trend_tool/models.py:98 | taking the first n elements is Python's `s[:n]` for every n ≥ 0 |
| Common.FirstOccurrencesSpec | insta_trend_tool/processor.py:31-37 | de-duplication leaves no key twice and every key of the input once; each kept element is the first with its key; kept elements keep the order of first appearance |
| Common.FirstOccurrencesSeen | insta_trend_tool/processor.py:34-39 | appending elements whose keys were all seen changes nothing |
| Common.FirstOccurrencesDoubled | insta_trend_tool/processor.py:34-39 | de-duplicating a list followed by itself is de-duplicating the list |
| Common.Lower | insta_trend_tool/processor.py:193 | lower-casing keeps the length and maps each character by its ASCII lower case |
| Common.LowerIdempotent | insta_trend_tool/processor.py:189-193 | lower-casing twice is lower-casing once |
| Common.IntToStringRoundTrip | insta_trend_tool/fetcher.py:104 | the decimal text of an owner id parses back to the id |
| Sorting.SortSpec | insta_trend_tool/processor.py:111 | `sorted` gives a permutation, ordered by the key in the requested direction, and stable: the posts of each key keep their input order |
| Sorting.SortUnique | insta_trend_tool/processor.py:111 | any ordered, stable rearrangement equals the sort |
| Sorting.KeyClassIsFilter | insta_trend_tool/processor.py:111 | the elements with one key, in order, are the filter of the list by that key |
| Sorting.SortKeepsTieOrder | insta_trend_tool/processor.py:198-202 | two equally keyed elements of the sorted list stand at increasing positions of the input |
| Sorting.SelectTopIsSortedPrefix | insta_trend_tool/processor.py:146 | the bounded selection equals the first n elements of the stable descending sort |
| Sorting.NLargest | insta_trend_tool/processor.py:146 | `heapq.nlargest(n, …)` is empty for n ≤ 0 and otherwise the first n elements of the stable descending sort |
| Sorting.TopDominates | insta_trend_tool/processor.py:146 | the selected prefix and the rest make up the input, and every selected key is at least every remaining one |
| Sorting.SortedPrefixSpec | insta_trend_tool/processor.py:198-202 | a prefix of the descending sort is non-increasing, drawn from the input, and dominates every element left out |
| Processor.ConcatPosts | insta_trend_tool/processor.py:26-28 | the extend loop yields every result's posts, one result after another |
| Processor.MergeResults | insta_trend_tool/processor.py:17-42 | the loops yield the first post of each shortcode in order of first appearance; no shortcode twice; every shortcode of the input present; never longer than the input |
| Processor.MergedKeys | insta_trend_tool/processor.py:30-42 | the merged list has distinct shortcodes, exactly those of the input, and no more posts than the input |
| Processor.MergedFirstWins | insta_trend_tool/processor.py:34-37 | each merged post is the first post with its shortcode, and merged posts keep the order of first appearance |
| Processor.MergeSeenResult | insta_trend_tool/processor.py:26-37 | a result whose shortcodes were all seen already adds nothing to the merge |
| Processor.MergeTwiceSame | insta_trend_tool/processor.py:26-37 | merging a result with itself gives the same list as the result alone |
| Processor.FilterPostsIsConjunction | insta_trend_tool/processor.py:64-82 | the chain of optional filters is one order-preserving filter by the conjunction of the given criteria |
| Processor.MeetsMeans | insta_trend_tool/processor.py:66-79 | a post meets the criteria exactly when it satisfies each given bound and, if asked, is not sponsored |
| Processor.FilterPostsMembers | insta_trend_tool/processor.py:64-82 | every kept post comes from the input and meets each given criterion; every input post that meets them all is kept |
| Processor.FilterPostsNoCriteria | insta_trend_tool/processor.py:64-82 | with no criterion the posts come back unchanged |
| Processor.FilterPostsIdempotent | insta_trend_tool/processor.py:64-82 | filtering the filtered posts again by the same criteria changes nothing |
| Processor.FilterByMinLikesAgrees | insta_trend_tool/processor.py:66-67 | the result's `filter_by_min_likes` equals `filter_posts` with only a like bound |
| Processor.LikesBoundsAgree | insta_trend_tool/processor.py:66-67 | the result's like test and the optional like bound of `filter_posts` accept the same posts |
| Processor.ZeroLikesBoundKeepsAll | insta_trend_tool/processor.py:171-174 | a like bound of 0 keeps every post, so skipping it for a falsy bound changes nothing |
| Processor.ParseSortField | insta_trend_tool/processor.py:100-109 | "likes", "comments" and "date" select their keys; any other name selects engagement |
| Processor.ParseFieldName | insta_trend_tool/processor.py:100-105 | each key's own name selects that key |
| Processor.SortPosts | insta_trend_tool/processor.py:84-114 | a permutation of the posts, non-increasing by the key when reversed and non-decreasing otherwise, with the posts of each key in input order |
| Processor.SortPostsUnique | insta_trend_tool/processor.py:111 | any ordered, stable rearrangement of the posts is the sorted list |
| Processor.SortPostsFallback | insta_trend_tool/processor.py:107-109 | an unknown sort name sorts exactly as "engagement" |
| Processor.TopPostsEfficient | insta_trend_tool/processor.py:116-149 | both paths give the first n posts of the stable descending sort by the requested key; empty for negative n; length min(max(n, 0), len) |
| Processor.TopPostsDominate | insta_trend_tool/processor.py:116-149 | the top posts are non-increasing, drawn from the input, and no post left out ranks above a selected one |
| Processor.TopPostsAgreeWithResult | insta_trend_tool/processor.py:132-146 | by engagement, the fast selection equals the result's `get_top_posts` |
| Processor.PostTagOccurrences | insta_trend_tool/processor.py:192-195 | no counted tag of a post is a search tag |
| Processor.TagOccurrences | insta_trend_tool/processor.py:191-195 | no counted tag over all posts is a search tag |
| Processor.PostTagOccurrencesIsFilter | insta_trend_tool/processor.py:192-195 | one post's counted tags are its lower-cased tags, in order, minus those that are search tags |
| Processor.TagOccurrencesIsFilter | insta_trend_tool/processor.py:191-195 | the counted tags are all posts' lower-cased tags, in visiting order, minus the search tags |
| Processor.TagOccurrencesCount | insta_trend_tool/processor.py:188-195 | a search tag is counted 0 times; any other tag as often as it occurs, lower-cased, among all posts' tags |
| Processor.TallySpec | insta_trend_tool/processor.py:188-199 | the dictionary items list every counted tag exactly once with its true number of occurrences, and nothing else |
| Processor.CountPostTags | insta_trend_tool/processor.py:192-195 | the inner loop adds one post's counted tags to the occurrences and keeps the dictionary in step with them |
| Processor.CountHashtags | insta_trend_tool/processor.py:188-195 | after the loops the dictionary's keys in insertion order and its counts are exactly those of the occurrences |
| Processor.ItemsAreTally | insta_trend_tool/processor.py:199 | the dictionary's items are the tally of the occurrences |
| Processor.TopCoOccurringEntries | insta_trend_tool/processor.py:198-202 | at most twenty entries, each with its true count, no tag twice, none a search tag |
| Processor.TopCoOccurringRanked | insta_trend_tool/processor.py:198-202 | entries come most frequent first, and every tag left out occurs no more often than any tag reported |
| Processor.TopCoOccurringCounts | insta_trend_tool/processor.py:188-202 | every reported tag is not a search tag, and its count is the positive number of its lower-cased occurrences among all posts' tags |
| Processor.TopCoOccurringTies | insta_trend_tool/processor.py:188-202 | entries with equal counts come in the order in which their tags were first counted |
| Processor.CollectErrors | insta_trend_tool/processor.py:219-222 | the entries are, in order and one for one, the results with errors, each with its hashtag and error list |
| Processor.CollectErrorsMembers | insta_trend_tool/processor.py:219-222 | every entry has errors and comes from a result, and every result with errors has its entry |
| Processor.Hashtags | insta_trend_tool/processor.py:212 | the searched hashtags, one per result, in order |
| Processor.AnalyzeTrends | insta_trend_tool/processor.py:151-225 | the summary counts the merged and filtered posts; gives the engagement total and exact mean and the video and photo split; lists the searched tags; gives the top posts by engagement, the twenty top co-occurring tags and the error entries, each equal to its specification function |
| Processor.AnalysisTopPostsFiltered | insta_trend_tool/processor.py:171-177 | with a like bound, every top post has at least that many likes and comes from the merged posts |
| Fetcher.WordsFrom | insta_trend_tool/fetcher.py:94 | `split()` yields only non-empty words without white space |
| Fetcher.WordsOfJoin | insta_trend_tool/fetcher.py:94 | splitting words joined by single spaces gives back the words |
| Fetcher.WordsOfSpaced | insta_trend_tool/fetcher.py:94 | splitting words separated by any non-empty runs of white space, with any leading and trailing white space, gives back the words |
| Fetcher.WordsConcat | insta_trend_tool/fetcher.py:94 | the words laid end to end are the text with its white space removed: no other character is lost, and the order is kept |
| Fetcher.StripStart | insta_trend_tool/fetcher.py:94 | removes exactly the leading run of '#' |
| Fetcher.StripEnd | insta_trend_tool/fetcher.py:94 | removes exactly the trailing run of '#' |
| Fetcher.StripHash | insta_trend_tool/fetcher.py:94 | `strip("#")` leaves the part between the leading and trailing runs of '#', which starts and ends with another character |
| Fetcher.StripHashIdempotent | insta_trend_tool/fetcher.py:94 | stripping twice is stripping once |
| Fetcher.CaptionHashtagsOfTags | insta_trend_tool/fetcher.py:93-94 | a caption of `#tag` words separated by spaces yields exactly those tags |
| Fetcher.WithSearchTag | insta_trend_tool/fetcher.py:97-98 | the search tag is always present; the caption's tags come first, unchanged; the search tag is appended only when missing |
| Fetcher.ConvertPost | insta_trend_tool/fetcher.py:82-114 | the record copies the post's fields; the URL is the prefix, the shortcode and "/"; the owner id's text parses back to the id; the tags are the caption's plus the search tag; video views only for videos |
| Fetcher.FetchHashtagPosts | insta_trend_tool/fetcher.py:116-214 | the stream loop's outcome equals the scan specification, with its not-found and client-error translations |
| Fetcher.ScanPosts | insta_trend_tool/fetcher.py:156-185 | the kept posts are the converted, non-failing posts of the stream up to its first post older than the window, newer ones skipped, cut off at the cap |
| Fetcher.ScanErrors | insta_trend_tool/fetcher.py:187-190 | the scan only appends errors, and each one names a post whose conversion failed |
| Fetcher.VisitedSpec | insta_trend_tool/fetcher.py:156-185 | under a cap the loop visits at most that many keepable posts, and when it stops early it has kept exactly that many, the last one visited |
| Fetcher.ScanErrorsExact | insta_trend_tool/fetcher.py:156-190 | the errors are the earlier ones followed, in stream order, by one message per visited post in the window whose conversion failed |
| Fetcher.ScanErrorsUncapped | insta_trend_tool/fetcher.py:156-190 | with no cap, the errors are one message per post before the first old one, not newer than the window, whose conversion failed |
| Fetcher.ScanStopsAtOld | insta_trend_tool/fetcher.py:161-162 | a post older than the window ends the scan with `break` |
| Fetcher.ScanWindow | insta_trend_tool/fetcher.py:160-185 | every kept post lies in the window and names the hashtag; no more than max(cap, 1) posts under a cap |
| Fetcher.FetchedSpec | insta_trend_tool/fetcher.py:116-214 | a successful fetch: the hashtag, window and time recorded; the count is the number of posts; all posts in the window and tagged; the cap respected; the errors are exactly one message per visited failing post in the window, in order |
| Fetcher.FetchFailsOnlyOnError | insta_trend_tool/fetcher.py:145-212 | a stream that ends cleanly, or holds a post older than the window, always gives a result |
| Fetcher.TagOutcome | insta_trend_tool/fetcher.py:251-278 | from an attempt below `max_retries` on, the hashtag gets a result carrying its name; with no attempt left it gets none |
| Fetcher.AllOutcomes | insta_trend_tool/fetcher.py:237-280 | one result per hashtag in order when `max_retries` ≥ 1, none otherwise |
| Fetcher.FetchMultipleHashtags | insta_trend_tool/fetcher.py:216-280 | the nested loops give the retry specification: one result per hashtag, in order, when `max_retries` ≥ 1, and none otherwise |
| Fetcher.AllAttemptsFail | insta_trend_tool/fetcher.py:261-278 | when every attempt raises, the result has no posts, a count of 0 and the single error "Failed after N attempts: " with the last failure |
| Fetcher.FirstSuccessWins | insta_trend_tool/fetcher.py:251-260 | the first successful attempt decides the result, and later attempts are not made |

## Left out

- Logging, `time.sleep` in the rate-limit delay and in the retry wait, login
  and the Instagram client are left out. The client's behaviour is an input;
  the delays have no effect on results.
- Progress callbacks are left out, as is any exception they raise. Inside
  the conversion `try` such an exception would be recorded as a conversion
  failure after the post was already kept.
- `round(avg, 2)` for the summary's average is left out. The model gives
  the exact rational mean, because floating point is not modelled.
- Models.Post.ToDict: `posted_at.isoformat()` is kept as the integer
  timestamp, because dates and their text format are not modelled.
- `fetch_timestamp` is stamped by `datetime.now()` when each result is
  created (`models.py:77`). In the model one `now` parameter stamps every
  result of a run, through `FetchHashtagPosts`, `ErrorResult` and
  `FetchMultipleHashtags`; the clock is not modelled, so results of one run
  carry the same time.
- The Instagram client is one function from (hashtag, attempt number) to
  that attempt's behaviour. A hashtag listed twice in one call to
  `fetch_multiple_hashtags` (`fetcher.py:237`) therefore meets the same
  behaviour on both passes; each pass of the source makes a fresh fetch,
  which may turn out differently.
- Timestamps are integers, and `datetime.timestamp()` in the date key of the
  heap path is the same integer as the date used by `sort_posts`.
- Likes and comments are natural numbers, as the client reports them.
  Python's integers are unbounded, and so are Dafny's; no wrap-around
  exists in the source.
- `str.lower` is ASCII only; Unicode case mapping is not modelled.
- Fetcher.ConvertPost: `post.location.name` is the location's name given
  directly as an optional string.
- A client error raised while reading one post's fields, rather than while
  converting it, is not modelled apart from a failure at the end of the
  stream.
- Export, the CLI, configuration loading, the Twitter fetcher and the web
  app are outside this model.
