/** The fetcher: turning a post delivered by the Instagram client into the
    post record, the scan of one hashtag's post stream between two dates with
    an optional cap, and the per-hashtag retry loop. The client itself is
    not modelled: a hashtag's stream, and the ways fetching it can fail, are
    inputs. */
module Fetcher {
  import opened Common
  import opened Sorting
  import opened Models

  // ---------------------------------------------------------------------
  // `str.split()` without arguments
  // ---------------------------------------------------------------------

  /** Python's `str.isspace` for one character. */
  predicate IsSpace(c: char) {
    var n := c as int;
    (9 <= n <= 13) || (0x1C <= n <= 0x20) || n == 0x85 || n == 0xA0 || n == 0x1680 ||
    (0x2000 <= n <= 0x200A) || n == 0x2028 || n == 0x2029 || n == 0x202F || n == 0x205F || n == 0x3000
  }

  ghost predicate NoSpace(t: string) {
    forall i :: 0 <= i < |t| ==> !IsSpace(t[i])
  }

  /** Splits at runs of white space, dropping empty words; `cur` is the
      word collected so far. */
  function WordsFrom(s: string, cur: string): (r: seq<string>)
    requires NoSpace(cur)
    ensures forall i :: 0 <= i < |r| ==> r[i] != [] && NoSpace(r[i])
    decreases |s|
  {
    if s == [] then (if cur == [] then [] else [cur])
    else if IsSpace(s[0]) then (if cur == [] then [] else [cur]) + WordsFrom(s[1..], [])
    else WordsFrom(s[1..], cur + [s[0]])
  }

  function Words(s: string): seq<string> { WordsFrom(s, "") }

  /** `" ".join(words)`. */
  function JoinSpace(words: seq<string>): string
  {
    if words == [] then ""
    else if |words| == 1 then words[0]
    else words[0] + " " + JoinSpace(words[1..])
  }

  ghost predicate IsWord(t: string) { t != [] && NoSpace(t) }

  lemma {:induction false} WordsFromPlain(t: string, u: string, cur: string)
    requires NoSpace(t) && NoSpace(cur)
    ensures NoSpace(cur + t)
    ensures WordsFrom(t + u, cur) == WordsFrom(u, cur + t)
  {
    if t == [] {
      assert t + u == u && cur + t == cur;
    } else {
      assert (t + u)[0] == t[0] && (t + u)[1..] == t[1..] + u;
      assert NoSpace(t[1..]) by { forall i | 0 <= i < |t[1..]| ensures !IsSpace(t[1..][i]) { assert t[1..][i] == t[i + 1]; } }
      assert NoSpace(cur + [t[0]]);
      WordsFromPlain(t[1..], u, cur + [t[0]]);
      assert cur + [t[0]] + t[1..] == cur + t;
    }
  }

  lemma {:induction false} WordsFromJoin(words: seq<string>, cur: string)
    requires words != [] && NoSpace(cur)
    requires forall i :: 0 <= i < |words| ==> IsWord(words[i])
    ensures WordsFrom(JoinSpace(words), cur) == [cur + words[0]] + words[1..]
  {
    WordsFromPlain(words[0], if |words| == 1 then "" else " " + JoinSpace(words[1..]), cur);
    if |words| == 1 {
      assert words[0] + "" == words[0];
    } else {
      var rest := JoinSpace(words[1..]);
      assert JoinSpace(words) == words[0] + (" " + rest);
      assert (" " + rest)[1..] == rest;
      WordsFromJoin(words[1..], "");
      assert "" + words[1..][0] == words[1];
      assert [words[1]] + words[2..] == words[1..];
    }
  }

  /** Joining words with single spaces is undone by splitting at white space. */
  lemma {:induction false} WordsOfJoin(words: seq<string>)
    requires forall i :: 0 <= i < |words| ==> IsWord(words[i])
    ensures Words(JoinSpace(words)) == words
  {
    if words != [] {
      WordsFromJoin(words, "");
      assert "" + words[0] == words[0];
      assert [words[0]] + words[1..] == words;
    }
  }

  ghost predicate AllSpace(t: string) {
    forall i :: 0 <= i < |t| ==> IsSpace(t[i])
  }

  /** `words[0] + gaps[0] + words[1] + gaps[1] + ...`: the words, each
      followed by its run of white space. */
  function Spaced(words: seq<string>, gaps: seq<string>): string
    requires |gaps| == |words|
  {
    if words == [] then "" else words[0] + gaps[0] + Spaced(words[1..], gaps[1..])
  }

  /** A non-empty run of white space ends the current word. */
  lemma {:induction false} WordsFromSpaceRun(sp: string, u: string, cur: string)
    requires sp != [] && AllSpace(sp) && NoSpace(cur)
    ensures WordsFrom(sp + u, cur) == (if cur == [] then [] else [cur]) + WordsFrom(u, [])
  {
    assert (sp + u)[0] == sp[0] && (sp + u)[1..] == sp[1..] + u;
    if sp[1..] != [] {
      assert AllSpace(sp[1..]) by {
        forall i | 0 <= i < |sp[1..]| ensures IsSpace(sp[1..][i]) { assert sp[1..][i] == sp[i + 1]; }
      }
      WordsFromSpaceRun(sp[1..], u, []);
      assert [] + WordsFrom(u, []) == WordsFrom(u, []);
    } else {
      assert sp[1..] + u == u;
    }
  }

  /** Splitting text made of words separated by runs of white space, with
      white space at the end or not, gives back the words. */
  lemma {:induction false} WordsFromSpaced(words: seq<string>, gaps: seq<string>)
    requires |gaps| == |words|
    requires forall i :: 0 <= i < |words| ==> IsWord(words[i]) && AllSpace(gaps[i])
    requires forall i :: 0 <= i < |words| - 1 ==> gaps[i] != []
    ensures WordsFrom(Spaced(words, gaps), []) == words
  {
    if words != [] {
      var w, g := words[0], gaps[0];
      var rest := Spaced(words[1..], gaps[1..]);
      assert Spaced(words, gaps) == w + (g + rest);
      WordsFromPlain(w, g + rest, []);
      assert [] + w == w;
      if |words| > 1 {
        WordsFromSpaceRun(g, rest, w);
        WordsFromSpaced(words[1..], gaps[1..]);
        assert [w] + words[1..] == words;
      } else if g != [] {
        assert g + rest == g + [];
        WordsFromSpaceRun(g, [], w);
      } else {
        assert g + rest == [];
      }
    }
  }

  /** Any text made of leading white space, then words each followed by
      white space (a non-empty run between two words), splits into exactly
      those words. */
  lemma WordsOfSpaced(lead: string, words: seq<string>, gaps: seq<string>)
    requires AllSpace(lead) && |gaps| == |words|
    requires forall i :: 0 <= i < |words| ==> IsWord(words[i]) && AllSpace(gaps[i])
    requires forall i :: 0 <= i < |words| - 1 ==> gaps[i] != []
    ensures Words(lead + Spaced(words, gaps)) == words
  {
    WordsFromSpaced(words, gaps);
    if lead == [] {
      assert lead + Spaced(words, gaps) == Spaced(words, gaps);
    } else {
      WordsFromSpaceRun(lead, Spaced(words, gaps), []);
      assert [] + words == words;
    }
  }

  function NotSpaceChar(c: char): bool { !IsSpace(c) }

  /** Splitting loses no character but white space and keeps the order:
      the words laid end to end are the text without its white space. */
  lemma {:induction false} WordsFromConcat(s: string, cur: string)
    requires NoSpace(cur)
    ensures Concat(WordsFrom(s, cur)) == cur + KeepIf(s, NotSpaceChar)
    decreases |s|
  {
    if s == [] {
      if cur != [] { ConcatCons(cur, []); }
      assert cur + [] == cur;
    } else if IsSpace(s[0]) {
      WordsFromConcat(s[1..], []);
      ConcatSpaceStep(s, cur);
    } else {
      WordsFromConcat(s[1..], cur + [s[0]]);
      ConcatCharStep(s, cur);
    }
  }

  /** A white-space character closes the current word and is dropped. */
  lemma ConcatSpaceStep(s: string, cur: string)
    requires NoSpace(cur) && s != [] && IsSpace(s[0])
    requires Concat(WordsFrom(s[1..], [])) == KeepIf(s[1..], NotSpaceChar)
    ensures Concat(WordsFrom(s, cur)) == cur + KeepIf(s, NotSpaceChar)
  {
    var rest := KeepIf(s[1..], NotSpaceChar);
    var ws := WordsFrom(s[1..], []);
    assert KeepIf(s, NotSpaceChar) == [] + rest == rest;
    if cur != [] {
      ConcatCons(cur, ws);
    } else {
      assert [] + ws == ws;
    }
  }

  /** Any other character extends the current word. */
  lemma ConcatCharStep(s: string, cur: string)
    requires NoSpace(cur) && s != [] && !IsSpace(s[0]) && NoSpace(cur + [s[0]])
    requires Concat(WordsFrom(s[1..], cur + [s[0]])) == cur + [s[0]] + KeepIf(s[1..], NotSpaceChar)
    ensures Concat(WordsFrom(s, cur)) == cur + KeepIf(s, NotSpaceChar)
  {
    var rest := KeepIf(s[1..], NotSpaceChar);
    assert WordsFrom(s, cur) == WordsFrom(s[1..], cur + [s[0]]);
    assert KeepIf(s, NotSpaceChar) == [s[0]] + rest;
    AppendAssoc(cur, [s[0]], rest);
  }

  lemma WordsConcat(s: string)
    ensures Concat(Words(s)) == KeepIf(s, NotSpaceChar)
  {
    WordsFromConcat(s, "");
    assert "" + KeepIf(s, NotSpaceChar) == KeepIf(s, NotSpaceChar);
  }

  // ---------------------------------------------------------------------
  // `tag.strip("#")`
  // ---------------------------------------------------------------------

  /** `t` without its leading '#' characters. */
  function StripStart(t: string): (r: string)
    ensures |r| <= |t| && r == t[|t| - |r|..]
    ensures r == [] || r[0] != '#'
    ensures forall i :: 0 <= i < |t| - |r| ==> t[i] == '#'
  {
    if t != [] && t[0] == '#' then StripStart(t[1..]) else t
  }

  /** `t` without its trailing '#' characters. */
  function StripEnd(t: string): (r: string)
    ensures |r| <= |t| && r == t[..|r|]
    ensures r == [] || r[|r| - 1] != '#'
    ensures forall i :: |r| <= i < |t| ==> t[i] == '#'
  {
    if t != [] && t[|t| - 1] == '#' then StripEnd(t[..|t| - 1]) else t
  }

  /** `t.strip("#")`: the part of `t` left between its leading and trailing
      runs of '#', which starts and ends with another character. */
  function StripHash(t: string): (r: string)
    ensures r == [] || (r[0] != '#' && r[|r| - 1] != '#')
    ensures exists k :: 0 <= k && k + |r| <= |t| && Window(t, k, |r|) == r &&
              (forall i :: 0 <= i < k ==> t[i] == '#') &&
              (forall i :: k + |r| <= i < |t| ==> t[i] == '#')
  {
    var s := StripStart(t);
    var r := StripEnd(s);
    var k := |t| - |s|;
    assert Window(t, k, |r|) == r;
    assert forall i :: k + |r| <= i < |t| ==> t[i] == s[i - k];
    r
  }

  /** A tag that neither starts nor ends with '#' is left as it is. */
  lemma StripHashPlain(t: string)
    requires t == [] || (t[0] != '#' && t[|t| - 1] != '#')
    ensures StripHash(t) == t
  {
  }

  /** Stripping twice is stripping once. */
  lemma StripHashIdempotent(t: string)
    ensures StripHash(StripHash(t)) == StripHash(t)
  {
    StripHashPlain(StripHash(t));
  }

  // ---------------------------------------------------------------------
  // _convert_post_to_model
  // ---------------------------------------------------------------------

  predicate StartsWithHash(w: string) { |w| > 0 && w[0] == '#' }

  /** `[tag.strip("#") for tag in caption.split() if tag.startswith("#")]`. */
  function CaptionHashtags(caption: string): seq<string> {
    var marked := KeepIf(Words(caption), StartsWithHash);
    seq(|marked|, i requires 0 <= i < |marked| => StripHash(marked[i]))
  }

  /** A tag as it can be written after '#' in a caption. */
  ghost predicate PlainTag(t: string) {
    NoSpace(t) && (t == [] || (t[0] != '#' && t[|t| - 1] != '#'))
  }

  function Hashed(tags: seq<string>): (r: seq<string>)
    ensures |r| == |tags| && forall i :: 0 <= i < |r| ==> r[i] == "#" + tags[i]
  {
    seq(|tags|, i requires 0 <= i < |tags| => "#" + tags[i])
  }

  /** A caption made of the tags written as `#tag`, separated by spaces,
      yields exactly those tags. */
  lemma CaptionHashtagsOfTags(tags: seq<string>)
    requires forall i :: 0 <= i < |tags| ==> PlainTag(tags[i])
    ensures CaptionHashtags(JoinSpace(Hashed(tags))) == tags
  {
    var words := Hashed(tags);
    forall i | 0 <= i < |words| ensures IsWord(words[i]) {
      assert words[i] == "#" + tags[i];
      forall j | 0 <= j < |words[i]| ensures !IsSpace(words[i][j]) {
        if j > 0 { assert words[i][j] == tags[i][j - 1]; }
      }
    }
    WordsOfJoin(words);
    KeepIfAll(words, StartsWithHash);
    forall i | 0 <= i < |tags| ensures StripHash(words[i]) == tags[i] {
      assert words[i][1..] == tags[i];
      assert StripStart(words[i]) == StripStart(tags[i]);
    }
  }

  /** Appends the search hashtag unless the caption already names it. */
  function WithSearchTag(tags: seq<string>, hashtag: string): (r: seq<string>)
    ensures hashtag in r
    ensures |r| >= |tags| && r[..|tags|] == tags
    ensures hashtag in tags ==> r == tags
    ensures hashtag !in tags ==> r == tags + [hashtag]
  {
    if hashtag in tags then tags else tags + [hashtag]
  }

  /** A post as the Instagram client delivers it. */
  datatype RawPost = RawPost(
    shortcode: string,
    ownerUsername: string,
    ownerId: int,
    dateUtc: int,
    likes: nat,
    comments: nat,
    caption: Option<string>,
    isVideo: bool,
    videoViewCount: Option<int>,
    location: Option<string>,
    isSponsored: bool)

  /** `post.caption or ""`. */
  function CaptionText(caption: Option<string>): string {
    if caption.Some? then caption.value else ""
  }

  const UrlPrefix: string := "https://www.instagram.com/p/"

  function ConvertPost(raw: RawPost, hashtag: string): (p: Post)
    ensures p.shortcode == raw.shortcode && p.ownerUsername == raw.ownerUsername
    ensures |p.postUrl| == |UrlPrefix| + |raw.shortcode| + 1
    ensures p.postUrl[..|UrlPrefix|] == UrlPrefix
    ensures p.postUrl[|UrlPrefix|..|p.postUrl| - 1] == raw.shortcode
    ensures p.postUrl[|p.postUrl| - 1] == '/'
    ensures ParseInt(p.ownerId) == raw.ownerId
    ensures p.postedAt == raw.dateUtc && p.likes == raw.likes && p.comments == raw.comments
    ensures p.caption == CaptionText(raw.caption)
    ensures p.hashtags == WithSearchTag(CaptionHashtags(CaptionText(raw.caption)), hashtag)
    ensures hashtag in p.hashtags
    ensures p.isVideo == raw.isVideo
    ensures p.videoViewCount == (if raw.isVideo then raw.videoViewCount else None)
    ensures p.location == raw.location && p.isSponsored == raw.isSponsored
  {
    IntToStringRoundTrip(raw.ownerId);
    var url := UrlPrefix + raw.shortcode + "/";
    assert url[|UrlPrefix|..|url| - 1] == raw.shortcode;
    var captionText := CaptionText(raw.caption);
    Post(
      raw.shortcode,
      url,
      raw.ownerUsername,
      IntToString(raw.ownerId),
      raw.dateUtc,
      raw.likes,
      raw.comments,
      captionText,
      WithSearchTag(CaptionHashtags(captionText), hashtag),
      raw.isVideo,
      if raw.isVideo then raw.videoViewCount else None,
      raw.location,
      raw.isSponsored)
  }

  // ---------------------------------------------------------------------
  // fetch_hashtag_posts
  // ---------------------------------------------------------------------

  /** One element of the post stream: the post and, when converting it
      raises, the text of that error. */
  datatype StreamItem = StreamItem(raw: RawPost, conversionError: Option<string>)

  /** The client errors the fetcher tells apart, each with its text. */
  datatype ClientError =
    | TooManyRequests(detail: string)
    | ConnectionProblem(detail: string)
    | OtherError(detail: string)

  datatype StreamEnd = Exhausted | Breaks(error: ClientError)

  /** What the client does when asked for a hashtag. */
  datatype HashtagSource =
    | Missing
    | LookupFails(error: ClientError)
    | Found(items: seq<StreamItem>, end: StreamEnd)

  /** A result, or the message of the exception the fetch raises. */
  datatype FetchOutcome = Fetched(result: FetchResult) | Raised(message: string)

  function NotFoundMessage(hashtag: string): string {
    "Hashtag #" + hashtag + " not found or doesn't exist"
  }

  /** The message of the exception a client error is translated into. */
  function ErrorMessage(hashtag: string, e: ClientError): string {
    match e
    case TooManyRequests(d) => "Rate limited while fetching #" + hashtag + ": " + d
    case ConnectionProblem(d) => "Connection error while fetching #" + hashtag + ": " + d
    case OtherError(d) => "Unexpected error fetching hashtag #" + hashtag + ": " + d
  }

  function ConversionMessage(it: StreamItem): string
    requires it.conversionError.Some?
  {
    "Failed to process post " + it.raw.shortcode + ": " + it.conversionError.value
  }

  /** `if max_posts and posts_fetched >= max_posts`. */
  predicate CapReached(maxPosts: Option<int>, fetched: nat) {
    maxPosts.Some? && maxPosts.value != 0 && fetched >= maxPosts.value
  }

  /** What scanning the stream collected, and whether the loop stopped by
      `break` rather than by running out of posts. */
  datatype Scan = Scan(posts: seq<Post>, errors: seq<string>, broke: bool)

  /** The scan loop, continuing from the posts and errors collected so far. */
  function ScanFrom(items: seq<StreamItem>, hashtag: string, since: int, until: int, maxPosts: Option<int>,
                    posts: seq<Post>, errors: seq<string>): Scan
    decreases |items|
  {
    if items == [] then Scan(posts, errors, false)
    else
      var it := items[0];
      if it.raw.dateUtc < since then Scan(posts, errors, true)
      else if it.raw.dateUtc > until then ScanFrom(items[1..], hashtag, since, until, maxPosts, posts, errors)
      else if it.conversionError.Some? then
        ScanFrom(items[1..], hashtag, since, until, maxPosts, posts, errors + [ConversionMessage(it)])
      else
        var more := posts + [ConvertPost(it.raw, hashtag)];
        if CapReached(maxPosts, |more|) then Scan(more, errors, true)
        else ScanFrom(items[1..], hashtag, since, until, maxPosts, more, errors)
  }

  /** The outcome of fetching one hashtag. */
  function FetchSpec(hashtag: string, since: int, until: int, maxPosts: Option<int>,
                     source: HashtagSource, now: int): FetchOutcome
  {
    match source
    case Missing => Raised(NotFoundMessage(hashtag))
    case LookupFails(e) => Raised(ErrorMessage(hashtag, e))
    case Found(items, end) =>
      var sc := ScanFrom(items, hashtag, since, until, maxPosts, [], []);
      if !sc.broke && end.Breaks? then Raised(ErrorMessage(hashtag, end.error))
      else Fetched(FetchResult(hashtag, since, until, |sc.posts|, sc.posts, now, sc.errors))
  }

  /** Walks the stream newest first: stops at the first post older than
      `since`, skips posts newer than `until`, records conversion failures,
      and stops once the cap is reached. */
  method FetchHashtagPosts(hashtag: string, since: int, until: int, maxPosts: Option<int>,
                           source: HashtagSource, now: int) returns (outcome: FetchOutcome)
    ensures outcome == FetchSpec(hashtag, since, until, maxPosts, source, now)
  {
    if source.Missing? {
      return Raised(NotFoundMessage(hashtag));
    }
    if source.LookupFails? {
      return Raised(ErrorMessage(hashtag, source.error));
    }
    var items := source.items;
    var posts: seq<Post> := [];
    var errors: seq<string> := [];
    var postsFetched := 0;
    var broke := false;
    var i := 0;
    while i < |items|
      invariant 0 <= i <= |items|
      invariant postsFetched == |posts|
      invariant ScanFrom(items, hashtag, since, until, maxPosts, [], []) ==
                ScanFrom(items[i..], hashtag, since, until, maxPosts, posts, errors)
    {
      var item := items[i];
      assert items[i..][0] == item && items[i..][1..] == items[i + 1..];
      if item.raw.dateUtc < since {
        broke := true;
        break;
      }
      if item.raw.dateUtc > until {
        i := i + 1;
        continue;
      }
      if item.conversionError.Some? {
        errors := errors + [ConversionMessage(item)];
        i := i + 1;
        continue;
      }
      posts := posts + [ConvertPost(item.raw, hashtag)];
      postsFetched := postsFetched + 1;
      if maxPosts.Some? && maxPosts.value != 0 && postsFetched >= maxPosts.value {
        broke := true;
        break;
      }
      i := i + 1;
    }
    if !broke {
      assert items[i..] == [];
    }
    if !broke && source.end.Breaks? {
      return Raised(ErrorMessage(hashtag, source.end.error));
    }
    outcome := Fetched(FetchResult(hashtag, since, until, postsFetched, posts, now, errors));
  }

  // ---------------------------------------------------------------------
  // What a fetch collects
  // ---------------------------------------------------------------------

  /** The stream up to, not including, the first post older than `since`. */
  function Recent(items: seq<StreamItem>, since: int): (r: seq<StreamItem>)
    ensures |r| <= |items| && r == items[..|r|]
    ensures forall i :: 0 <= i < |r| ==> r[i].raw.dateUtc >= since
  {
    if items == [] || items[0].raw.dateUtc < since then []
    else [items[0]] + Recent(items[1..], since)
  }

  /** A post that is collected once reached: not newer than `until` and
      converted without error. */
  function Collectable(until: int): StreamItem -> bool {
    (it: StreamItem) => it.raw.dateUtc <= until && it.conversionError.None?
  }

  function ConvertAll(items: seq<StreamItem>, hashtag: string): (r: seq<Post>)
    ensures |r| == |items|
    ensures forall i :: 0 <= i < |r| ==> r[i] == ConvertPost(items[i].raw, hashtag)
  {
    seq(|items|, i requires 0 <= i < |items| => ConvertPost(items[i].raw, hashtag))
  }

  /** The most posts a fetch keeps, counting from `fetched` already kept:
      the cap when it is set (a negative cap stops after one post), else all. */
  function Room(maxPosts: Option<int>, fetched: nat, available: nat): nat {
    if maxPosts.Some? && maxPosts.value != 0 then
      (if Max(maxPosts.value, 1) > fetched then Max(maxPosts.value, 1) - fetched else 0)
    else available
  }

  /** No earlier step of the scan reached the cap. */
  predicate CapOpen(maxPosts: Option<int>, fetched: nat) {
    fetched == 0 || !CapReached(maxPosts, fetched)
  }

  lemma ConvertAllCons(x: StreamItem, rest: seq<StreamItem>, hashtag: string)
    ensures ConvertAll([x] + rest, hashtag) == [ConvertPost(x.raw, hashtag)] + ConvertAll(rest, hashtag)
  {
    assert ([x] + rest)[1..] == rest;
  }

  /** The collectable posts of the recent part of a stream whose first post
      is recent. */
  lemma CollectableCons(items: seq<StreamItem>, since: int, until: int, hashtag: string)
    requires items != [] && items[0].raw.dateUtc >= since
    ensures !Collectable(until)(items[0]) ==>
              KeepIf(Recent(items, since), Collectable(until)) == KeepIf(Recent(items[1..], since), Collectable(until))
    ensures Collectable(until)(items[0]) ==>
              ConvertAll(KeepIf(Recent(items, since), Collectable(until)), hashtag) ==
              [ConvertPost(items[0].raw, hashtag)] + ConvertAll(KeepIf(Recent(items[1..], since), Collectable(until)), hashtag)
  {
    assert Recent(items, since) == [items[0]] + Recent(items[1..], since);
    var rest := KeepIf(Recent(items[1..], since), Collectable(until));
    if Collectable(until)(items[0]) {
      assert KeepIf(Recent(items, since), Collectable(until)) == [items[0]] + rest;
      ConvertAllCons(items[0], rest, hashtag);
    }
  }

  /** Cutting off at the room left, before and after one more post. */
  lemma TakeRoomStep(later: seq<Post>, c: Post, maxPosts: Option<int>, fetched: nat, restLen: nat)
    requires CapOpen(maxPosts, fetched) && |later| <= restLen
    ensures !CapReached(maxPosts, fetched + 1) ==>
              Take([c] + later, Room(maxPosts, fetched, restLen + 1)) == [c] + Take(later, Room(maxPosts, fetched + 1, restLen))
    ensures CapReached(maxPosts, fetched + 1) ==> Take([c] + later, Room(maxPosts, fetched, restLen + 1)) == [c]
    ensures Take(later, Room(maxPosts, fetched, restLen)) == Take(later, Room(maxPosts, fetched, restLen + 1))
  {
    var room := Room(maxPosts, fetched, restLen + 1);
    assert room >= 1;
    assert ([c] + later)[1..] == later;
  }

  /** What the scan keeps from the stream, cut off at the room left. */
  function Expected(items: seq<StreamItem>, hashtag: string, since: int, until: int,
                    maxPosts: Option<int>, posts: seq<Post>): seq<Post>
  {
    posts + Take(ConvertAll(KeepIf(Recent(items, since), Collectable(until)), hashtag),
                 Room(maxPosts, |posts|, |items|))
  }

  /** Passing over a post it does not keep leaves the expected posts as
      they are. */
  lemma ExpectedSkip(items: seq<StreamItem>, hashtag: string, since: int, until: int,
                     maxPosts: Option<int>, posts: seq<Post>)
    requires items != [] && items[0].raw.dateUtc >= since && !Collectable(until)(items[0])
    requires CapOpen(maxPosts, |posts|)
    ensures Expected(items, hashtag, since, until, maxPosts, posts) ==
            Expected(items[1..], hashtag, since, until, maxPosts, posts)
  {
    CollectableCons(items, since, until, hashtag);
    var later := ConvertAll(KeepIf(Recent(items[1..], since), Collectable(until)), hashtag);
    TakeRoomStep(later, ConvertPost(items[0].raw, hashtag), maxPosts, |posts|, |items| - 1);
  }

  /** Keeping a post without reaching the cap moves it from the expected
      rest to the posts kept. */
  lemma ExpectedKeep(items: seq<StreamItem>, hashtag: string, since: int, until: int,
                     maxPosts: Option<int>, posts: seq<Post>)
    requires items != [] && items[0].raw.dateUtc >= since && Collectable(until)(items[0])
    requires CapOpen(maxPosts, |posts|) && !CapReached(maxPosts, |posts| + 1)
    ensures Expected(items, hashtag, since, until, maxPosts, posts) ==
            Expected(items[1..], hashtag, since, until, maxPosts, posts + [ConvertPost(items[0].raw, hashtag)])
  {
    CollectableCons(items, since, until, hashtag);
    var later := ConvertAll(KeepIf(Recent(items[1..], since), Collectable(until)), hashtag);
    KeepStep(posts, ConvertPost(items[0].raw, hashtag), later, maxPosts, |items| - 1);
  }

  /** One kept post below the cap, on the posts kept and the rest. */
  lemma KeepStep(posts: seq<Post>, c: Post, later: seq<Post>, maxPosts: Option<int>, restLen: nat)
    requires CapOpen(maxPosts, |posts|) && !CapReached(maxPosts, |posts| + 1) && |later| <= restLen
    ensures posts + Take([c] + later, Room(maxPosts, |posts|, restLen + 1)) ==
            (posts + [c]) + Take(later, Room(maxPosts, |posts + [c]|, restLen))
  {
    TakeRoomStep(later, c, maxPosts, |posts|, restLen);
    var t := Take(later, Room(maxPosts, |posts| + 1, restLen));
    assert (posts + [c]) + t == posts + ([c] + t);
  }

  /** Keeping the post that reaches the cap completes the expected posts. */
  lemma ExpectedCap(items: seq<StreamItem>, hashtag: string, since: int, until: int,
                    maxPosts: Option<int>, posts: seq<Post>)
    requires items != [] && items[0].raw.dateUtc >= since && Collectable(until)(items[0])
    requires CapOpen(maxPosts, |posts|) && CapReached(maxPosts, |posts| + 1)
    ensures Expected(items, hashtag, since, until, maxPosts, posts) == posts + [ConvertPost(items[0].raw, hashtag)]
  {
    CollectableCons(items, since, until, hashtag);
    var later := ConvertAll(KeepIf(Recent(items[1..], since), Collectable(until)), hashtag);
    TakeRoomStep(later, ConvertPost(items[0].raw, hashtag), maxPosts, |posts|, |items| - 1);
  }

  /** The posts a scan collects are the converted collectable posts of the
      recent part of the stream, cut off at the cap. */
  lemma {:induction false} ScanPosts(items: seq<StreamItem>, hashtag: string, since: int, until: int,
                                     maxPosts: Option<int>, posts: seq<Post>, errors: seq<string>)
    requires CapOpen(maxPosts, |posts|)
    ensures ScanFrom(items, hashtag, since, until, maxPosts, posts, errors).posts ==
            Expected(items, hashtag, since, until, maxPosts, posts)
    decreases |items|
  {
    if items == [] {
      assert posts + [] == posts;
    } else if items[0].raw.dateUtc < since {
      assert posts + [] == posts;
    } else if !Collectable(until)(items[0]) {
      var errs := if items[0].raw.dateUtc <= until then errors + [ConversionMessage(items[0])] else errors;
      ScanPosts(items[1..], hashtag, since, until, maxPosts, posts, errs);
      ExpectedSkip(items, hashtag, since, until, maxPosts, posts);
    } else if !CapReached(maxPosts, |posts| + 1) {
      ScanPosts(items[1..], hashtag, since, until, maxPosts, posts + [ConvertPost(items[0].raw, hashtag)], errors);
      ExpectedKeep(items, hashtag, since, until, maxPosts, posts);
    } else {
      ExpectedCap(items, hashtag, since, until, maxPosts, posts);
    }
  }

  /** Every recorded error comes from a post whose conversion failed: the
      shape of the errors, which `ScanErrorsExact` below fixes exactly. */
  lemma {:induction false} ScanErrors(items: seq<StreamItem>, hashtag: string, since: int, until: int,
                                      maxPosts: Option<int>, posts: seq<Post>, errors: seq<string>)
    ensures var sc := ScanFrom(items, hashtag, since, until, maxPosts, posts, errors);
            |sc.errors| >= |errors| && sc.errors[..|errors|] == errors &&
            forall e :: e in sc.errors[|errors|..] ==>
              exists k :: 0 <= k < |items| && items[k].conversionError.Some? && e == ConversionMessage(items[k])
    decreases |items|
  {
    if items != [] {
      var it, rest := items[0], items[1..];
      if it.raw.dateUtc >= since {
        var errs := if it.raw.dateUtc <= until && it.conversionError.Some? then errors + [ConversionMessage(it)] else errors;
        var more := if it.raw.dateUtc <= until && it.conversionError.None? then posts + [ConvertPost(it.raw, hashtag)] else posts;
        ScanErrors(rest, hashtag, since, until, maxPosts, more, errs);
        var sc := ScanFrom(items, hashtag, since, until, maxPosts, posts, errors);
        forall e | e in sc.errors[|errors|..]
          ensures exists k :: 0 <= k < |items| && items[k].conversionError.Some? && e == ConversionMessage(items[k])
        {
          if !(it.raw.dateUtc <= until && it.conversionError.None? && CapReached(maxPosts, |more|)) {
            if e in sc.errors[|errs|..] {
              var k :| 0 <= k < |rest| && rest[k].conversionError.Some? && e == ConversionMessage(rest[k]);
              assert items[k + 1] == rest[k];
            } else {
              assert e == ConversionMessage(items[0]);
            }
          }
        }
      }
    }
  }

  /** A post whose conversion failure is recorded once reached: not newer
      than `until`, and its conversion raised. */
  function FailsInWindow(until: int): StreamItem -> bool {
    (it: StreamItem) => it.raw.dateUtc <= until && it.conversionError.Some?
  }

  function FailureMessages(failed: seq<StreamItem>): (r: seq<string>)
    requires forall i :: 0 <= i < |failed| ==> failed[i].conversionError.Some?
    ensures |r| == |failed| && forall i :: 0 <= i < |r| ==> r[i] == ConversionMessage(failed[i])
  {
    seq(|failed|, i requires 0 <= i < |failed| => ConversionMessage(failed[i]))
  }

  lemma FailureMessagesPrepend(errors: seq<string>, x: StreamItem, xs: seq<StreamItem>)
    requires x.conversionError.Some? && forall i :: 0 <= i < |xs| ==> xs[i].conversionError.Some?
    ensures errors + FailureMessages([x] + xs) == (errors + [ConversionMessage(x)]) + FailureMessages(xs)
  {
    FailureMessagesCons(x, xs);
    var m := FailureMessages(xs);
    assert errors + ([ConversionMessage(x)] + m) == (errors + [ConversionMessage(x)]) + m;
  }

  lemma FailureMessagesCons(x: StreamItem, xs: seq<StreamItem>)
    requires x.conversionError.Some? && forall i :: 0 <= i < |xs| ==> xs[i].conversionError.Some?
    ensures FailureMessages([x] + xs) == [ConversionMessage(x)] + FailureMessages(xs)
  {
    var a, b := FailureMessages([x] + xs), [ConversionMessage(x)] + FailureMessages(xs);
    forall i | 0 <= i < |a| ensures a[i] == b[i] {
      if i > 0 { assert ([x] + xs)[i] == xs[i - 1]; }
    }
  }

  /** The part of the recent stream the scan reads when it may still keep
      `room` posts: up to and including the post that fills the room. */
  function Visited(recent: seq<StreamItem>, until: int, room: nat): (r: seq<StreamItem>)
    ensures |r| <= |recent| && r == recent[..|r|]
  {
    if recent == [] then []
    else if Collectable(until)(recent[0]) && room <= 1 then [recent[0]]
    else
      var room' := if Collectable(until)(recent[0]) then room - 1 else room;
      [recent[0]] + Visited(recent[1..], until, room')
  }

  /** The part of the stream the scan reads: all of the recent part without
      a cap, else the recent part up to the post that reaches the cap. */
  function Reached(items: seq<StreamItem>, since: int, until: int, maxPosts: Option<int>, fetched: nat): seq<StreamItem> {
    if maxPosts.Some? && maxPosts.value != 0 then Visited(Recent(items, since), until, Room(maxPosts, fetched, 0))
    else Recent(items, since)
  }

  /** The errors a scan ends with: those it had, then one message for every
      failed in-window post it reaches, in stream order. */
  function ExpectedErrors(items: seq<StreamItem>, since: int, until: int, maxPosts: Option<int>,
                          fetched: nat, errors: seq<string>): seq<string>
  {
    var failed := KeepIf(Reached(items, since, until, maxPosts, fetched), FailsInWindow(until));
    errors + FailureMessages(failed)
  }

  /** The scan reads at most the `room`-th collectable post; when it stops
      before the end of the recent part, it has just read exactly that post. */
  lemma {:induction false} VisitedSpec(recent: seq<StreamItem>, until: int, room: nat)
    requires room >= 1
    ensures |KeepIf(Visited(recent, until, room), Collectable(until))| <= room
    ensures |Visited(recent, until, room)| < |recent| ==>
              |KeepIf(Visited(recent, until, room), Collectable(until))| == room &&
              Collectable(until)(Visited(recent, until, room)[|Visited(recent, until, room)| - 1])
  {
    if recent != [] {
      var x := recent[0];
      var c := Collectable(until)(x);
      var v := Visited(recent, until, room);
      if c && room <= 1 {
        assert v == [x] + [];
        KeepIfCons(x, [], Collectable(until));
      } else {
        var room' := if c then room - 1 else room;
        VisitedSpec(recent[1..], until, room');
        var v' := Visited(recent[1..], until, room');
        assert v == [x] + v';
        KeepIfCons(x, v', Collectable(until));
        var n, n' := |KeepIf(v, Collectable(until))|, |KeepIf(v', Collectable(until))|;
        assert n == (if c then 1 else 0) + n';
        if |v| < |recent| {
          assert |v'| < |recent[1..]|;
          assert v[|v| - 1] == v'[|v'| - 1];
        }
      }
    }
  }

  /** Reading one more recent post that does not fill the room. */
  lemma ReachedCons(items: seq<StreamItem>, since: int, until: int, maxPosts: Option<int>, fetched: nat)
    requires items != [] && items[0].raw.dateUtc >= since
    requires Collectable(until)(items[0]) ==> CapOpen(maxPosts, fetched) && !CapReached(maxPosts, fetched + 1)
    ensures Reached(items, since, until, maxPosts, fetched) ==
            [items[0]] + Reached(items[1..], since, until, maxPosts,
                                 if Collectable(until)(items[0]) then fetched + 1 else fetched)
  {
    var recent := Recent(items, since);
    assert recent == [items[0]] + Recent(items[1..], since);
    assert recent[0] == items[0] && recent[1..] == Recent(items[1..], since);
    if maxPosts.Some? && maxPosts.value != 0 && Collectable(until)(items[0]) {
      assert Room(maxPosts, fetched, 0) >= 2;
      assert Room(maxPosts, fetched + 1, 0) == Room(maxPosts, fetched, 0) - 1;
    }
  }

  /** One step of the scan over a post it only reads (too new, or failing):
      its failure, if any, is the next message. */
  lemma ErrorsSkip(items: seq<StreamItem>, since: int, until: int, maxPosts: Option<int>,
                   fetched: nat, errors: seq<string>)
    requires items != [] && items[0].raw.dateUtc >= since && !Collectable(until)(items[0])
    ensures ExpectedErrors(items, since, until, maxPosts, fetched, errors) ==
            ExpectedErrors(items[1..], since, until, maxPosts, fetched,
                           if FailsInWindow(until)(items[0]) then errors + [ConversionMessage(items[0])] else errors)
  {
    ReachedCons(items, since, until, maxPosts, fetched);
    FailedCons(items[0], Reached(items[1..], since, until, maxPosts, fetched), until, errors);
  }

  /** The messages for one more post read, ahead of the rest. */
  lemma FailedCons(it: StreamItem, rest: seq<StreamItem>, until: int, errors: seq<string>)
    ensures errors + FailureMessages(KeepIf([it] + rest, FailsInWindow(until))) ==
            (if FailsInWindow(until)(it) then errors + [ConversionMessage(it)] else errors) +
            FailureMessages(KeepIf(rest, FailsInWindow(until)))
  {
    KeepIfCons(it, rest, FailsInWindow(until));
    var failed := KeepIf(rest, FailsInWindow(until));
    if FailsInWindow(until)(it) {
      assert KeepIf([it] + rest, FailsInWindow(until)) == [it] + failed;
      FailureMessagesPrepend(errors, it, failed);
    } else {
      assert KeepIf([it] + rest, FailsInWindow(until)) == [] + failed == failed;
    }
  }

  /** One step of the scan over a post it keeps without reaching the cap. */
  lemma ErrorsKeep(items: seq<StreamItem>, since: int, until: int, maxPosts: Option<int>,
                   fetched: nat, errors: seq<string>)
    requires items != [] && items[0].raw.dateUtc >= since && Collectable(until)(items[0])
    requires CapOpen(maxPosts, fetched) && !CapReached(maxPosts, fetched + 1)
    ensures ExpectedErrors(items, since, until, maxPosts, fetched, errors) ==
            ExpectedErrors(items[1..], since, until, maxPosts, fetched + 1, errors)
  {
    var rest := Reached(items[1..], since, until, maxPosts, fetched + 1);
    ReachedCons(items, since, until, maxPosts, fetched);
    KeepIfCons(items[0], rest, FailsInWindow(until));
    assert [] + KeepIf(rest, FailsInWindow(until)) == KeepIf(rest, FailsInWindow(until));
  }

  /** The post that reaches the cap is the last one the scan reads. */
  lemma ErrorsCap(items: seq<StreamItem>, since: int, until: int, maxPosts: Option<int>,
                  fetched: nat, errors: seq<string>)
    requires items != [] && items[0].raw.dateUtc >= since && Collectable(until)(items[0])
    requires CapOpen(maxPosts, fetched) && CapReached(maxPosts, fetched + 1)
    ensures ExpectedErrors(items, since, until, maxPosts, fetched, errors) == errors
  {
    assert Recent(items, since) == [items[0]] + Recent(items[1..], since);
    assert Room(maxPosts, fetched, 0) <= 1;
    assert Reached(items, since, until, maxPosts, fetched) == [items[0]];
    assert errors + [] == errors;
  }

  /** Nothing is reached from an exhausted stream or past an old post. */
  lemma ErrorsEnd(items: seq<StreamItem>, since: int, until: int, maxPosts: Option<int>,
                  fetched: nat, errors: seq<string>)
    requires items == [] || items[0].raw.dateUtc < since
    ensures ExpectedErrors(items, since, until, maxPosts, fetched, errors) == errors
  {
    assert Reached(items, since, until, maxPosts, fetched) == [];
    assert errors + [] == errors;
  }

  /** The errors a scan records are exactly the messages of the failed
      in-window posts it reaches, in stream order, after those it had. */
  lemma {:induction false} ScanErrorsExact(items: seq<StreamItem>, hashtag: string, since: int, until: int,
                                           maxPosts: Option<int>, posts: seq<Post>, errors: seq<string>)
    requires CapOpen(maxPosts, |posts|)
    ensures ScanFrom(items, hashtag, since, until, maxPosts, posts, errors).errors ==
            ExpectedErrors(items, since, until, maxPosts, |posts|, errors)
    decreases |items|
  {
    if items == [] || items[0].raw.dateUtc < since {
      ErrorsEnd(items, since, until, maxPosts, |posts|, errors);
    } else if items[0].raw.dateUtc > until || items[0].conversionError.Some? {
      var errs := if items[0].raw.dateUtc > until then errors else errors + [ConversionMessage(items[0])];
      ScanErrorsExact(items[1..], hashtag, since, until, maxPosts, posts, errs);
      ScanErrorsSkip(items, hashtag, since, until, maxPosts, posts, errors);
    } else if !CapReached(maxPosts, |posts| + 1) {
      var c := ConvertPost(items[0].raw, hashtag);
      ScanErrorsExact(items[1..], hashtag, since, until, maxPosts, posts + [c], errors);
      ScanKeepUnfold(items, hashtag, since, until, maxPosts, posts, errors);
      assert |posts + [c]| == |posts| + 1;
      ErrorsKeep(items, since, until, maxPosts, |posts|, errors);
    } else {
      assert Collectable(until)(items[0]);
      ErrorsCap(items, since, until, maxPosts, |posts|, errors);
    }
  }

  /** The induction step of ScanErrorsExact over a post the scan only reads. */
  lemma ScanErrorsSkip(items: seq<StreamItem>, hashtag: string, since: int, until: int,
                       maxPosts: Option<int>, posts: seq<Post>, errors: seq<string>)
    requires items != [] && items[0].raw.dateUtc >= since
    requires items[0].raw.dateUtc > until || items[0].conversionError.Some?
    requires var errs := if items[0].raw.dateUtc > until then errors else errors + [ConversionMessage(items[0])];
             ScanFrom(items[1..], hashtag, since, until, maxPosts, posts, errs).errors ==
             ExpectedErrors(items[1..], since, until, maxPosts, |posts|, errs)
    ensures ScanFrom(items, hashtag, since, until, maxPosts, posts, errors).errors ==
            ExpectedErrors(items, since, until, maxPosts, |posts|, errors)
  {
    assert !Collectable(until)(items[0]);
    assert FailsInWindow(until)(items[0]) == (items[0].raw.dateUtc <= until);
    ErrorsSkip(items, since, until, maxPosts, |posts|, errors);
  }

  /** The scan loop's step over a post kept below the cap. */
  lemma ScanKeepUnfold(items: seq<StreamItem>, hashtag: string, since: int, until: int,
                       maxPosts: Option<int>, posts: seq<Post>, errors: seq<string>)
    requires items != [] && items[0].raw.dateUtc >= since
    requires items[0].raw.dateUtc <= until && items[0].conversionError.None?
    requires !CapReached(maxPosts, |posts| + 1)
    ensures ScanFrom(items, hashtag, since, until, maxPosts, posts, errors) ==
            ScanFrom(items[1..], hashtag, since, until, maxPosts, posts + [ConvertPost(items[0].raw, hashtag)], errors)
  {
  }

  /** Without a cap, the errors are the messages of every failed in-window
      post before the first post older than `since`. */
  lemma ScanErrorsUncapped(items: seq<StreamItem>, hashtag: string, since: int, until: int, maxPosts: Option<int>)
    requires !(maxPosts.Some? && maxPosts.value != 0)
    ensures ScanFrom(items, hashtag, since, until, maxPosts, [], []).errors ==
            FailureMessages(KeepIf(Recent(items, since), FailsInWindow(until)))
  {
    ScanErrorsExact(items, hashtag, since, until, maxPosts, [], []);
    assert Reached(items, since, until, maxPosts, 0) == Recent(items, since);
    var m := FailureMessages(KeepIf(Recent(items, since), FailsInWindow(until)));
    assert ExpectedErrors(items, since, until, maxPosts, 0, []) == [] + m;
    assert [] + m == m;
  }

  /** An old post in the stream ends the scan with `break`, so a failure of
      the stream after it is never reached. */
  lemma {:induction false} ScanStopsAtOld(items: seq<StreamItem>, hashtag: string, since: int, until: int,
                                          maxPosts: Option<int>, posts: seq<Post>, errors: seq<string>, k: nat)
    requires k < |items| && items[k].raw.dateUtc < since
    ensures ScanFrom(items, hashtag, since, until, maxPosts, posts, errors).broke
    decreases |items|
  {
    if items[0].raw.dateUtc >= since {
      var it := items[0];
      var errs := if it.raw.dateUtc <= until && it.conversionError.Some? then errors + [ConversionMessage(it)] else errors;
      var more := if it.raw.dateUtc <= until && it.conversionError.None? then posts + [ConvertPost(it.raw, hashtag)] else posts;
      assert items[1..][k - 1] == items[k];
      ScanStopsAtOld(items[1..], hashtag, since, until, maxPosts, more, errs, k - 1);
    }
  }

  /** The posts a scan collects lie in the date window, name the searched
      hashtag, and are no more than the cap allows. */
  lemma ScanWindow(items: seq<StreamItem>, hashtag: string, since: int, until: int, maxPosts: Option<int>)
    ensures var ps := ScanFrom(items, hashtag, since, until, maxPosts, [], []).posts;
            (forall i :: 0 <= i < |ps| ==> since <= ps[i].postedAt <= until && hashtag in ps[i].hashtags) &&
            (maxPosts.Some? && maxPosts.value != 0 ==> |ps| <= Max(maxPosts.value, 1))
  {
    var ps := ScanFrom(items, hashtag, since, until, maxPosts, [], []).posts;
    ScanPosts(items, hashtag, since, until, maxPosts, [], []);
    var recent := Recent(items, since);
    var kept := KeepIf(recent, Collectable(until));
    var conv := ConvertAll(kept, hashtag);
    assert ps == Take(conv, Room(maxPosts, 0, |items|));
    KeptInWindow(recent, since, until, hashtag);
  }

  /** Every converted collectable post of the recent part is in the window
      and names the hashtag. */
  lemma KeptInWindow(recent: seq<StreamItem>, since: int, until: int, hashtag: string)
    requires forall i :: 0 <= i < |recent| ==> recent[i].raw.dateUtc >= since
    ensures var conv := ConvertAll(KeepIf(recent, Collectable(until)), hashtag);
            forall i :: 0 <= i < |conv| ==> since <= conv[i].postedAt <= until && hashtag in conv[i].hashtags
  {
    var kept := KeepIf(recent, Collectable(until));
    forall i | 0 <= i < |kept|
      ensures since <= ConvertPost(kept[i].raw, hashtag).postedAt <= until
      ensures hashtag in ConvertPost(kept[i].raw, hashtag).hashtags
    {
      assert kept[i] in recent && Collectable(until)(kept[i]);
    }
  }

  /** A successful fetch: its posts lie in the date window, each names the
      searched hashtag, there are no more than the cap allows, the count is
      the number of posts, and the errors are the messages of the failed
      conversions the scan reaches, in stream order. */
  lemma FetchedSpec(hashtag: string, since: int, until: int, maxPosts: Option<int>, source: HashtagSource, now: int)
    requires FetchSpec(hashtag, since, until, maxPosts, source, now).Fetched?
    ensures var r := FetchSpec(hashtag, since, until, maxPosts, source, now).result;
            r.hashtag == hashtag && r.totalPostsFetched == |r.posts| && r.fetchTimestamp == now &&
            (forall i :: 0 <= i < |r.posts| ==>
               since <= r.posts[i].postedAt <= until && hashtag in r.posts[i].hashtags) &&
            (maxPosts.Some? && maxPosts.value != 0 ==> |r.posts| <= Max(maxPosts.value, 1)) &&
            (forall e :: e in r.errorMessages ==>
               exists k :: 0 <= k < |source.items| && source.items[k].conversionError.Some? &&
                           e == ConversionMessage(source.items[k])) &&
            r.errorMessages == ExpectedErrors(source.items, since, until, maxPosts, 0, [])
  {
    ScanWindow(source.items, hashtag, since, until, maxPosts);
    ScanErrors(source.items, hashtag, since, until, maxPosts, [], []);
    ScanErrorsExact(source.items, hashtag, since, until, maxPosts, [], []);
    var sc := ScanFrom(source.items, hashtag, since, until, maxPosts, [], []);
    assert sc.errors[0..] == sc.errors;
  }

  /** The fetch fails only when the hashtag is missing, its lookup fails,
      or the stream breaks before the scan stops; a stream that ends
      cleanly, or that holds a post older than `since`, always gives a
      result. */
  lemma FetchFailsOnlyOnError(hashtag: string, since: int, until: int, maxPosts: Option<int>,
                              items: seq<StreamItem>, end: StreamEnd, now: int)
    ensures end.Exhausted? ==> FetchSpec(hashtag, since, until, maxPosts, Found(items, end), now).Fetched?
    ensures (exists k :: 0 <= k < |items| && items[k].raw.dateUtc < since) ==>
              FetchSpec(hashtag, since, until, maxPosts, Found(items, end), now).Fetched?
  {
    if exists k :: 0 <= k < |items| && items[k].raw.dateUtc < since {
      var k :| 0 <= k < |items| && items[k].raw.dateUtc < since;
      ScanStopsAtOld(items, hashtag, since, until, maxPosts, [], [], k);
    }
  }

  // ---------------------------------------------------------------------
  // fetch_multiple_hashtags
  // ---------------------------------------------------------------------

  /** The result recorded for a hashtag whose every attempt raised. */
  function ErrorResult(hashtag: string, since: int, until: int, now: int, maxRetries: int, message: string): FetchResult {
    FetchResult(hashtag, since, until, 0, [], now,
                ["Failed after " + IntToString(maxRetries) + " attempts: " + message])
  }

  /** The result kept for one hashtag when the attempts from `attempt` on are
      still to be made; `network(tag, a)` is what the client does on attempt
      `a`. None when no attempt is made at all. */
  function TagOutcome(hashtag: string, attempt: nat, maxRetries: int, since: int, until: int,
                      maxPosts: Option<int>, network: (string, nat) -> HashtagSource, now: int): (r: Option<FetchResult>)
    ensures attempt < maxRetries ==> r.Some? && r.value.hashtag == hashtag
    ensures attempt >= maxRetries ==> r.None?
    decreases if attempt < maxRetries then maxRetries - attempt else 0
  {
    if attempt >= maxRetries then None
    else match FetchSpec(hashtag, since, until, maxPosts, network(hashtag, attempt), now)
      case Fetched(res) => Some(res)
      case Raised(msg) =>
        if attempt < maxRetries - 1 then TagOutcome(hashtag, attempt + 1, maxRetries, since, until, maxPosts, network, now)
        else Some(ErrorResult(hashtag, since, until, now, maxRetries, msg))
  }

  /** The results of all hashtags, in order. */
  function AllOutcomes(hashtags: seq<string>, maxRetries: int, since: int, until: int,
                       maxPosts: Option<int>, network: (string, nat) -> HashtagSource, now: int): (r: seq<FetchResult>)
    ensures maxRetries >= 1 ==> |r| == |hashtags| && forall i :: 0 <= i < |r| ==> r[i].hashtag == hashtags[i]
    ensures maxRetries < 1 ==> r == []
  {
    if hashtags == [] then []
    else
      var init := AllOutcomes(hashtags[..|hashtags| - 1], maxRetries, since, until, maxPosts, network, now);
      var last := TagOutcome(hashtags[|hashtags| - 1], 0, maxRetries, since, until, maxPosts, network, now);
      init + (if last.Some? then [last.value] else [])
  }

  /** Fetches every hashtag in turn, retrying a failed fetch up to
      `maxRetries` times and recording an error result when all fail. */
  method FetchMultipleHashtags(hashtags: seq<string>, since: int, until: int, maxPostsPerTag: Option<int>,
                               maxRetries: int, network: (string, nat) -> HashtagSource, now: int)
    returns (results: seq<FetchResult>)
    ensures results == AllOutcomes(hashtags, maxRetries, since, until, maxPostsPerTag, network, now)
    ensures maxRetries >= 1 ==>
              |results| == |hashtags| && forall i :: 0 <= i < |results| ==> results[i].hashtag == hashtags[i]
    ensures maxRetries < 1 ==> results == []
  {
    results := [];
    var idx := 0;
    while idx < |hashtags|
      invariant 0 <= idx <= |hashtags|
      invariant results == AllOutcomes(hashtags[..idx], maxRetries, since, until, maxPostsPerTag, network, now)
    {
      var hashtag := hashtags[idx];
      assert hashtags[..idx + 1][..idx] == hashtags[..idx];
      ghost var before := results;
      ghost var goal := TagOutcome(hashtag, 0, maxRetries, since, until, maxPostsPerTag, network, now);
      var attempt: nat := 0;
      while attempt < maxRetries
        invariant maxRetries > 0 ==> attempt < maxRetries
        invariant goal == TagOutcome(hashtag, attempt, maxRetries, since, until, maxPostsPerTag, network, now)
        invariant results == before
      {
        var outcome := FetchHashtagPosts(hashtag, since, until, maxPostsPerTag, network(hashtag, attempt), now);
        if outcome.Fetched? {
          results := results + [outcome.result];
          break;
        }
        if attempt == maxRetries - 1 {
          results := results + [ErrorResult(hashtag, since, until, now, maxRetries, outcome.message)];
          break;
        }
        attempt := attempt + 1;
      }
      assert results == before + (if goal.Some? then [goal.value] else []);
      idx := idx + 1;
    }
    assert hashtags[..|hashtags|] == hashtags;
  }

  /** When every attempt for a hashtag raises, its result holds no posts
      and exactly one error, naming the number of attempts and the last
      failure. */
  lemma {:induction false} AllAttemptsFail(hashtag: string, attempt: nat, maxRetries: int, since: int, until: int,
                                           maxPosts: Option<int>, network: (string, nat) -> HashtagSource, now: int)
    requires attempt < maxRetries
    requires forall a: nat :: attempt <= a < maxRetries ==>
               FetchSpec(hashtag, since, until, maxPosts, network(hashtag, a), now).Raised?
    ensures var r := TagOutcome(hashtag, attempt, maxRetries, since, until, maxPosts, network, now);
            var last := FetchSpec(hashtag, since, until, maxPosts, network(hashtag, maxRetries - 1), now);
            r == Some(ErrorResult(hashtag, since, until, now, maxRetries, last.message)) &&
            r.value.posts == [] && r.value.totalPostsFetched == 0 && |r.value.errorMessages| == 1
    decreases maxRetries - attempt
  {
    if attempt < maxRetries - 1 {
      AllAttemptsFail(hashtag, attempt + 1, maxRetries, since, until, maxPosts, network, now);
    }
  }

  /** The first attempt that succeeds decides the hashtag's result, and
      later attempts are never made. */
  lemma {:induction false} FirstSuccessWins(hashtag: string, attempt: nat, k: nat, maxRetries: int, since: int, until: int,
                                            maxPosts: Option<int>, network: (string, nat) -> HashtagSource, now: int)
    requires attempt <= k < maxRetries
    requires forall a: nat :: attempt <= a < k ==>
               FetchSpec(hashtag, since, until, maxPosts, network(hashtag, a), now).Raised?
    requires FetchSpec(hashtag, since, until, maxPosts, network(hashtag, k), now).Fetched?
    ensures TagOutcome(hashtag, attempt, maxRetries, since, until, maxPosts, network, now) ==
            Some(FetchSpec(hashtag, since, until, maxPosts, network(hashtag, k), now).result)
    decreases k - attempt
  {
    if attempt < k {
      FirstSuccessWins(hashtag, attempt + 1, k, maxRetries, since, until, maxPosts, network, now);
    }
  }
}
