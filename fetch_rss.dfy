/** backend/utils/fetch_rss.py: the five configured feeds, the per-feed
    conversion of at most 20 entries into article records (with a six-step
    image search and a title-hashed placeholder) and the concurrent join. */
module FetchRss {
  import opened Types
  import opened Strings
  import opened CleanData
  import opened Gather
  import opened Placeholders

  datatype FeedSource = FeedSource(name: string, url: string)

  const GoogleNewsAiUrl: string := "https://news.google.com/rss/search?q=artificial+intelligence+AI&hl=en-US&gl=US&ceid=US:en"
  const TechCrunchAiUrl: string := "https://techcrunch.com/tag/artificial-intelligence/feed/"
  const OpenAiBlogUrl: string := "https://openai.com/blog/rss.xml"
  const DeepMindBlogUrl: string := "https://deepmind.com/blog/feed/basic/"
  const AnthropicBlogUrl: string := "https://www.anthropic.com/index.xml"

  const RssFeeds: seq<FeedSource> := [
    FeedSource("Google News AI", GoogleNewsAiUrl),
    FeedSource("TechCrunch AI", TechCrunchAiUrl),
    FeedSource("OpenAI Blog", OpenAiBlogUrl),
    FeedSource("DeepMind Blog", DeepMindBlogUrl),
    FeedSource("Anthropic Blog", AnthropicBlogUrl)
  ]

  /** How many entries of one feed are looked at. */
  const MaxEntriesPerFeed: nat := 20

  /** An item of an entry's `media_content` or `links`: its `type` and its `url` (or `href`). */
  datatype MediaRef = MediaRef(mimeType: Option<string>, url: Option<string>)

  /** One `feedparser` entry; `None` stands for a missing key or attribute. */
  datatype FeedEntry = FeedEntry(
    title: Option<string>,
    description: Option<string>,
    summary: Option<string>,
    link: Option<string>,
    published: Option<string>,
    author: Option<string>,
    mediaContent: Option<seq<MediaRef>>,
    links: Option<seq<MediaRef>>,
    mediaThumbnail: Option<seq<Option<string>>>)

  /** A parsed feed: its entries, and `feed.image.get("href")` when the feed has a non-empty `image`. */
  datatype ParsedFeed = ParsedFeed(entries: seq<FeedEntry>, image: Option<Option<string>>)



  /** `entry.get("description", "") or entry.get("summary", "")`, before cleaning. */
  function RawDescription(e: FeedEntry): string {
    var d := e.description.GetOr("");
    if d != "" then d else e.summary.GetOr("")
  }

  /** The URL of the first item whose type starts with "image" (the loop breaks there even when that URL is empty). */
  function FirstImageUrl(items: seq<MediaRef>): Option<string> {
    if items == [] then None
    else if IsPrefix("image", items[0].mimeType.GetOr("")) then items[0].url
    else FirstImageUrl(items[1..])
  }

  /** What each of the first five image methods would yield, in the order they are tried. */
  function ImageCandidates(e: FeedEntry, feed: ParsedFeed, rt: Runtime): seq<Option<string>> {
    var d := RawDescription(e);
    [ if e.mediaContent.Some? && e.mediaContent.value != [] then FirstImageUrl(e.mediaContent.value) else None,
      if e.links.Some? then FirstImageUrl(e.links.value) else None,
      if e.mediaThumbnail.Some? && e.mediaThumbnail.value != [] then e.mediaThumbnail.value[0] else None,
      if d != "" then rt.imgSrc(d) else None,
      if d != "" then rt.backgroundImage(d) else None,
      if feed.image.Some? then feed.image.value else None ]
  }

  /** The first truthy candidate. */
  function FirstTruthy(cs: seq<Option<string>>): Option<string> {
    if cs == [] then None else if Truthy(cs[0]) then cs[0] else FirstTruthy(cs[1..])
  }

  /** `abs(hash(title)) % len(ai_images)`. */
  function PlaceholderIndex(title: string, rt: Runtime): nat {
    Abs(rt.pyHash(title)) % |RssPool|
  }

  /** The image an entry ends up with: the first method that yields a truthy URL, else the placeholder. */
  function ImageFor(e: FeedEntry, feed: ParsedFeed, title: string, rt: Runtime): (image: string)
    ensures image != ""
  {
    PoolsNonEmpty();
    FirstTruthyIsEarliest(ImageCandidates(e, feed, rt));
    match FirstTruthy(ImageCandidates(e, feed, rt))
    case Some(u) => u
    case None => RssPool[PlaceholderIndex(title, rt)]
  }

  /** The article dictionary built from one entry (before the empty-title filter). */
  function EntryRecord(e: FeedEntry, sourceName: string, feed: ParsedFeed, rt: Runtime): ArticleRecord {
    var title := CleanText(e.title.GetOr(""));
    ArticleRecord(
      title,
      CleanText(RawDescription(e)),
      Some(e.link.GetOr("")),
      PublishedIso(e.published.GetOr(""), rt),
      Some(sourceName),
      Some(e.author.GetOr("")),
      ImageFor(e, feed, title, rt))
  }

  /** The records of `entries` whose cleaned title is non-empty, in order. */
  function FeedArticles(entries: seq<FeedEntry>, sourceName: string, feed: ParsedFeed, rt: Runtime): seq<ArticleRecord> {
    if entries == [] then []
    else
      var r := EntryRecord(entries[|entries| - 1], sourceName, feed, rt);
      FeedArticles(entries[..|entries| - 1], sourceName, feed, rt) + (if r.title != "" then [r] else [])
  }

  /** What `fetch_rss_feed(url, source_name)` returns, given what fetching `url` produced. */
  function RssFeedResult(fetched: Fetch<ParsedFeed>, sourceName: string, rt: Runtime): seq<ArticleRecord> {
    match fetched
    case Failed => []
    case Fetched(feed) =>
      FeedArticles(feed.entries[..Min(MaxEntriesPerFeed, |feed.entries|)], sourceName, feed, rt)
  }

  /** The loop over `media_content` or `links` that stops at the first image-typed item. */
  method FirstImageOf(items: seq<MediaRef>) returns (imageUrl: Option<string>)
    ensures imageUrl == FirstImageUrl(items)
  {
    var k := 0;
    while k < |items|
      invariant 0 <= k <= |items|
      invariant FirstImageUrl(items) == FirstImageUrl(items[k..])
    {
      assert items[k..][0] == items[k] && items[k..][1..] == items[k + 1..];
      if IsPrefix("image", items[k].mimeType.GetOr("")) {
        return items[k].url;
      }
      k := k + 1;
    }
    return None;
  }

  /** Methods 1-6 of the image search, each tried only while no truthy URL has been found:
      the first truthy candidate, or a falsy value when there is none. */
  method FindImageUrl(e: FeedEntry, feed: ParsedFeed, rt: Runtime) returns (imageUrl: Option<string>)
    ensures Truthy(imageUrl) ==> imageUrl == FirstTruthy(ImageCandidates(e, feed, rt))
    ensures !Truthy(imageUrl) ==> FirstTruthy(ImageCandidates(e, feed, rt)) == None
  {
    var cs := ImageCandidates(e, feed, rt);
    FirstTruthyOfSix(cs);
    imageUrl := None;
    if e.mediaContent.Some? && e.mediaContent.value != [] {
      imageUrl := FirstImageOf(e.mediaContent.value);
    }
    assert imageUrl == cs[0];
    if !Truthy(imageUrl) && e.links.Some? {
      imageUrl := FirstImageOf(e.links.value);
    }
    assert Truthy(imageUrl) <==> Truthy(cs[0]) || Truthy(cs[1]);
    if !Truthy(imageUrl) && e.mediaThumbnail.Some? && e.mediaThumbnail.value != [] {
      imageUrl := e.mediaThumbnail.value[0];
    }
    if !Truthy(imageUrl) {
      var description := RawDescription(e);
      if description != "" {
        var imgMatch := rt.imgSrc(description);
        if imgMatch.Some? {
          imageUrl := imgMatch;
        }
        if !Truthy(imageUrl) {
          var bgMatch := rt.backgroundImage(description);
          if bgMatch.Some? {
            imageUrl := bgMatch;
          }
        }
      }
    }
    if !Truthy(imageUrl) && feed.image.Some? {
      imageUrl := feed.image.value;
    }
  }

  /** The image search of `fetch_rss_feed`: methods 1-6, then the title's placeholder. */
  method ResolveImage(e: FeedEntry, feed: ParsedFeed, title: string, rt: Runtime) returns (image: string)
    ensures image == ImageFor(e, feed, title, rt)
  {
    var imageUrl := FindImageUrl(e, feed, rt);
    if !Truthy(imageUrl) {
      return RssPool[PlaceholderIndex(title, rt)];
    }
    return imageUrl.value;
  }

  lemma FirstTruthyOfSix(cs: seq<Option<string>>)
    requires |cs| == 6
    ensures FirstTruthy(cs) ==
      if Truthy(cs[0]) then cs[0] else if Truthy(cs[1]) then cs[1] else if Truthy(cs[2]) then cs[2]
      else if Truthy(cs[3]) then cs[3] else if Truthy(cs[4]) then cs[4] else if Truthy(cs[5]) then cs[5]
      else None
  {
    assert FirstTruthy(cs[6..]) == None;
    assert FirstTruthy(cs[5..]) == if Truthy(cs[5]) then cs[5] else FirstTruthy(cs[6..]);
    assert FirstTruthy(cs[4..]) == if Truthy(cs[4]) then cs[4] else FirstTruthy(cs[5..]) by {
      assert cs[4..][1..] == cs[5..];
    }
    assert FirstTruthy(cs[3..]) == if Truthy(cs[3]) then cs[3] else FirstTruthy(cs[4..]) by {
      assert cs[3..][1..] == cs[4..];
    }
    assert FirstTruthy(cs[2..]) == if Truthy(cs[2]) then cs[2] else FirstTruthy(cs[3..]) by {
      assert cs[2..][1..] == cs[3..];
    }
    assert FirstTruthy(cs[1..]) == if Truthy(cs[1]) then cs[1] else FirstTruthy(cs[2..]) by {
      assert cs[1..][1..] == cs[2..];
    }
  }

  /** The body of the entry loop: the article dictionary, its image and its `published_at`. */
  method ConvertEntry(entry: FeedEntry, sourceName: string, feed: ParsedFeed, rt: Runtime) returns (article: ArticleRecord)
    ensures article == EntryRecord(entry, sourceName, feed, rt)
  {
    var title := CleanText(entry.title.GetOr(""));
    var image := ResolveImage(entry, feed, title, rt);
    var raw := entry.published.GetOr("");
    var publishedAt;
    if raw != "" {
      var d := ParseDate(raw, rt);
      publishedAt := rt.isoformat(d);
    } else {
      publishedAt := rt.isoformat(Now(rt));
    }
    article := ArticleRecord(title, CleanText(RawDescription(entry)), Some(entry.link.GetOr("")),
                             publishedAt, Some(sourceName), Some(entry.author.GetOr("")), image);
  }

  /** One more entry in the loop: it extends the records by its own when that has a title. */
  lemma FeedStep(entries: seq<FeedEntry>, i: nat, sourceName: string, feed: ParsedFeed, rt: Runtime)
    requires i < |entries|
    ensures var r := EntryRecord(entries[i], sourceName, feed, rt);
            FeedArticles(entries[..i + 1], sourceName, feed, rt) ==
            FeedArticles(entries[..i], sourceName, feed, rt) + (if r.title != "" then [r] else [])
  {
    assert entries[..i + 1][..i] == entries[..i];
  }

  /** `fetch_rss_feed`: one pass over the first 20 entries, keeping those with a non-empty cleaned title. */
  method FetchRssFeed(fetched: Fetch<ParsedFeed>, sourceName: string, rt: Runtime) returns (articles: seq<ArticleRecord>)
    ensures articles == RssFeedResult(fetched, sourceName, rt)
  {
    if fetched.Failed? {
      return [];
    }
    var feed := fetched.data;
    var entries := feed.entries[..Min(MaxEntriesPerFeed, |feed.entries|)];
    articles := [];
    for i := 0 to |entries|
      invariant articles == FeedArticles(entries[..i], sourceName, feed, rt)
    {
      var article := ConvertEntry(entries[i], sourceName, feed, rt);
      FeedStep(entries, i, sourceName, feed, rt);
      if article.title != "" {
        articles := articles + [article];
      }
    }
    assert entries[..|entries|] == entries;
  }

  /** The configured feeds' names, in order. */
  function Names(feeds: seq<FeedSource>): (names: seq<string>)
    ensures |names| == |feeds|
    ensures forall i :: 0 <= i < |feeds| ==> names[i] == feeds[i].name
  {
    seq(|feeds|, i requires 0 <= i < |feeds| => feeds[i].name)
  }

  /** `fetch_all_rss_feeds`: one task per configured feed, joined in feed order. */
  method FetchAllRssFeeds(fetched: seq<Fetch<ParsedFeed>>, rt: Runtime) returns (all: seq<ArticleRecord>)
    requires |fetched| == |RssFeeds|
    ensures all == Flatten(FeedResults(fetched, Names(RssFeeds), rt))
  {
    var names := Names(RssFeeds);
    var results: seq<TaskResult<seq<ArticleRecord>>> := [];
    for i := 0 to |fetched|
      invariant results == FeedResults(fetched[..i], names, rt)
    {
      var articles := FetchRssFeed(fetched[i], names[i], rt);
      FeedResultsSnoc(fetched, names, i, rt);
      results := results + [Returned(articles)];
    }
    assert fetched[..|fetched|] == fetched;
    all := Concat(results);
  }

  /** The gathered results: `fetched[i]` is what fetching the feed named `names[i]` produced. */
  function FeedResults(fetched: seq<Fetch<ParsedFeed>>, names: seq<string>, rt: Runtime): (rs: seq<TaskResult<seq<ArticleRecord>>>)
    requires |fetched| <= |names|
    ensures |rs| == |fetched|
  {
    if fetched == [] then []
    else
      var n := |fetched| - 1;
      FeedResults(fetched[..n], names, rt) + [Returned(RssFeedResult(fetched[n], names[n], rt))]
  }

  /** One more feed task appends its own result. */
  lemma FeedResultsSnoc(fetched: seq<Fetch<ParsedFeed>>, names: seq<string>, i: nat, rt: Runtime)
    requires i < |fetched| <= |names|
    ensures FeedResults(fetched[..i + 1], names, rt) ==
            FeedResults(fetched[..i], names, rt) + [Returned(RssFeedResult(fetched[i], names[i], rt))]
  {
    assert fetched[..i + 1][..i] == fetched[..i];
  }

  /** ... and so adds its records after those of every earlier feed: the join keeps configuration order. */
  lemma FlattenFeedResultsSnoc(fetched: seq<Fetch<ParsedFeed>>, names: seq<string>, i: nat, rt: Runtime)
    requires i < |fetched| <= |names|
    ensures Flatten(FeedResults(fetched[..i + 1], names, rt)) ==
            Flatten(FeedResults(fetched[..i], names, rt)) + RssFeedResult(fetched[i], names[i], rt)
  {
    var rs := FeedResults(fetched[..i + 1], names, rt);
    FeedResultsSnoc(fetched, names, i, rt);
    assert rs[..|rs| - 1] == FeedResults(fetched[..i], names, rt);
  }

  // ---------------------------------------------------------------------------
  // Properties
  // ---------------------------------------------------------------------------

  /** The image search picks the earliest method that yields a truthy URL. */
  lemma {:induction false} FirstTruthyIsEarliest(cs: seq<Option<string>>)
    ensures FirstTruthy(cs).None? <==> forall k :: 0 <= k < |cs| ==> !Truthy(cs[k])
    ensures forall k :: 0 <= k < |cs| && Truthy(cs[k]) && (forall j :: 0 <= j < k ==> !Truthy(cs[j])) ==>
              FirstTruthy(cs) == cs[k]
    ensures FirstTruthy(cs).Some? ==> Truthy(FirstTruthy(cs))
  {
    if cs != [] {
      FirstTruthyIsEarliest(cs[1..]);
      assert forall k :: 1 <= k < |cs| ==> cs[1..][k - 1] == cs[k];
    }
  }

  /** Every record carries a non-empty image; without a truthy candidate it is the pool entry chosen by the title's hash. */
  lemma ImageForProperties(e: FeedEntry, feed: ParsedFeed, title: string, rt: Runtime)
    ensures ImageFor(e, feed, title, rt) != ""
    ensures (forall k :: 0 <= k < 6 ==> !Truthy(ImageCandidates(e, feed, rt)[k])) ==>
              ImageFor(e, feed, title, rt) == RssPool[Abs(rt.pyHash(title)) % 15]
  {
    FirstTruthyIsEarliest(ImageCandidates(e, feed, rt));
  }

  lemma {:induction false} FeedArticlesLength(entries: seq<FeedEntry>, sourceName: string, feed: ParsedFeed, rt: Runtime)
    ensures |FeedArticles(entries, sourceName, feed, rt)| <= |entries|
  {
    if entries != [] {
      FeedArticlesLength(entries[..|entries| - 1], sourceName, feed, rt);
    }
  }

  lemma {:induction false} FeedArticlesMembers(entries: seq<FeedEntry>, sourceName: string, feed: ParsedFeed, rt: Runtime)
    ensures forall a :: a in FeedArticles(entries, sourceName, feed, rt) <==>
              a.title != "" && exists e :: e in entries && a == EntryRecord(e, sourceName, feed, rt)
  {
    if entries != [] {
      var front := entries[..|entries| - 1];
      var last := entries[|entries| - 1];
      var r := EntryRecord(last, sourceName, feed, rt);
      var rest := FeedArticles(front, sourceName, feed, rt);
      var tail := if r.title != "" then [r] else [];
      FeedArticlesMembers(front, sourceName, feed, rt);
      assert FeedArticles(entries, sourceName, feed, rt) == rest + tail;
      forall a: ArticleRecord
        ensures a in rest + tail <==> a.title != "" && exists e :: e in entries && a == EntryRecord(e, sourceName, feed, rt)
      {
        if a in tail {
          assert a == r && last in entries;
        }
        if a.title != "" && exists e :: e in entries && a == EntryRecord(e, sourceName, feed, rt) {
          var e :| e in entries && a == EntryRecord(e, sourceName, feed, rt);
          if e != last {
            assert e in front by {
              var k :| 0 <= k < |entries| && entries[k] == e;
              assert k < |entries| - 1 && front[k] == e;
            }
          }
        }
      }
    }
  }

  /** One feed yields at most 20 records, each from one of its first 20 entries, with a
      non-empty cleaned title, the feed's name as source and a non-empty image; a failed fetch yields none. */
  lemma RssFeedResultProperties(fetched: Fetch<ParsedFeed>, sourceName: string, rt: Runtime)
    ensures fetched.Failed? ==> RssFeedResult(fetched, sourceName, rt) == []
    ensures |RssFeedResult(fetched, sourceName, rt)| <= MaxEntriesPerFeed
    ensures forall a :: a in RssFeedResult(fetched, sourceName, rt) ==>
              && a.title != "" && CleanForm(a.title)
              && a.source == Some(sourceName)
              && a.image != ""
              && exists e :: e in fetched.data.entries[..Min(MaxEntriesPerFeed, |fetched.data.entries|)] &&
                             a == EntryRecord(e, sourceName, fetched.data, rt)
  {
    if fetched.Fetched? {
      var feed := fetched.data;
      var entries := feed.entries[..Min(MaxEntriesPerFeed, |feed.entries|)];
      FeedArticlesLength(entries, sourceName, feed, rt);
      FeedArticlesMembers(entries, sourceName, feed, rt);
      forall a | a in RssFeedResult(fetched, sourceName, rt) ensures CleanForm(a.title) && a.image != "" {
        var e :| e in entries && a == EntryRecord(e, sourceName, feed, rt);
        CleanTextForm(e.title.GetOr(""));
        ImageForProperties(e, feed, a.title, rt);
      }
    }
  }

  /** The joined records of the first `|fetched|` feeds: at most 20 per feed, each sourced from one of them. */
  lemma {:induction false} JoinedFeedsBounds(fetched: seq<Fetch<ParsedFeed>>, names: seq<string>, rt: Runtime)
    requires |fetched| <= |names|
    ensures |Flatten(FeedResults(fetched, names, rt))| <= MaxEntriesPerFeed * |fetched|
    ensures forall a :: a in Flatten(FeedResults(fetched, names, rt)) ==>
              exists i :: 0 <= i < |fetched| && a.source == Some(names[i])
  {
    if fetched != [] {
      var n := |fetched| - 1;
      JoinedFeedsBounds(fetched[..n], names, rt);
      RssFeedResultProperties(fetched[n], names[n], rt);
      FlattenFeedResultsSnoc(fetched, names, n, rt);
      assert fetched[..n + 1] == fetched;
    }
  }

  /** `fetch_all_rss_feeds` returns at most 100 records, each with the name of a configured feed as its source. */
  lemma AllFeedsBounds(fetched: seq<Fetch<ParsedFeed>>, rt: Runtime)
    requires |fetched| == |RssFeeds|
    ensures |Flatten(FeedResults(fetched, Names(RssFeeds), rt))| <= 100
    ensures forall a :: a in Flatten(FeedResults(fetched, Names(RssFeeds), rt)) ==> exists f :: f in RssFeeds && a.source == Some(f.name)
  {
    var names := Names(RssFeeds);
    JoinedFeedsBounds(fetched, names, rt);
    forall a | a in Flatten(FeedResults(fetched, names, rt)) ensures exists f :: f in RssFeeds && a.source == Some(f.name) {
      var i :| 0 <= i < |fetched| && a.source == Some(names[i]);
      assert RssFeeds[i] in RssFeeds;
    }
  }

  /** Every record from the OpenAI, DeepMind and Anthropic feeds is classified important, whatever its text. */
  lemma LabFeedsImportant(a: ArticleRecord, all: seq<ArticleRecord>, rt: Runtime)
    requires a.source in {Some("OpenAI Blog"), Some("DeepMind Blog"), Some("Anthropic Blog")}
    ensures Categorize(a, all, rt).important
  {
    var src := Lower(PyStr(a.source));
    if a.source == Some("OpenAI Blog") {
      assert src[..6] == "openai";
      assert Contains(src, MajorLabs[0]);
    } else if a.source == Some("DeepMind Blog") {
      assert src[..8] == "deepmind";
      assert Contains(src, MajorLabs[1]);
    } else {
      assert src[..9] == "anthropic";
      assert Contains(src, MajorLabs[2]);
    }
  }
}
