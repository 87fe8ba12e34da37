/** backend/routers/news.py: `get_all_news` merges the two adapters' records,
    deduplicates and sorts them, labels every article and caches the list;
    the trending, important and content endpoints read and fill the same cache.
    The values the module-level cache holds, shared with the search and video
    routers, are defined here. */
module News {
  import opened Types
  import opened Strings
  import opened Sorting
  import opened CleanData
  import opened Gather
  import opened Filters
  import opened TtlCache
  import FetchRss
  import FetchNewsApi
  import FetchYoutube

  /** An article dictionary as the routers hold it: the adapter's record, plus the two
      flags `get_all_news` writes and the trending view may overwrite. The same object
      is shared by every cached list that contains it. */
  class Article {
    const record: ArticleRecord
    var isTrending: bool
    var isImportant: bool

    /** A record as an adapter emits it, before any flag is written (`.get(flag, False)` reads false). */
    constructor (record: ArticleRecord)
      ensures this.record == record && !isTrending && !isImportant
    {
      this.record := record;
      isTrending := false;
      isImportant := false;
    }
  }

  /** The dictionary `fetch_article_content(url)` returns on success; it returns `None` on any failure. */
  datatype ArticleContent = ArticleContent(content: Option<string>, title: Option<string>, url: string)

  /** Everything stored in, or answered from, the module-level cache. */
  datatype Payload =
    | NewsList(items: seq<Article>)
    | ArticlesView(articles: seq<Article>, count: int)
    | Content(page: ArticleContent)
    | ContentError(error: string)
    | SearchResult(query: string, news: seq<Article>, videos: seq<Video>, newsCount: int, videosCount: int)
    | VideosView(videos: seq<Video>, count: int)
  {
    /** Python truthiness: a list is truthy when non-empty, a dictionary with keys always. */
    predicate IsTruthy() {
      !NewsList? || items != []
    }
  }

  const AllNewsKey: string := "all_news"
  const TrendingKey: string := "trending_news"
  const ImportantKey: string := "important_news"

  function ContentKey(url: string): string {
    "article_content_" + url
  }

  const CouldNotFetch: string := "Could not fetch article content"

  /** How many of the newest articles the trending view labels when none is trending. */
  const FallbackTrendingCount: nat := 10

  /** Every network response one request would see, and the API keys read from the environment. */
  datatype Upstream = Upstream(
    feeds: seq<Fetch<FetchRss.ParsedFeed>>,
    newsApiKey: string,
    newsApi: Fetch<seq<FetchNewsApi.NewsApiItem>>,
    bingKey: string,
    bing: Fetch<seq<FetchNewsApi.BingItem>>,
    youtubeKey: string,
    youtube: seq<Fetch<seq<FetchYoutube.YtItem>>>)
  {
    /** One response per configured feed and per planned video search. */
    predicate Complete() {
      |feeds| == |FetchRss.RssFeeds| && |youtube| == 2 * FetchYoutube.TasksPerKind
    }
  }

  predicate Distinct(xs: seq<Article>) {
    forall i, j :: 0 <= i < j < |xs| ==> xs[i] != xs[j]
  }

  /** What the routers keep true of the shared cache: "all_news" holds a list of distinct
      article objects, and a failed content fetch is never stored. */
  predicate Consistent(entries: map<string, Entry<Payload>>) {
    && (AllNewsKey in entries ==>
          entries[AllNewsKey].value.NewsList? && Distinct(entries[AllNewsKey].value.items))
    && (forall k :: k in entries ==> !entries[k].value.ContentError?)
  }

  /** Dropping an expired entry keeps the cache consistent. */
  lemma ConsistentAfterGet(entries: map<string, Entry<Payload>>, key: string, now: int)
    requires Consistent(entries)
    ensures Consistent(AfterGet(entries, key, now))
  {
  }

  /** Storing a list of distinct articles under "all_news" keeps the cache consistent. */
  lemma ConsistentStoreNews(entries: map<string, Entry<Payload>>, articles: seq<Article>, expiry: int)
    requires Consistent(entries) && Distinct(articles)
    ensures Consistent(entries[AllNewsKey := Entry(NewsList(articles), expiry)])
  {
  }

  /** Storing anything but an error under another key keeps the cache consistent and "all_news" as it was. */
  lemma ConsistentStoreView(entries: map<string, Entry<Payload>>, key: string, view: Payload, expiry: int)
    requires Consistent(entries) && key != AllNewsKey && !view.ContentError?
    ensures Consistent(entries[key := Entry(view, expiry)])
    ensures AllNewsKey in entries ==> entries[key := Entry(view, expiry)][AllNewsKey] == entries[AllNewsKey]
  {
  }

  /** The cached value a router answers with: a live entry that is truthy. */
  function Served(entries: map<string, Entry<Payload>>, key: string, now: int): (r: Option<Payload>)
    ensures r.Some? <==> key in entries && now <= entries[key].expiry && entries[key].value.IsTruthy()
    ensures r.Some? ==> r.value == entries[key].value
  {
    var hit := Lookup(entries, key, now);
    if hit.Some? && hit.value.IsTruthy() then hit else None
  }

  /** The article objects of the cached "all_news" list. */
  function CachedNews(entries: map<string, Entry<Payload>>): set<Article> {
    if AllNewsKey in entries && entries[AllNewsKey].value.NewsList?
    then set a | a in entries[AllNewsKey].value.items
    else {}
  }

  function Records(xs: seq<Article>): (rs: seq<ArticleRecord>)
    ensures |rs| == |xs|
    ensures forall i :: 0 <= i < |xs| ==> rs[i] == xs[i].record
  {
    if xs == [] then [] else Records(xs[..|xs| - 1]) + [xs[|xs| - 1].record]
  }

  // ---------------------------------------------------------------------------
  // get_all_news
  // ---------------------------------------------------------------------------

  /** What `fetch_all_youtube_videos()` returns for these responses. */
  function SnapshotVideos(up: Upstream, rt: Runtime): seq<Video> {
    FetchYoutube.AllVideos(up.youtubeKey, up.youtube, rt)
  }

  /** What `fetch_all_rss_feeds()` returns for these responses. */
  function RssRecords(up: Upstream, rt: Runtime): seq<ArticleRecord>
    requires up.Complete()
  {
    Flatten(FetchRss.FeedResults(up.feeds, FetchRss.Names(FetchRss.RssFeeds), rt))
  }

  /** What `fetch_all_news_apis()` returns for these responses. */
  function ApiRecords(up: Upstream, rt: Runtime): seq<ArticleRecord> {
    FetchNewsApi.NewsApiResult(up.newsApiKey, up.newsApi, rt) + FetchNewsApi.BingResult(up.bingKey, up.bing, rt)
  }

  /** How Python orders two datetimes of the same kind: aware ones by instant, naive ones by wall-clock reading. */
  function DateKey(d: DateTime): int {
    match d
    case Aware(t) => t
    case Naive(w) => w
  }

  /** The sort key `parse_date(x.get("published_at", ""))`. */
  function PublishedKey(rt: Runtime): ArticleRecord -> int {
    (r: ArticleRecord) => DateKey(ParsedDate(r.publishedAt, rt))
  }

  function TitleOf(r: ArticleRecord): string {
    r.title
  }

  predicate IntLt(a: int, b: int) {
    a < b
  }

  /** All parsed dates are aware, or all are naive. Otherwise the date sort compares an
      aware with a naive datetime, which raises `TypeError`. */
  predicate OneDateKind(xs: seq<ArticleRecord>, rt: Runtime) {
    forall i :: 0 <= i < |xs| ==>
      ParsedDate(xs[i].publishedAt, rt).Aware? == ParsedDate(xs[0].publishedAt, rt).Aware?
  }

  /** The date sort, or the title sort when the date sort raises; both newest or greatest first. */
  function NewsOrder(xs: seq<ArticleRecord>, rt: Runtime): seq<ArticleRecord> {
    if OneDateKind(xs, rt) then SortDesc(xs, PublishedKey(rt), IntLt) else SortDesc(xs, TitleOf, StrLt)
  }

  /** The records of the list `get_all_news` computes: RSS first, then the APIs, deduplicated, then sorted. */
  function AllNewsRecords(up: Upstream, rt: Runtime): seq<ArticleRecord>
    requires up.Complete()
  {
    NewsOrder(Deduplicate(RssRecords(up, rt) + ApiRecords(up, rt), rt.isWordChar), rt)
  }

  /** Every article carries the flags `categorize_article(article, all_articles)` gives it. */
  ghost predicate Labelled(xs: seq<Article>, rt: Runtime)
    reads xs
  {
    forall i :: 0 <= i < |xs| ==>
      && xs[i].isTrending == Categorize(xs[i].record, Records(xs), rt).trending
      && xs[i].isImportant == Categorize(xs[i].record, Records(xs), rt).important
  }

  /** The labels `categorize_article` gives each record of the list, for one flag. */
  ghost function Categorized(rs: seq<ArticleRecord>, f: Flag, rt: Runtime): (flags: seq<bool>)
    ensures |flags| == |rs|
    ensures forall i :: 0 <= i < |rs| ==>
              flags[i] == match f
                          case TrendingFlag => Categorize(rs[i], rs, rt).trending
                          case ImportantFlag => Categorize(rs[i], rs, rt).important
  {
    seq(|rs|, i requires 0 <= i < |rs| =>
      match f
      case TrendingFlag => Categorize(rs[i], rs, rt).trending
      case ImportantFlag => Categorize(rs[i], rs, rt).important)
  }

  /** `all` is what `get_all_news()` answers when the cache holds `entries`: the cached
      list when it is served, otherwise the records the upstream snapshot yields. */
  predicate AllNewsAnswer(entries: map<string, Entry<Payload>>, all: seq<Article>, up: Upstream, rt: Runtime)
    requires up.Complete()
  {
    if Served(entries, AllNewsKey, rt.clock.local).Some? then
      NewsList(all) == Served(entries, AllNewsKey, rt.clock.local).value
    else
      forall u :: u == up ==> Records(all) == AllNewsRecords(u, rt)
  }

  /** The cache after `get_all_news()` answered `all` from `entries`: unchanged on a hit,
      otherwise the expired entry evicted and `all` stored under "all_news". */
  function AfterAllNews(entries: map<string, Entry<Payload>>, all: seq<Article>, now: int, ttl: int): (r: map<string, Entry<Payload>>)
    ensures AllNewsKey in r
    ensures forall k :: k in r && k != AllNewsKey ==> k in entries && r[k] == entries[k]
  {
    if Served(entries, AllNewsKey, now).Some? then entries
    else AfterGet(entries, AllNewsKey, now)[AllNewsKey := Entry(NewsList(all), now + ttl)]
  }

  /** `get_all_news()`: a truthy cached list is returned as is (an empty one counts as a miss);
      otherwise the list is rebuilt, labelled and stored under "all_news". */
  method GetAllNews(cache: Cache<Payload>, up: Upstream, rt: Runtime) returns (articles: seq<Article>)
    requires up.Complete() && Consistent(cache.entries)
    modifies cache
    ensures Consistent(cache.entries)
    ensures AllNewsKey in cache.entries && cache.entries[AllNewsKey].value == NewsList(articles)
    ensures forall a :: a in articles ==> fresh(a) || a in CachedNews(old(cache.entries))
    ensures AllNewsAnswer(old(cache.entries), articles, up, rt)
    ensures cache.entries == AfterAllNews(old(cache.entries), articles, rt.clock.local, cache.ttl)
    ensures Served(old(cache.entries), AllNewsKey, rt.clock.local).None? ==>
              && (forall a :: a in articles ==> fresh(a))
              && Labelled(articles, rt)
  {
    var cached := cache.Get(AllNewsKey, rt.clock.local);
    if cached.Some? && cached.value.IsTruthy() {
      articles := cached.value.items;
      assert Served(old(cache.entries), AllNewsKey, rt.clock.local) == cached;
    } else {
      assert Served(old(cache.entries), AllNewsKey, rt.clock.local) == None;
      ConsistentAfterGet(old(cache.entries), AllNewsKey, rt.clock.local);
      articles := RefreshNews(cache, up, rt, old(cache.entries));
    }
  }

  /** The miss path of `get_all_news()` once `get` has evicted any expired entry from `before`:
      build the labelled list and store it under "all_news". */
  method RefreshNews(cache: Cache<Payload>, up: Upstream, rt: Runtime, ghost before: map<string, Entry<Payload>>)
    returns (articles: seq<Article>)
    requires up.Complete() && Consistent(cache.entries)
    requires Served(before, AllNewsKey, rt.clock.local).None?
    requires cache.entries == AfterGet(before, AllNewsKey, rt.clock.local)
    modifies cache
    ensures Consistent(cache.entries)
    ensures AllNewsKey in cache.entries && cache.entries[AllNewsKey].value == NewsList(articles)
    ensures AllNewsAnswer(before, articles, up, rt)
    ensures cache.entries == AfterAllNews(before, articles, rt.clock.local, cache.ttl)
    ensures forall a :: a in articles ==> fresh(a)
    ensures Labelled(articles, rt)
  {
    articles := BuildNews(up, rt);
    StoreNews(cache, articles, rt.clock.local, before);
  }

  /** `cache.set("all_news", all_articles)`, after `get` found no live list in `before` and evicted it. */
  method StoreNews(cache: Cache<Payload>, articles: seq<Article>, now: int, ghost before: map<string, Entry<Payload>>)
    requires Consistent(cache.entries) && Distinct(articles)
    requires Served(before, AllNewsKey, now).None? && cache.entries == AfterGet(before, AllNewsKey, now)
    modifies cache
    ensures Consistent(cache.entries)
    ensures cache.entries == old(cache.entries)[AllNewsKey := Entry(NewsList(articles), now + cache.ttl)]
    ensures cache.entries == AfterAllNews(before, articles, now, cache.ttl)
  {
    ConsistentStoreNews(cache.entries, articles, now + cache.ttl);
    cache.Set(AllNewsKey, NewsList(articles), now);
  }

  /** The miss path of `get_all_news()` up to the cache write: new article objects for the merged
      records, each labelled against the whole list. */
  method BuildNews(up: Upstream, rt: Runtime) returns (articles: seq<Article>)
    requires up.Complete()
    ensures forall u :: u == up ==> Records(articles) == AllNewsRecords(u, rt)
    ensures Distinct(articles)
    ensures forall a :: a in articles ==> fresh(a)
    ensures Labelled(articles, rt)
  {
    var records := MergeNews(up, rt);
    articles := Allocate(records);
    Label(articles, rt);
  }

  /** Fetches both kinds of source, deduplicates, and sorts by date, or by title when the date sort raises. */
  method MergeNews(up: Upstream, rt: Runtime) returns (records: seq<ArticleRecord>)
    requires up.Complete()
    ensures records == AllNewsRecords(up, rt)
  {
    var rss := FetchRss.FetchAllRssFeeds(up.feeds, rt);
    var api := FetchNewsApi.FetchAllNewsApis(up.newsApiKey, up.bingKey, up.newsApi, up.bing, rt);
    records := DeduplicateArticles(rss + api, rt.isWordChar);
    // The date sort raises exactly when it would compare an aware and a naive datetime;
    // the handler then sorts by title instead.
    if OneDateKind(records, rt) {
      records := SortDesc(records, PublishedKey(rt), IntLt);
    } else {
      records := SortDesc(records, TitleOf, StrLt);
    }
  }

  /** The loop that stores `categorize_article(article, all_articles)` in each article. */
  method Label(articles: seq<Article>, rt: Runtime)
    requires Distinct(articles)
    modifies set a | a in articles
    ensures Labelled(articles, rt)
  {
    var records := Records(articles);
    for i := 0 to |articles|
      invariant forall j :: 0 <= j < i ==>
        && articles[j].isTrending == Categorize(articles[j].record, records, rt).trending
        && articles[j].isImportant == Categorize(articles[j].record, records, rt).important
    {
      var categories := Categorize(articles[i].record, records, rt);
      articles[i].isTrending := categories.trending;
      articles[i].isImportant := categories.important;
    }
  }

  /** The adapters' dictionaries: one new, unlabelled article object per record. */
  method Allocate(records: seq<ArticleRecord>) returns (articles: seq<Article>)
    ensures Records(articles) == records
    ensures Distinct(articles)
    ensures forall a :: a in articles ==> fresh(a)
  {
    articles := [];
    for i := 0 to |records|
      invariant Records(articles) == records[..i]
      invariant Distinct(articles)
      invariant forall a :: a in articles ==> fresh(a)
    {
      var a := new Article(records[i]);
      assert records[..i + 1] == records[..i] + [records[i]];
      articles := articles + [a];
    }
    assert records[..|records|] == records;
  }

  /** `get_news_all()`: the list and its length. */
  method GetNewsAll(cache: Cache<Payload>, up: Upstream, rt: Runtime) returns (result: Payload)
    requires up.Complete() && Consistent(cache.entries)
    modifies cache
    ensures Consistent(cache.entries)
    ensures result.ArticlesView? && result.count == |result.articles|
    ensures AllNewsAnswer(old(cache.entries), result.articles, up, rt)
    ensures cache.entries == AfterAllNews(old(cache.entries), result.articles, rt.clock.local, cache.ttl)
    ensures Served(old(cache.entries), AllNewsKey, rt.clock.local).None? ==> Labelled(result.articles, rt)
  {
    var articles := GetAllNews(cache, up, rt);
    result := ArticlesView(articles, |articles|);
  }

  // ---------------------------------------------------------------------------
  // The trending and important views
  // ---------------------------------------------------------------------------

  datatype Flag = TrendingFlag | ImportantFlag

  predicate Flagged(a: Article, f: Flag)
    reads a
  {
    match f
    case TrendingFlag => a.isTrending
    case ImportantFlag => a.isImportant
  }

  /** `[a for a in xs if a.get(flag, False)]`: the flagged articles, in order. */
  function Picked(xs: seq<Article>, f: Flag): (ys: seq<Article>)
    reads xs
    ensures |ys| <= |xs|
    ensures forall i :: 0 <= i < |ys| ==> ys[i] in xs && Flagged(ys[i], f)
    ensures forall i :: 0 <= i < |xs| && Flagged(xs[i], f) ==> xs[i] in ys
  {
    if xs == [] then []
    else Picked(xs[..|xs| - 1], f) + (if Flagged(xs[|xs| - 1], f) then [xs[|xs| - 1]] else [])
  }

  /** The list comprehension that selects the flagged articles. */
  method SelectFlagged(all: seq<Article>, f: Flag) returns (picked: seq<Article>)
    ensures picked == Picked(all, f)
  {
    picked := [];
    for i := 0 to |all|
      invariant picked == Picked(all[..i], f)
    {
      assert all[..i + 1][..i] == all[..i];
      if Flagged(all[i], f) {
        picked := picked + [all[i]];
      }
    }
    assert all[..|all|] == all;
  }

  /** When exactly the first `n` articles are flagged, the selection is those `n`. */
  lemma {:induction false} PickedPrefix(xs: seq<Article>, n: nat, f: Flag)
    requires n <= |xs|
    requires forall j :: 0 <= j < n ==> Flagged(xs[j], f)
    requires forall j :: n <= j < |xs| ==> !Flagged(xs[j], f)
    ensures Picked(xs, f) == xs[..n]
  {
    if xs != [] {
      var m := |xs| - 1;
      var front := xs[..m];
      if n == |xs| {
        assert Picked(xs, f) == xs[..n] by {
          PickedPrefix(front, m, f);
          assert front + [xs[m]] == xs[..n];
        }
      } else {
        assert Picked(xs, f) == xs[..n] by {
          PickedPrefix(front, n, f);
          assert front[..n] == xs[..n];
        }
      }
    }
  }

  /** The articles' values of one flag, in order. */
  function Flags(xs: seq<Article>, f: Flag): (flags: seq<bool>)
    reads xs
    ensures |flags| == |xs|
    ensures forall i :: 0 <= i < |xs| ==> flags[i] == Flagged(xs[i], f)
  {
    if xs == [] then [] else Flags(xs[..|xs| - 1], f) + [Flagged(xs[|xs| - 1], f)]
  }

  /** A labelled list carries, flag by flag, exactly the labels `categorize_article` gives its records. */
  lemma LabelledFlags(xs: seq<Article>, rt: Runtime)
    requires Labelled(xs, rt)
    ensures Flags(xs, TrendingFlag) == Categorized(Records(xs), TrendingFlag, rt)
    ensures Flags(xs, ImportantFlag) == Categorized(Records(xs), ImportantFlag, rt)
  {
  }

  /** The trending flags once the trending view ran over articles whose flags were `was`:
      unchanged when some article was trending, otherwise set on the first ten as well. */
  ghost predicate TrendingAfterView(xs: seq<Article>, was: seq<bool>)
    reads xs
  {
    && |was| == |xs|
    && forall i :: 0 <= i < |xs| ==> xs[i].isTrending == (was[i] || (true !in was && i < FallbackTrendingCount))
  }

  /** When no article was trending, the view is the first min(10, n) articles. */
  lemma TrendingViewFallback(xs: seq<Article>, was: seq<bool>)
    requires TrendingAfterView(xs, was) && true !in was
    ensures Picked(xs, TrendingFlag) == xs[..Min(FallbackTrendingCount, |xs|)]
  {
    PickedPrefix(xs, Min(FallbackTrendingCount, |xs|), TrendingFlag);
  }

  /** When some article was trending, the view is exactly the articles that were. */
  lemma TrendingViewKept(xs: seq<Article>, was: seq<bool>)
    requires TrendingAfterView(xs, was) && true in was
    ensures Flags(xs, TrendingFlag) == was
    ensures forall a :: a in Picked(xs, TrendingFlag) <==> exists i :: 0 <= i < |xs| && was[i] && xs[i] == a
  {
    assert forall i :: 0 <= i < |xs| ==> Flags(xs, TrendingFlag)[i] == was[i];
  }

  /** The trending view's selection: the trending articles; if there are none and the list is
      non-empty, the first ten, which are labelled trending in place (in every list holding them). */
  method SelectTrending(all: seq<Article>) returns (trending: seq<Article>)
    requires Distinct(all)
    modifies set a | a in all
    ensures trending == Picked(all, TrendingFlag)
    ensures all != [] ==> trending != []
    ensures old(Picked(all, TrendingFlag)) != [] ==>
              trending == old(Picked(all, TrendingFlag)) && forall a :: a in all ==> a.isTrending == old(a.isTrending)
    ensures old(Picked(all, TrendingFlag)) == [] ==> trending == all[..Min(FallbackTrendingCount, |all|)]
    ensures forall a :: a in all ==> a.isImportant == old(a.isImportant)
    ensures Flags(all, ImportantFlag) == old(Flags(all, ImportantFlag))
    ensures TrendingAfterView(all, old(Flags(all, TrendingFlag)))
  {
    ghost var was, important := Flags(all, TrendingFlag), Flags(all, ImportantFlag);
    trending := SelectFlagged(all, TrendingFlag);
    if |trending| == 0 && |all| > 0 {
      var n := Min(FallbackTrendingCount, |all|);
      assert true !in was;
      trending := all[..n];
      MarkTrending(all, n);
      PickedPrefix(all, n, TrendingFlag);
    } else if all != [] {
      assert true in was by {
        assert trending[0] in all;
      }
    }
    assert Flags(all, ImportantFlag) == important;
  }

  /** The fallback loop: `article["isTrending"] = True` for each of the first `n` articles. */
  method MarkTrending(all: seq<Article>, n: nat)
    requires Distinct(all) && n <= |all|
    requires forall j :: 0 <= j < |all| ==> !all[j].isTrending
    modifies set a | a in all
    ensures forall j :: 0 <= j < n ==> all[j].isTrending
    ensures forall j :: n <= j < |all| ==> !all[j].isTrending
    ensures forall a :: a in all ==> a.isImportant == old(a.isImportant)
  {
    for i := 0 to n
      invariant forall j :: 0 <= j < i ==> all[j].isTrending
      invariant forall j :: i <= j < |all| ==> !all[j].isTrending
      invariant forall a :: a in all ==> a.isImportant == old(a.isImportant)
    {
      all[i].isTrending := true;
    }
  }

  /** `view` is the trending view of `all`, and the flags are as the view leaves them when
      before it the trending flags were `trending` and the importance flags `important`. */
  ghost predicate TrendingFlagsAfter(all: seq<Article>, view: Payload, trending: seq<bool>, important: seq<bool>)
    reads all
  {
    && view == ArticlesView(Picked(all, TrendingFlag), |Picked(all, TrendingFlag)|)
    && (all != [] ==> view.articles != [])
    && TrendingAfterView(all, trending)
    && Flags(all, ImportantFlag) == important
  }

  /** As `TrendingFlagsAfter`, where the trending articles before the view were `picked`: the view
      is the old selection with no flag changed, or, when nothing was trending, the first
      min(10, n) articles, now flagged; importance is untouched. */
  ghost predicate TrendingView(all: seq<Article>, view: Payload, trending: seq<bool>, important: seq<bool>, picked: seq<Article>)
    reads all
  {
    && TrendingFlagsAfter(all, view, trending, important)
    && (picked != [] ==> view.articles == picked)
    && (picked == [] ==> view.articles == all[..Min(FallbackTrendingCount, |all|)])
  }

  /** The second half of `get_news_trending()`: selects from the current list (labelling the
      fallback articles) and stores the view under "trending_news". The cache holds what
      `get_all_news()` left behind from `before`. */
  method StoreTrending(cache: Cache<Payload>, all: seq<Article>, now: int, ghost before: map<string, Entry<Payload>>)
    returns (result: Payload)
    requires Consistent(cache.entries) && Distinct(all)
    requires cache.entries == AfterAllNews(before, all, now, cache.ttl)
    modifies cache, set a | a in all
    ensures Consistent(cache.entries)
    ensures ViewStored(before, cache.entries, all, TrendingKey, result, now, cache.ttl)
    ensures TrendingView(all, result, old(Flags(all, TrendingFlag)), old(Flags(all, ImportantFlag)), old(Picked(all, TrendingFlag)))
  {
    var trending := SelectTrending(all);
    result := ArticlesView(trending, |trending|);
    assert TrendingView(all, result, old(Flags(all, TrendingFlag)), old(Flags(all, ImportantFlag)), old(Picked(all, TrendingFlag)));
    StoreView(cache, all, TrendingKey, result, now, before);
  }

  /** `cache.set(key, view)` for a view of the list `get_all_news()` left behind from `before`. */
  method StoreView(cache: Cache<Payload>, all: seq<Article>, key: string, view: Payload, now: int,
                   ghost before: map<string, Entry<Payload>>)
    requires Consistent(cache.entries) && key != AllNewsKey && !view.ContentError?
    requires cache.entries == AfterAllNews(before, all, now, cache.ttl)
    modifies cache
    ensures Consistent(cache.entries)
    ensures ViewStored(before, cache.entries, all, key, view, now, cache.ttl)
  {
    ConsistentStoreView(cache.entries, key, view, now + cache.ttl);
    cache.Set(key, view, now);
  }

  /** `after`, `all` and `result` are what the miss path of `get_news_trending()` leaves when
      the cache held `before` and the articles' flags were `trending` and `important`: the
      list `get_all_news()` answers, the stored view, and the flags. On a rebuild of
      "all_news" they are `categorize_article`'s with the fallback applied; on a cached
      list, the cached flags with the fallback applied. */
  ghost predicate TrendingStored(before: map<string, Entry<Payload>>, after: map<string, Entry<Payload>>, all: seq<Article>,
                                 result: Payload, trending: seq<bool>, important: seq<bool>, up: Upstream, rt: Runtime, ttl: int)
    requires up.Complete()
    reads all
  {
    && AllNewsAnswer(before, all, up, rt)
    && ViewStored(before, after, all, TrendingKey, result, rt.clock.local, ttl)
    && if Served(before, AllNewsKey, rt.clock.local).None? then
         TrendingFlagsAfter(all, result, Categorized(Records(all), TrendingFlag, rt), Categorized(Records(all), ImportantFlag, rt))
       else
         TrendingFlagsAfter(all, result, trending, important)
  }

  /** The article objects a miss of the trending view may write: those of the "all_news" list
      when `entries` serves it; a rebuilt list is made of new objects. */
  function NewsFrame(entries: map<string, Entry<Payload>>, now: int): set<Article> {
    if Served(entries, AllNewsKey, now).Some? then CachedNews(entries) else {}
  }

  /** Looking up another key changes neither whether "all_news" is served nor its objects. */
  lemma NewsFrameAfterGet(entries: map<string, Entry<Payload>>, key: string, now: int)
    requires key != AllNewsKey
    ensures Served(AfterGet(entries, key, now), AllNewsKey, now) == Served(entries, AllNewsKey, now)
    ensures NewsFrame(AfterGet(entries, key, now), now) == NewsFrame(entries, now)
  {
    assert AllNewsKey in AfterGet(entries, key, now) <==> AllNewsKey in entries;
  }

  /** The flags of the cached "all_news" list, for one flag, when `entries` serves one. */
  function CachedFlags(entries: map<string, Entry<Payload>>, f: Flag, now: int): seq<bool>
    requires Consistent(entries)
    reads CachedNews(entries)
  {
    if Served(entries, AllNewsKey, now).Some? then Flags(entries[AllNewsKey].value.items, f) else []
  }

  /** The miss path of `get_news_trending()`: the current list's trending view, stored under
      "trending_news". `trending` and `important` are the cached list's flags, if one is served. */
  method RefreshTrending(cache: Cache<Payload>, up: Upstream, rt: Runtime, ghost trending: seq<bool>, ghost important: seq<bool>)
    returns (all: seq<Article>, result: Payload)
    requires up.Complete() && Consistent(cache.entries)
    requires trending == CachedFlags(cache.entries, TrendingFlag, rt.clock.local)
    requires important == CachedFlags(cache.entries, ImportantFlag, rt.clock.local)
    modifies cache, NewsFrame(cache.entries, rt.clock.local)
    ensures Consistent(cache.entries)
    ensures AllNewsKey in cache.entries && cache.entries[AllNewsKey].value == NewsList(all)
    ensures TrendingStored(old(cache.entries), cache.entries, all, result, trending, important, up, rt, cache.ttl)
  {
    all := GetAllNews(cache, up, rt);
    ghost var trending', important';
    if Served(old(cache.entries), AllNewsKey, rt.clock.local).None? {
      LabelledFlags(all, rt);
      trending', important' := Categorized(Records(all), TrendingFlag, rt), Categorized(Records(all), ImportantFlag, rt);
    } else {
      trending', important' := trending, important;
    }
    assert trending' == Flags(all, TrendingFlag) && important' == Flags(all, ImportantFlag);
    result := StoreTrending(cache, all, rt.clock.local, old(cache.entries));
    assert TrendingFlagsAfter(all, result, trending', important');
  }

  /** `get_news_trending()`: a cached view is returned as is; otherwise the view of the
      current list is computed, stored under "trending_news" and returned. */
  method GetNewsTrending(cache: Cache<Payload>, up: Upstream, rt: Runtime) returns (result: Payload)
    requires up.Complete() && Consistent(cache.entries)
    modifies cache, if Served(cache.entries, TrendingKey, rt.clock.local).None? then NewsFrame(cache.entries, rt.clock.local) else {}
    ensures Consistent(cache.entries)
    ensures var now := rt.clock.local;
            var hit := Lookup(old(cache.entries), TrendingKey, now);
            if hit.Some? && hit.value.IsTruthy() then
              result == hit.value && cache.entries == old(cache.entries)
            else
              var evicted := AfterGet(old(cache.entries), TrendingKey, now);
              && AllNewsKey in cache.entries && cache.entries[AllNewsKey].value.NewsList?
              && TrendingStored(evicted, cache.entries, cache.entries[AllNewsKey].value.items, result,
                                old(CachedFlags(evicted, TrendingFlag, now)), old(CachedFlags(evicted, ImportantFlag, now)),
                                up, rt, cache.ttl)
  {
    var cached := cache.Get(TrendingKey, rt.clock.local);
    if cached.Some? && cached.value.IsTruthy() {
      return cached.value;
    }
    ghost var evicted := cache.entries;
    ConsistentAfterGet(old(cache.entries), TrendingKey, rt.clock.local);
    NewsFrameAfterGet(old(cache.entries), TrendingKey, rt.clock.local);
    assert Served(old(cache.entries), TrendingKey, rt.clock.local).None?;
    ghost var trending := CachedFlags(evicted, TrendingFlag, rt.clock.local);
    ghost var important := CachedFlags(evicted, ImportantFlag, rt.clock.local);
    assert trending == old(CachedFlags(evicted, TrendingFlag, rt.clock.local));
    assert important == old(CachedFlags(evicted, ImportantFlag, rt.clock.local));
    var all;
    all, result := RefreshTrending(cache, up, rt, trending, important);
  }

  /** `after` is the cache once `get_all_news()` answered `all` from `before` and the view
      `view` was stored under `key`. */
  predicate ViewStored(before: map<string, Entry<Payload>>, after: map<string, Entry<Payload>>, all: seq<Article>, key: string, view: Payload, now: int, ttl: int)
  {
    after == AfterAllNews(before, all, now, ttl)[key := Entry(view, now + ttl)]
  }

  /** The second half of `get_news_important()`: selects from the current list and stores
      the view under "important_news". */
  method StoreImportant(cache: Cache<Payload>, all: seq<Article>, now: int, ghost before: map<string, Entry<Payload>>) returns (result: Payload)
    requires Consistent(cache.entries)
    requires cache.entries == AfterAllNews(before, all, now, cache.ttl)
    modifies cache
    ensures Consistent(cache.entries)
    ensures ViewStored(before, cache.entries, all, ImportantKey, result, now, cache.ttl)
    ensures result == ArticlesView(Picked(all, ImportantFlag), |Picked(all, ImportantFlag)|)
  {
    var important := SelectFlagged(all, ImportantFlag);
    result := ArticlesView(important, |important|);
    ConsistentStoreView(cache.entries, ImportantKey, result, now + cache.ttl);
    cache.Set(ImportantKey, result, now);
  }

  /** The miss path of `get_news_important()`: the current list's important view, stored under "important_news". */
  method RefreshImportant(cache: Cache<Payload>, up: Upstream, rt: Runtime) returns (all: seq<Article>, result: Payload)
    requires up.Complete() && Consistent(cache.entries)
    modifies cache
    ensures Consistent(cache.entries)
    ensures AllNewsAnswer(old(cache.entries), all, up, rt)
    ensures ViewStored(old(cache.entries), cache.entries, all, ImportantKey, result, rt.clock.local, cache.ttl)
    ensures Served(old(cache.entries), AllNewsKey, rt.clock.local).None? ==> Labelled(all, rt)
    ensures result == ArticlesView(Picked(all, ImportantFlag), |Picked(all, ImportantFlag)|)
  {
    all := GetAllNews(cache, up, rt);
    result := StoreImportant(cache, all, rt.clock.local, old(cache.entries));
  }

  /** `get_news_important()`: as the trending view, without the fallback and without writing any flag. */
  method GetNewsImportant(cache: Cache<Payload>, up: Upstream, rt: Runtime) returns (result: Payload)
    requires up.Complete() && Consistent(cache.entries)
    modifies cache
    ensures Consistent(cache.entries)
    ensures var now := rt.clock.local;
            var hit := Lookup(old(cache.entries), ImportantKey, now);
            if hit.Some? && hit.value.IsTruthy() then
              result == hit.value && cache.entries == old(cache.entries)
            else
              var evicted := AfterGet(old(cache.entries), ImportantKey, now);
              && AllNewsKey in cache.entries && cache.entries[AllNewsKey].value.NewsList?
              && var all := cache.entries[AllNewsKey].value.items;
                 && AllNewsAnswer(evicted, all, up, rt)
                 && cache.entries == AfterAllNews(evicted, all, now, cache.ttl)[ImportantKey := Entry(result, now + cache.ttl)]
                 && (Served(evicted, AllNewsKey, now).None? ==> Labelled(all, rt))
                 && result == ArticlesView(Picked(all, ImportantFlag), |Picked(all, ImportantFlag)|)
  {
    var cached := cache.Get(ImportantKey, rt.clock.local);
    if cached.Some? && cached.value.IsTruthy() {
      return cached.value;
    }
    var all;
    all, result := RefreshImportant(cache, up, rt);
  }

  // ---------------------------------------------------------------------------
  // Article content
  // ---------------------------------------------------------------------------

  lemma ContentKeyIsNotAllNews(url: string)
    ensures ContentKey(url) != AllNewsKey
  {
    assert ContentKey(url)[1] == 'r' && AllNewsKey[1] == 'l';
  }

  /** `get_article_content(url)`: a cached page is returned as is; a fetched page is stored and
      returned; a failed fetch yields an error and leaves nothing in the cache. */
  method GetArticleContent(cache: Cache<Payload>, url: string, fetched: Option<ArticleContent>, rt: Runtime)
    returns (result: Payload)
    requires Consistent(cache.entries)
    modifies cache
    ensures Consistent(cache.entries)
    ensures var now := rt.clock.local;
            var key := ContentKey(url);
            var hit := Lookup(old(cache.entries), key, now);
            if hit.Some? && hit.value.IsTruthy() then
              result == hit.value && cache.entries == old(cache.entries)
            else if fetched.Some? then
              result == Content(fetched.value) &&
              cache.entries == AfterGet(old(cache.entries), key, now)[key := Entry(result, now + cache.ttl)]
            else
              result == ContentError(CouldNotFetch) && cache.entries == AfterGet(old(cache.entries), key, now)
  {
    var now := rt.clock.local;
    var key := ContentKey(url);
    var cached := cache.Get(key, now);
    if cached.Some? && cached.value.IsTruthy() {
      return cached.value;
    }
    if fetched.Some? {
      ContentKeyIsNotAllNews(url);
      result := Content(fetched.value);
      cache.Set(key, result, now);
    } else {
      result := ContentError(CouldNotFetch);
    }
  }

  // ---------------------------------------------------------------------------
  // Properties of the merged list
  // ---------------------------------------------------------------------------

  lemma IntLtIsStrictWeakOrder()
    ensures StrictWeakOrder(IntLt)
  {
  }

  /** The list is a permutation of the deduplicated records, newest first when every date is of
      one kind, else in descending title order. */
  lemma AllNewsOrder(up: Upstream, rt: Runtime)
    requires up.Complete()
    ensures var merged := Deduplicate(RssRecords(up, rt) + ApiRecords(up, rt), rt.isWordChar);
            && multiset(AllNewsRecords(up, rt)) == multiset(merged)
            && (OneDateKind(merged, rt) ==> SortedDesc(AllNewsRecords(up, rt), PublishedKey(rt), IntLt))
            && (!OneDateKind(merged, rt) ==> SortedDesc(AllNewsRecords(up, rt), TitleOf, StrLt))
  {
    var merged := Deduplicate(RssRecords(up, rt) + ApiRecords(up, rt), rt.isWordChar);
    if OneDateKind(merged, rt) {
      IntLtIsStrictWeakOrder();
      SortDescCorrect(merged, PublishedKey(rt), IntLt);
    } else {
      StrLtIsStrictWeakOrder();
      SortDescCorrect(merged, TitleOf, StrLt);
    }
  }

  /** Every article in the list comes from an adapter, and the first RSS record always survives:
      RSS records come first, so they win over API records with a related title. */
  lemma AllNewsSources(up: Upstream, rt: Runtime)
    requires up.Complete()
    ensures forall r :: r in AllNewsRecords(up, rt) ==> r in RssRecords(up, rt) || r in ApiRecords(up, rt)
    ensures RssRecords(up, rt) != [] ==> RssRecords(up, rt)[0] in AllNewsRecords(up, rt)
  {
    var joined := RssRecords(up, rt) + ApiRecords(up, rt);
    var merged := Deduplicate(joined, rt.isWordChar);
    assert multiset(AllNewsRecords(up, rt)) == multiset(merged);
    DedupSubsequence(joined, rt.isWordChar);
    forall r | r in AllNewsRecords(up, rt)
      ensures r in RssRecords(up, rt) || r in ApiRecords(up, rt)
    {
      assert r in multiset(merged);
      SubsequenceMembers(merged, joined, r);
    }
    if RssRecords(up, rt) != [] {
      DedupKeepsFirst(joined, rt.isWordChar);
      assert merged[0] in multiset(AllNewsRecords(up, rt));
    }
  }
}
