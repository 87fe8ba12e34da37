/** backend/utils/fetch_newsapi.py: the two optional keyed news APIs (NewsAPI
    and Bing News), their conversion into article records, and the join. */
module FetchNewsApi {
  import opened Types
  import opened Strings
  import opened CleanData
  import opened Gather
  import opened Placeholders

  /** `clean_text(x)` where `x` may be `None` (which it maps to ""). */
  function CleanOpt(x: Option<string>): string {
    if x.Some? then CleanText(x.value) else ""
  }

  /** The `source` key of a NewsAPI article: missing, `null`, or an object with a `name` key. */
  datatype SourceField = NoSource | NullSource | SourceObj(name: JsonField)

  /** One element of NewsAPI's `articles` array. */
  datatype NewsApiItem = NewsApiItem(
    title: JsonField,
    description: JsonField,
    url: JsonField,
    publishedAt: JsonField,
    source: SourceField,
    author: JsonField,
    urlToImage: JsonField)

  /** Bing's `image` key: missing or falsy, an object, or a truthy value that is not an object. */
  datatype BingImage = NoImage | ImageObj(thumbnail: BingThumbnail) | ImageNotObject

  /** The image object's `thumbnail` key: missing (read as `{}`), an object whose `content` key
      is read with `.get` (`None` when missing or `null`), or `null` or another non-object. */
  datatype BingThumbnail = NoThumbnail | ThumbnailObj(content: Option<string>) | ThumbnailNotObject

  /** Bing's `provider` key: missing or falsy, a non-empty list whose first element is an object
      with a `name` key or is not an object, or a truthy value that is not a list. */
  datatype BingProvider = NoProvider | FirstProvider(name: JsonField) | FirstProviderNotObject | ProviderNotList

  /** One element of Bing's `value` array. */
  datatype BingItem = BingItem(
    name: JsonField,
    description: JsonField,
    url: JsonField,
    datePublished: JsonField,
    provider: BingProvider,
    image: BingImage)

  /** The provider's image when truthy, else the pool entry at `abs(hash(raw title)) % 15`.
      (A `null` title is hashed as ""; such an item is dropped for its empty title anyway.) */
  function ApiImage(provided: Option<string>, rawTitle: Option<string>, rt: Runtime): (image: string)
    ensures image != ""
  {
    PoolsNonEmpty();
    if Truthy(provided) then provided.value else ApiPool[Abs(rt.pyHash(rawTitle.GetOr(""))) % |ApiPool|]
  }

  /** `item.get("source", {}).get("name", "NewsAPI")`. A `null` source raises instead, which
      `NewsApiResult` handles before any record is used; `None` stands in for it here. */
  function NewsApiSource(src: SourceField): Option<string> {
    match src
    case NoSource => Some("NewsAPI")
    case NullSource => None
    case SourceObj(name) => Get(name, "NewsAPI")
  }

  /** The dictionary built from one NewsAPI item. */
  function NewsApiRecord(item: NewsApiItem, rt: Runtime): ArticleRecord {
    var rawTitle := Get(item.title, "");
    ArticleRecord(
      CleanOpt(rawTitle),
      CleanOpt(Get(item.description, "")),
      Get(item.url, ""),
      PublishedIso(Get(item.publishedAt, "").GetOr(""), rt),
      NewsApiSource(item.source),
      Get(item.author, ""),
      ApiImage(Get(item.urlToImage, ""), rawTitle, rt))
  }

  function NewsApiArticles(items: seq<NewsApiItem>, rt: Runtime): seq<ArticleRecord> {
    if items == [] then []
    else
      var r := NewsApiRecord(items[|items| - 1], rt);
      NewsApiArticles(items[..|items| - 1], rt) + (if r.title != "" then [r] else [])
  }

  /** Some item's `source` key is `null`. */
  predicate HasNullSource(items: seq<NewsApiItem>) {
    exists k :: 0 <= k < |items| && items[k].source.NullSource?
  }

  /** What `fetch_newsapi()` returns: nothing without a key or on a failed request; nothing either when
      some item has a `null` source (`.get` on `None` raises inside the `try`); else the records with a title. */
  function NewsApiResult(apiKey: string, fetched: Fetch<seq<NewsApiItem>>, rt: Runtime): seq<ArticleRecord> {
    if apiKey == "" then []
    else
      match fetched
      case Failed => []
      case Fetched(items) =>
        if HasNullSource(items) then []
        else NewsApiArticles(items, rt)
  }

  /** `item.get("image", {}).get("thumbnail", {}).get("content")` when the image is truthy, else `None`.
      When `image` or its `thumbnail` is not an object, `.get` raises instead, which `BingResult`
      handles before any record is used; `None` stands in for it here. */
  function Thumbnail(image: BingImage): Option<string> {
    match image
    case ImageObj(ThumbnailObj(content)) => content
    case _ => None
  }

  /** Indexing or `.get` on a value that does not support it. */
  predicate ImageRaises(image: BingImage) {
    image.ImageNotObject? || (image.ImageObj? && image.thumbnail.ThumbnailNotObject?)
  }

  /** `item.get("provider", [{}])[0].get("name", "Bing News") if item.get("provider") else "Bing News"`.
      When the first provider is not an object, or `provider` is not a list, this raises instead;
      `None` stands in for it here as for the thumbnail. */
  function BingSource(provider: BingProvider): Option<string> {
    match provider
    case NoProvider => Some("Bing News")
    case FirstProvider(name) => Get(name, "Bing News")
    case _ => None
  }

  predicate ProviderRaises(provider: BingProvider) {
    provider.FirstProviderNotObject? || provider.ProviderNotList?
  }

  /** Converting some item raises. */
  predicate HasRaisingItem(items: seq<BingItem>) {
    exists k :: 0 <= k < |items| && (ImageRaises(items[k].image) || ProviderRaises(items[k].provider))
  }

  function BingRecord(item: BingItem, rt: Runtime): ArticleRecord {
    var rawTitle := Get(item.name, "");
    ArticleRecord(
      CleanOpt(rawTitle),
      CleanOpt(Get(item.description, "")),
      Get(item.url, ""),
      PublishedIso(Get(item.datePublished, "").GetOr(""), rt),
      BingSource(item.provider),
      Some(""),
      ApiImage(Thumbnail(item.image), rawTitle, rt))
  }

  function BingArticles(items: seq<BingItem>, rt: Runtime): seq<ArticleRecord> {
    if items == [] then []
    else
      var r := BingRecord(items[|items| - 1], rt);
      BingArticles(items[..|items| - 1], rt) + (if r.title != "" then [r] else [])
  }

  /** What `fetch_bing_news()` returns: nothing without a key or on a failed request; nothing either
      when converting some item raises inside the `try`; else the records with a title. */
  function BingResult(apiKey: string, fetched: Fetch<seq<BingItem>>, rt: Runtime): seq<ArticleRecord> {
    if apiKey == "" then []
    else
      match fetched
      case Failed => []
      case Fetched(items) =>
        if HasRaisingItem(items) then []
        else BingArticles(items, rt)
  }

  /** The body of `fetch_newsapi()`'s item loop for an item whose source is not `null`. */
  method ConvertNewsApiItem(item: NewsApiItem, rt: Runtime) returns (article: ArticleRecord)
    ensures article == NewsApiRecord(item, rt)
  {
    var rawTitle := Get(item.title, "");
    var image := ApiImage(Get(item.urlToImage, ""), rawTitle, rt);
    var publishedAt := PublishedAt(Get(item.publishedAt, ""), rt);
    article := ArticleRecord(CleanOpt(rawTitle), CleanOpt(Get(item.description, "")), Get(item.url, ""),
                             publishedAt, NewsApiSource(item.source), Get(item.author, ""), image);
  }

  /** One more item in the loop: it extends the records by its own, and keeps the prefix free of `null` sources. */
  lemma NewsApiStep(items: seq<NewsApiItem>, i: nat, rt: Runtime)
    requires i < |items| && !HasNullSource(items[..i]) && !items[i].source.NullSource?
    ensures !HasNullSource(items[..i + 1])
    ensures NewsApiArticles(items[..i + 1], rt) ==
            NewsApiArticles(items[..i], rt) + (if NewsApiRecord(items[i], rt).title != "" then [NewsApiRecord(items[i], rt)] else [])
  {
    assert items[..i + 1][..i] == items[..i];
  }

  /** `fetch_newsapi()`: the item loop; an item with a `null` source aborts the whole call. */
  method FetchNewsApi(apiKey: string, fetched: Fetch<seq<NewsApiItem>>, rt: Runtime) returns (articles: seq<ArticleRecord>)
    ensures articles == NewsApiResult(apiKey, fetched, rt)
  {
    if apiKey == "" || fetched.Failed? {
      return [];
    }
    var items := fetched.data;
    articles := [];
    for i := 0 to |items|
      invariant !HasNullSource(items[..i])
      invariant articles == NewsApiArticles(items[..i], rt)
    {
      if items[i].source.NullSource? {
        assert HasNullSource(items) by {
          assert items[i].source.NullSource?;
        }
        return [];
      }
      var article := ConvertNewsApiItem(items[i], rt);
      NewsApiStep(items, i, rt);
      if article.title != "" {
        articles := articles + [article];
      }
    }
    assert items[..|items|] == items;
  }

  /** One more item in the loop: it extends the records by its own, and keeps the prefix free of raising items. */
  lemma BingStep(items: seq<BingItem>, i: nat, rt: Runtime)
    requires i < |items| && !HasRaisingItem(items[..i])
    requires !ImageRaises(items[i].image) && !ProviderRaises(items[i].provider)
    ensures !HasRaisingItem(items[..i + 1])
    ensures BingArticles(items[..i + 1], rt) ==
            BingArticles(items[..i], rt) + (if BingRecord(items[i], rt).title != "" then [BingRecord(items[i], rt)] else [])
  {
    assert items[..i + 1][..i] == items[..i];
  }

  /** `fetch_bing_news()`: the item loop; an item whose image or provider cannot be read aborts the whole call. */
  method FetchBingNews(apiKey: string, fetched: Fetch<seq<BingItem>>, rt: Runtime) returns (articles: seq<ArticleRecord>)
    ensures articles == BingResult(apiKey, fetched, rt)
  {
    if apiKey == "" || fetched.Failed? {
      return [];
    }
    var items := fetched.data;
    articles := [];
    for i := 0 to |items|
      invariant !HasRaisingItem(items[..i])
      invariant articles == BingArticles(items[..i], rt)
    {
      var item := items[i];
      var rawTitle := Get(item.name, "");
      var imageUrl: Option<string> := None;
      if !item.image.NoImage? {
        if ImageRaises(item.image) {
          assert HasRaisingItem(items) by {
            assert ImageRaises(items[i].image);
          }
          return [];
        }
        imageUrl := Thumbnail(item.image);
      }
      var image := ApiImage(imageUrl, rawTitle, rt);
      if ProviderRaises(item.provider) {
        assert HasRaisingItem(items) by {
          assert ProviderRaises(items[i].provider);
        }
        return [];
      }
      var publishedAt := PublishedAt(Get(item.datePublished, ""), rt);
      var article := ArticleRecord(CleanOpt(rawTitle), CleanOpt(Get(item.description, "")), Get(item.url, ""),
                                   publishedAt, BingSource(item.provider), Some(""), image);
      BingStep(items, i, rt);
      if article.title != "" {
        articles := articles + [article];
      }
    }
    assert items[..|items|] == items;
  }

  /** `fetch_all_news_apis()`: NewsAPI's records, then Bing's. */
  method FetchAllNewsApis(newsApiKey: string, bingKey: string,
                          newsApi: Fetch<seq<NewsApiItem>>, bing: Fetch<seq<BingItem>>, rt: Runtime)
    returns (all: seq<ArticleRecord>)
    ensures all == NewsApiResult(newsApiKey, newsApi, rt) + BingResult(bingKey, bing, rt)
  {
    var first := FetchNewsApi(newsApiKey, newsApi, rt);
    var second := FetchBingNews(bingKey, bing, rt);
    var results := [Returned(first), Returned(second)];
    all := Concat(results);
    FlattenTwo(results, first, second);
  }

  // ---------------------------------------------------------------------------
  // Properties
  // ---------------------------------------------------------------------------

  /** Every API record has a non-empty image: the provider's when truthy, else a pool entry chosen by the raw title. */
  lemma ApiImageProperties(provided: Option<string>, rawTitle: Option<string>, rt: Runtime)
    ensures ApiImage(provided, rawTitle, rt) != ""
    ensures Truthy(provided) ==> ApiImage(provided, rawTitle, rt) == provided.value
    ensures !Truthy(provided) ==> ApiImage(provided, rawTitle, rt) in ApiPool
  {
  }

  lemma {:induction false} NewsApiArticlesLength(items: seq<NewsApiItem>, rt: Runtime)
    ensures |NewsApiArticles(items, rt)| <= |items|
  {
    if items != [] {
      NewsApiArticlesLength(items[..|items| - 1], rt);
    }
  }

  lemma {:induction false} NewsApiArticlesMembers(items: seq<NewsApiItem>, rt: Runtime)
    ensures forall a :: a in NewsApiArticles(items, rt) ==>
              a.title != "" && exists k :: 0 <= k < |items| && a == NewsApiRecord(items[k], rt)
  {
    if items != [] {
      var n := |items| - 1;
      NewsApiArticlesMembers(items[..n], rt);
      forall a | a in NewsApiArticles(items[..n], rt) ensures exists k :: 0 <= k < |items| && a == NewsApiRecord(items[k], rt) {
        var k :| 0 <= k < n && a == NewsApiRecord(items[..n][k], rt);
        assert items[..n][k] == items[k];
      }
    }
  }

  /** NewsAPI yields nothing without a key, on a failed request, or when any item's `source` is `null`;
      otherwise at most one record per item, each with a non-empty title and image, and the source
      defaulting to "NewsAPI" when the item has no source name. */
  lemma NewsApiResultProperties(apiKey: string, fetched: Fetch<seq<NewsApiItem>>, rt: Runtime)
    ensures apiKey == "" || fetched.Failed? ==> NewsApiResult(apiKey, fetched, rt) == []
    ensures fetched.Fetched? && (exists k :: 0 <= k < |fetched.data| && fetched.data[k].source.NullSource?) ==>
              NewsApiResult(apiKey, fetched, rt) == []
    ensures fetched.Fetched? ==> |NewsApiResult(apiKey, fetched, rt)| <= |fetched.data|
    ensures forall a :: a in NewsApiResult(apiKey, fetched, rt) ==>
              && a.title != "" && a.image != ""
              && exists k :: 0 <= k < |fetched.data| && a == NewsApiRecord(fetched.data[k], rt) &&
                   (fetched.data[k].source.NoSource? || fetched.data[k].source == SourceObj(Absent) ==> a.source == Some("NewsAPI"))
  {
    if apiKey != "" && fetched.Fetched? && !HasNullSource(fetched.data) {
      var items := fetched.data;
      NewsApiArticlesLength(items, rt);
      NewsApiArticlesMembers(items, rt);
      assert NewsApiResult(apiKey, fetched, rt) == NewsApiArticles(items, rt);
      forall a | a in NewsApiArticles(items, rt)
        ensures && a.title != "" && a.image != ""
                && exists k :: 0 <= k < |items| && a == NewsApiRecord(items[k], rt) &&
                     (items[k].source.NoSource? || items[k].source == SourceObj(Absent) ==> a.source == Some("NewsAPI"))
      {
        var k :| 0 <= k < |items| && a == NewsApiRecord(items[k], rt);
        NewsApiRecordFacts(items[k], rt);
      }
    }
  }

  /** A NewsAPI record always has an image, and its source is "NewsAPI" when the item names none. */
  lemma NewsApiRecordFacts(item: NewsApiItem, rt: Runtime)
    ensures NewsApiRecord(item, rt).image != ""
    ensures item.source.NoSource? || item.source == SourceObj(Absent) ==> NewsApiRecord(item, rt).source == Some("NewsAPI")
  {
  }

  lemma {:induction false} BingArticlesLength(items: seq<BingItem>, rt: Runtime)
    ensures |BingArticles(items, rt)| <= |items|
  {
    if items != [] {
      BingArticlesLength(items[..|items| - 1], rt);
    }
  }

  lemma {:induction false} BingArticlesMembers(items: seq<BingItem>, rt: Runtime)
    ensures forall a :: a in BingArticles(items, rt) ==>
              a.title != "" && exists k :: 0 <= k < |items| && a == BingRecord(items[k], rt)
  {
    if items != [] {
      var n := |items| - 1;
      BingArticlesMembers(items[..n], rt);
      forall a | a in BingArticles(items[..n], rt) ensures exists k :: 0 <= k < |items| && a == BingRecord(items[k], rt) {
        var k :| 0 <= k < n && a == BingRecord(items[..n][k], rt);
        assert items[..n][k] == items[k];
      }
    }
  }

  /** Bing yields nothing without a key, on a failed request, or when some item's image or provider cannot
      be read; otherwise at most one record per item, each with a non-empty title and image, an empty author,
      and "Bing News" as source when the item names no provider. */
  lemma BingResultProperties(apiKey: string, fetched: Fetch<seq<BingItem>>, rt: Runtime)
    ensures apiKey == "" || fetched.Failed? ==> BingResult(apiKey, fetched, rt) == []
    ensures fetched.Fetched? &&
            (exists k :: 0 <= k < |fetched.data| && (ImageRaises(fetched.data[k].image) || ProviderRaises(fetched.data[k].provider))) ==>
              BingResult(apiKey, fetched, rt) == []
    ensures fetched.Fetched? ==> |BingResult(apiKey, fetched, rt)| <= |fetched.data|
    ensures forall a :: a in BingResult(apiKey, fetched, rt) ==>
              && a.title != "" && a.image != "" && a.author == Some("")
              && exists k :: 0 <= k < |fetched.data| && a == BingRecord(fetched.data[k], rt) &&
                   (fetched.data[k].provider.NoProvider? || fetched.data[k].provider == FirstProvider(Absent) ==>
                      a.source == Some("Bing News"))
  {
    if apiKey != "" && fetched.Fetched? && !HasRaisingItem(fetched.data) {
      BingArticlesLength(fetched.data, rt);
      BingArticlesMembers(fetched.data, rt);
    }
  }
}
