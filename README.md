# aidesk backend core, modelled in Dafny

aidesk is an AI-news aggregator. Its FastAPI backend builds one article list:
- it pulls articles from five RSS feeds, NewsAPI and Bing News;
- it cleans and deduplicates them;
- it sorts them newest first;
- it labels each one trending and/or important;
- it keeps the result for 12 minutes in a process-wide TTL cache.

Four endpoints serve views of that list: all articles, the trending ones, the important ones, and a substring search. The search also covers YouTube videos. A video endpoint lists the videos, optionally filtered by category. The React card that shows an article picks a placeholder picture by hashing the title.

This project models that pipeline:
- the text cleaning, date parsing, deduplication, keyword extraction and classification of `backend/utils/clean_data.py`;
- the `Cache` class of `backend/utils/cache.py`;
- the record-building logic of the three adapters `fetch_rss.py`, `fetch_newsapi.py` and `fetch_youtube.py`;
- the routers `news.py`, `search.py` and `videos.py`;
- `getFallbackImage` and the `imageUrl` choice in `app/components/NewsCard.tsx`.

Its proofs cover several properties:
- cache hit, miss and eviction behaviour;
- the image priority chains;
- deduplication as an order-preserving, idempotent subsequence whose survivors are pairwise unrelated;
- newest-first ordering, with the title-order fallback;
- the trending fallback that mutates shared cached articles;
- id-unique, sorted and truncated video lists;
- the 32-bit wrapping title hash.

Layout, one module per source file plus shared helpers:

| file | module | models |
|---|---|---|
| `types.dfy` | `Types` | JSON values, fetch outcomes, `asyncio.gather` slots, datetimes, the article and video dictionaries, the library functions the code calls (`Runtime`) |
| `strings.dfy` | `Strings` | `str.lower`, `str.strip`, `in` on strings, string `<` |
| `filters.dfy`, `gather.dfy`, `sorting.dfy` | `Filters`, `Gather`, `Sorting` | list comprehensions with a condition and the order-keeping subsequence relation, the gather-and-extend loops, `list.sort(key=…, reverse=True)` |
| `placeholders.dfy` | `Placeholders` | the Unsplash placeholder pools |
| `clean_data.dfy` | `CleanData` | `backend/utils/clean_data.py` |
| `cache.dfy` | `TtlCache` | `backend/utils/cache.py` |
| `fetch_rss.dfy`, `fetch_newsapi.dfy`, `fetch_youtube.dfy` | `FetchRss`, `FetchNewsApi`, `FetchYoutube` | the three adapters |
| `news.dfy`, `search.dfy`, `videos.dfy` | `News`, `Search`, `Videos` | the routers |
| `news_card.dfy` | `NewsCard` | the card's placeholder hash |

How the model represents the program:
- **Time** is whole seconds. One request reads the clock once, as `Clock(utc, local)`: `datetime.now(timezone.utc)` and the naive `datetime.now()`.
- **Network responses** are a value `Upstream`. It holds one `Fetch` (decoded payload or exception) per feed, per news API and per planned YouTube search, plus the three API keys. The adapters and routers are proved against functions of that snapshot.
- **Library functions:**
  - Python's salted `hash(str)`, the regex class `\w`, `strptime`, `dateutil.parser.parse`, `isoformat` and the two description regexes are fields of `Runtime`.
  - Nothing is assumed about them beyond determinism within a run.
- **Cache.** `TtlCache.Cache` is a class whose `entries` map the methods reassign.
- **Articles and the flags on them.**
  - The routers hold `News.Article` objects: an immutable adapter record plus the two mutable flags.
  - The labelling loop and the trending fallback write those flags in place.
  - The trending view and the cached full list share the same objects, as in the source.
- **Cache consistency.** `News.Consistent` is the invariant every router keeps:
  - `all_news` holds a list of distinct articles;
  - no error answer is ever cached.

## Model

| member | source | states |
|---|---|---|
| TtlCache.Live | backend/utils/cache.py:27-31 | an entry survives exactly when now ≤ its expiry; surviving entries are unchanged |
| TtlCache.Cache.constructor | backend/utils/cache.py:5-7 | a new cache is empty and its TTL is the given minutes in seconds |
| TtlCache.Cache.Get | backend/utils/cache.py:9-18 | hit exactly when the key is present and now ≤ expiry (strict `>` expires); the store changes only by deleting that one key when it has expired |
| TtlCache.Cache.Set | backend/utils/cache.py:20-22 | the key's entry is replaced wholesale by (value, now + ttl); every other key is unchanged |
| TtlCache.Cache.Clear | backend/utils/cache.py:24-25 | the store is empty afterwards |
| TtlCache.Cache.CleanupExpired | backend/utils/cache.py:27-31 | the store afterwards is exactly its live part at that instant |
| TtlCache.LiveWithoutExpired | backend/utils/cache.py:27-31 | deleting the keys that have expired leaves exactly the live entries |
| TtlCache.LookupAfterSet | backend/utils/cache.py:13-22 | after a set at t, a get hits with the stored value iff now ≤ t + ttl, so the expiry instant itself is still a hit |
| TtlCache.LookupAfterSetOther | backend/utils/cache.py:20-22 | a set of one key changes no lookup of another key |
| TtlCache.LookupExpiryMonotone | backend/utils/cache.py:13-16 | once a key misses, it misses at every later time |
| TtlCache.AfterGetUnobservable | backend/utils/cache.py:13-16 | the eviction a get performs changes no lookup at that time or later |
| TtlCache.LiveUnobservable | backend/utils/cache.py:27-31 | the sweep changes no lookup at that time or later, and sweeping twice equals sweeping once |
| TtlCache.LiveAllPresent | backend/utils/cache.py:27-31 | every entry the sweep keeps is a hit at the sweep's instant |
| Strings.Strip | backend/utils/clean_data.py:14 | the result is a contiguous slice of the input with no whitespace at either end |
| Strings.TrimStartDropsSpaces | backend/utils/clean_data.py:14 | everything removed at the front is whitespace |
| Strings.TrimEndDropsSpaces | backend/utils/clean_data.py:14 | everything removed at the back is whitespace |
| Strings.StripDropsSpaces | backend/utils/clean_data.py:14 | everything `strip()` removes, before and after the slice it keeps, is whitespace |
| Strings.ContainsEmpty | backend/routers/search.py:30 | the empty string is a substring of every string |
| Strings.StrLtAsymmetric | backend/utils/fetch_youtube.py:107 | string `<` is asymmetric |
| Strings.StrLtTransitive | backend/utils/fetch_youtube.py:107 | string `<` is transitive |
| Strings.StrLtConnected | backend/utils/fetch_youtube.py:107 | two different strings are ordered one way or the other |
| Sorting.SortDesc | backend/routers/news.py:30 | sorting returns a permutation of its input |
| Sorting.SortDescCorrect | backend/routers/news.py:29-34 | for a strict weak order, the result is sorted in descending key order and is a permutation |
| Sorting.SortDescDistinct | backend/utils/fetch_youtube.py:107 | sorting keeps ids distinct |
| Sorting.StrLtIsStrictWeakOrder | backend/utils/fetch_youtube.py:107 | string comparison is a strict weak order, so the string sorts are well defined |
| Filters.Filter | backend/routers/news.py:95 | the kept items are exactly the input items satisfying the condition, and never more than the input |
| Filters.FilterSubsequence | backend/routers/news.py:95 | a filter keeps the input order |
| Gather.Concat | backend/utils/fetch_rss.py:140-147 | the loop's result is the concatenation, in task order, of the list results, skipping exceptions |
| Gather.FlattenAppend | backend/utils/fetch_rss.py:141-143 | concatenating two groups of results gives the concatenation of their contributions |
| Gather.FlattenSkipsRaised | backend/utils/fetch_rss.py:144-145 | an exception slot contributes nothing |
| Gather.FlattenMembers | backend/utils/fetch_rss.py:141-143 | an item is in the result iff some returned list contains it |
| Gather.FlattenTwo | backend/utils/fetch_newsapi.py:155-165 | two returned lists give their concatenation, the first before the second |
| Placeholders.PoolsShareFirstTwelve | backend/utils/fetch_newsapi.py:35-51 | both pools have 15 entries and agree on the first twelve; the RSS pool's last three repeat its 8th, 10th and 12th entries; the API pool's 13th is a picture of its own and its last two repeat its 12th and 10th |
| Placeholders.PoolsNonEmpty | backend/utils/fetch_rss.py:94-110 | every placeholder URL is non-empty |
| CleanData.CleanTextForm | backend/utils/clean_data.py:6-14 | the empty input gives ""; otherwise the result has no whitespace at either end, only single `' '` separators and no complete `<…>` tag |
| CleanData.CleanTextIdempotent | backend/utils/clean_data.py:6-14 | cleaning a cleaned text changes nothing |
| CleanData.StripTagsTagFree | backend/utils/clean_data.py:11 | after tag removal no `<…>` tag is left |
| CleanData.CollapseSpacesSingleSpaced | backend/utils/clean_data.py:13 | after collapsing, every whitespace character is a lone `' '` |
| CleanData.StripKeepsForm | backend/utils/clean_data.py:14 | stripping a tag-free, single-spaced text yields the clean form |
| CleanData.ParseDate | backend/utils/clean_data.py:16-58 | the loop over formats returns the fallback chain: empty gives now; a string with `T` tries the lenient parser first; then the formats in order, first success wins; then the lenient parser; then now; it never fails |
| CleanData.FirstFormatIsFirstSuccess | backend/utils/clean_data.py:44-49 | the format loop fails iff every format fails, and otherwise returns the result of the first format that succeeds |
| CleanData.PublishedAt | backend/utils/fetch_rss.py:120-123 | the published field becomes the ISO text of its parse, or of now when it is empty |
| CleanData.PublishedIsoIsParseDate | backend/utils/fetch_rss.py:120-123 | the empty-field default is the same as parsing the empty string |
| CleanData.IsDuplicate | backend/utils/clean_data.py:71-77 | the inner loop answers true iff some seen title contains or is contained in this one with both longer than 20 |
| CleanData.DeduplicateArticles | backend/utils/clean_data.py:60-83 | the loop with the seen set computes the deduplication function |
| CleanData.DedupStep | backend/utils/clean_data.py:65-81 | each article is kept iff no earlier kept article's normalised title is related to its own |
| CleanData.DuplicateOfTitles | backend/utils/clean_data.py:72-77 | checking the seen-title set equals checking the kept articles' titles |
| CleanData.DedupSubsequence | backend/utils/clean_data.py:60-83 | the result is an order-preserving subsequence of the input |
| CleanData.DedupKeepsFirst | backend/utils/clean_data.py:65-81 | the first input article is always kept, first |
| CleanData.DedupKeepsShortTitles | backend/utils/clean_data.py:75 | an article whose normalised title has at most 20 characters is never dropped |
| CleanData.DedupSurvivorsUnrelated | backend/utils/clean_data.py:72-81 | no two survivors have related normalised titles |
| CleanData.DedupIdempotent | backend/utils/clean_data.py:60-83 | deduplicating twice equals deduplicating once |
| CleanData.ExtractKeywords | backend/utils/clean_data.py:85-103 | the loop returns the keyword function |
| CleanData.KeywordsOfMembers | backend/utils/clean_data.py:93-103 | a term is returned iff it is an important term contained in the lower-cased text |
| CleanData.SameTitleCountPositive | backend/utils/clean_data.py:140-142 | the count is positive iff some article has that normalised title |
| CleanData.SameTitleCountRepeated | backend/utils/clean_data.py:140-144 | for an article in the list, the count exceeds 1 iff another article has an equal normalised title |
| CleanData.CategorizeTrendingIff | backend/utils/clean_data.py:121-149 | trending iff published at most 24 hours ago (or in the future), or another article has an equal normalised title, or a viral keyword occurs in "title description" |
| CleanData.CategorizeImportantIgnoresList | backend/utils/clean_data.py:151-165 | importance depends only on the article itself, not on the list |
| CleanData.CategorizeTrendingMonotone | backend/utils/clean_data.py:139-144 | adding articles to the list never removes a trending label |
| FetchRss.FirstImageOf | backend/utils/fetch_rss.py:57-60 | the URL of the first item whose type starts with "image", and nothing when none does |
| FetchRss.FindImageUrl | backend/utils/fetch_rss.py:53-89 | methods 1 to 6 yield the first truthy candidate, in priority order; a falsy result means all six are falsy |
| FetchRss.ImageFor | backend/utils/fetch_rss.py:92-117 | the chosen image is never empty |
| FetchRss.ResolveImage | backend/utils/fetch_rss.py:52-117 | the reassignment chain computes the priority choice, with the title-hash placeholder last |
| FetchRss.FirstTruthyIsEarliest | backend/utils/fetch_rss.py:53-89 | the choice is the earliest truthy candidate, and nothing iff none is truthy |
| FetchRss.ImageForProperties | backend/utils/fetch_rss.py:92-115 | the image is non-empty, and when every source is falsy it is pool entry abs(hash(title)) mod 15 |
| FetchRss.ConvertEntry | backend/utils/fetch_rss.py:42-123 | the entry becomes the article record |
| FetchRss.FeedStep | backend/utils/fetch_rss.py:41-126 | one more entry adds its own record when it has a title, and nothing else |
| FetchRss.FetchRssFeed | backend/utils/fetch_rss.py:31-131 | the feed loop computes the feed's result |
| FetchRss.FeedArticlesLength | backend/utils/fetch_rss.py:41-126 | at most one article per entry |
| FetchRss.FeedArticlesMembers | backend/utils/fetch_rss.py:41-126 | the articles are exactly the records with a non-empty title built from the entries |
| FetchRss.RssFeedResultProperties | backend/utils/fetch_rss.py:31-131 | a failed fetch gives `[]`; at most 20 articles; each has a non-empty clean title, the feed's name as source and a non-empty image, and comes from one of the first 20 entries |
| FetchRss.Names | backend/utils/fetch_rss.py:137 | the feed names, one per feed, in order |
| FetchRss.FetchAllRssFeeds | backend/utils/fetch_rss.py:133-147 | the per-feed results concatenated in feed order |
| FetchRss.JoinedFeedsBounds | backend/utils/fetch_rss.py:137-147 | at most 20 articles per feed, each with the name of one of the feeds |
| FetchRss.AllFeedsBounds | backend/utils/fetch_rss.py:8-29 | over the five feeds, at most 100 articles, each from a configured feed |
| FetchRss.LabFeedsImportant | backend/utils/clean_data.py:161-165 | every article from the OpenAI, DeepMind or Anthropic blog feed is important |
| FetchNewsApi.ApiImage | backend/utils/fetch_newsapi.py:33-55 | the chosen image is never empty |
| FetchNewsApi.ApiImageProperties | backend/utils/fetch_newsapi.py:33-55 | the provider's image when truthy, otherwise an entry of the 15-entry pool |
| FetchNewsApi.ConvertNewsApiItem | backend/utils/fetch_newsapi.py:57-70 | the item becomes the article record |
| FetchNewsApi.FetchNewsApi | backend/utils/fetch_newsapi.py:10-78 | the adapter loop computes the NewsAPI result |
| FetchNewsApi.NewsApiArticlesLength | backend/utils/fetch_newsapi.py:31-73 | at most one article per item |
| FetchNewsApi.NewsApiArticlesMembers | backend/utils/fetch_newsapi.py:31-73 | each article has a non-empty title and is built from an item |
| FetchNewsApi.NewsApiResultProperties | backend/utils/fetch_newsapi.py:10-78 | an empty key or failure gives `[]`; a null `source` aborts the whole response to `[]`; otherwise each article has a non-empty title and image, and the source defaults to "NewsAPI" |
| FetchNewsApi.NewsApiRecordFacts | backend/utils/fetch_newsapi.py:57-65 | the record's image is non-empty; a missing source name gives "NewsAPI" |
| FetchNewsApi.BingStep | backend/utils/fetch_newsapi.py:100-144 | an item that raises nothing adds its own record when it has a title, and nothing else |
| FetchNewsApi.FetchBingNews | backend/utils/fetch_newsapi.py:80-149 | the adapter loop computes the Bing result; an item whose image, thumbnail or provider cannot be read ends the call with `[]` |
| FetchNewsApi.BingArticlesLength | backend/utils/fetch_newsapi.py:100-144 | at most one article per item |
| FetchNewsApi.BingArticlesMembers | backend/utils/fetch_newsapi.py:100-144 | each article has a non-empty title and is built from an item |
| FetchNewsApi.BingResultProperties | backend/utils/fetch_newsapi.py:80-149 | an empty key or failure gives `[]`; an item whose `image` or `thumbnail` is not an object, or whose `provider` is not a list or starts with a non-object, turns the whole response into `[]`; each article has a non-empty title and image and author `""`; no provider, or one without a name, gives source "Bing News" |
| FetchNewsApi.FetchAllNewsApis | backend/utils/fetch_newsapi.py:151-165 | NewsAPI's articles followed by Bing's |
| FetchYoutube.PlanRequests | backend/utils/fetch_youtube.py:82-90 | six requests: the first three channels, then the first three queries, five results each; the second and third are identical because two channels share an id |
| FetchYoutube.ConvertItem | backend/utils/fetch_youtube.py:54-68 | the item becomes the video record, with the publish time defaulted to now |
| FetchYoutube.FetchYoutubeVideos | backend/utils/fetch_youtube.py:26-76 | the loop computes the per-request result |
| FetchYoutube.ItemVideosShape | backend/utils/fetch_youtube.py:53-71 | at most one video per item; each has a truthy id and title and is built from an item |
| FetchYoutube.VideosResultProperties | backend/utils/fetch_youtube.py:26-76 | no key or any failure gives the mock list; every video kept has a truthy id and title |
| FetchYoutube.MockVideosProperties | backend/utils/fetch_youtube.py:111-132 | the mock list has two videos with distinct ids, both kept by the filter |
| FetchYoutube.MergeBatch | backend/utils/fetch_youtube.py:99-102 | merging one batch keeps the seen set and the list equal to the ids and the first occurrences so far |
| FetchYoutube.MergeBatches | backend/utils/fetch_youtube.py:94-105 | the merge keeps the first video of each id, in task order |
| FetchYoutube.FetchAllYoutubeVideos | backend/utils/fetch_youtube.py:78-109 | the fan-out, merge, sort and cut compute the specified video list |
| FetchYoutube.KeepFirstIds | backend/utils/fetch_youtube.py:95-102 | the merge loses no id |
| FetchYoutube.KeepFirstDistinct | backend/utils/fetch_youtube.py:95-102 | the merged ids are pairwise distinct |
| FetchYoutube.KeepFirstFirstOccurrences | backend/utils/fetch_youtube.py:95-102 | the merged videos are exactly the first occurrences of their ids |
| FetchYoutube.BatchesKept | backend/utils/fetch_youtube.py:97-102 | every merged video has a truthy id and title |
| FetchYoutube.FinishProperties | backend/utils/fetch_youtube.py:107-109 | exactly min(50, n) videos, sorted by publish text descending, drawn from the input, with no dropped video newer than a kept one; ids still distinct; a permutation when there were at most 50 |
| FetchYoutube.CutKeepsNewest | backend/utils/fetch_youtube.py:107-109 | cutting a newest-first permutation drops no video newer than a kept one |
| FetchYoutube.AllVideosProperties | backend/utils/fetch_youtube.py:78-109 | the 50 newest merged videos (all of them when fewer), sorted by publish text descending, distinct ids, each with a truthy id and title |
| FetchYoutube.JoinAllMock | backend/utils/fetch_youtube.py:28-30 | without a key every request returns the mocks, so the joined ids are the mock ids |
| FetchYoutube.NoKeyMergesMock | backend/utils/fetch_youtube.py:94-102 | without a key the merge yields exactly the two mock videos |
| FetchYoutube.NoKeyGivesMockIds | backend/utils/fetch_youtube.py:28-30 | without a key the endpoint's list has exactly two videos, with the two mock ids |
| News.Served | backend/routers/news.py:15-17 | a cached value is served iff it is present, unexpired and truthy, so a cached empty list is a miss |
| News.ConsistentAfterGet | backend/utils/cache.py:13-16 | an eviction keeps the cache invariant |
| News.ConsistentStoreNews | backend/routers/news.py:43 | storing a list of distinct articles keeps the invariant |
| News.ConsistentStoreView | backend/routers/news.py:119-123 | storing a view under another key keeps the invariant and the full list |
| News.MergeNews | backend/routers/news.py:20-34 | the fetched, merged, deduplicated and sorted records |
| News.Allocate | backend/routers/news.py:23 | one fresh, distinct article object per record, holding it |
| News.Label | backend/routers/news.py:37-40 | every article's two flags equal the classification of its record against the whole list |
| News.BuildNews | backend/routers/news.py:19-41 | the new articles hold the specified records, are distinct and fresh, and are labelled |
| News.AfterAllNews | backend/routers/news.py:12-45 | the cache after `get_all_news()` holds "all_news" and differs from the cache before only there |
| News.StoreNews | backend/routers/news.py:43 | the list is stored under "all_news" with a fresh expiry, every other key is as `get` left it, and the invariant holds |
| News.RefreshNews | backend/routers/news.py:19-45 | after a miss, fresh labelled articles holding the upstream records are stored under "all_news" and returned; no other key changes |
| News.GetAllNews | backend/routers/news.py:12-45 | a truthy unexpired "all_news" is returned and nothing changes; otherwise fresh, labelled articles holding the upstream records are stored and returned, and only "all_news" (with its eviction) changes |
| News.AllNewsOrder | backend/routers/news.py:23-34 | the list is a permutation of dedup(RSS ++ API); it is newest first when all dates are of one kind (all aware or all naive), otherwise title descending |
| News.AllNewsSources | backend/routers/news.py:20-26 | every article comes from RSS or the APIs; the first RSS article always survives |
| News.IntLtIsStrictWeakOrder | backend/routers/news.py:30 | date comparison is a strict weak order |
| News.GetNewsAll | backend/routers/news.py:47-52 | the answer is the list `get_all_news()` gives (the cached one, or the upstream records labelled) with its count; the cache changes as `get_all_news()` changes it |
| News.Picked | backend/routers/news.py:68 | the flagged articles, all of them and nothing else |
| News.SelectFlagged | backend/routers/news.py:95 | the comprehension computes the flagged articles in order |
| News.PickedPrefix | backend/routers/news.py:71-75 | when exactly the first n are flagged, the flagged articles are the first n |
| News.MarkTrending | backend/routers/news.py:74-75 | the first n articles are marked trending, the rest stay unmarked, and importance is untouched |
| News.SelectTrending | backend/routers/news.py:68-75 | the trending articles, or when there are none, the first min(10, n) articles, each now marked trending in place; a non-empty list never gives an empty view; every flag afterwards is the old one, or also set on the first ten when none was trending; importance is untouched |
| News.LabelledFlags | backend/routers/news.py:37-40 | in a labelled list, each flag of each article is the label `categorize_article` gives its record against the whole list |
| News.TrendingViewFallback | backend/routers/news.py:71-75 | when no article was trending, the view is exactly the first min(10, n) articles |
| News.TrendingViewKept | backend/routers/news.py:68 | when some article was trending, no trending flag changes and the view is exactly the articles that were trending |
| News.StoreTrending | backend/routers/news.py:68-79 | the view is the old trending selection with no flag changed, or, when none was trending, the first min(10, n) articles, now flagged; importance is untouched; the view is cached under "trending_news" and the rest of the cache is as `get_all_news()` left it |
| News.StoreView | backend/routers/news.py:78 | storing a view under its own key leaves the rest of the cache as `get_all_news()` left it |
| News.RefreshTrending | backend/routers/news.py:67-79 | the list is what `get_all_news()` answers and the whole cache afterwards is given; on a rebuild of "all_news" every trending flag is `categorize_article`'s label, or also set on the first ten when no article is labelled trending, and every importance flag is `categorize_article`'s; on a cached list the same holds of the cached flags; only the objects of a served "all_news" list may be written |
| News.GetNewsTrending | backend/routers/news.py:59-84 | a truthy cached view is returned unchanged; otherwise the trending view of the list `get_all_news()` gives is computed, cached and returned, with every flag as `RefreshTrending` states it, and no key but "trending_news" and "all_news" changes; no article object is written on a hit or when "all_news" is rebuilt |
| News.NewsFrameAfterGet | backend/routers/news.py:63 | looking up "trending_news" changes neither whether "all_news" is served nor its objects |
| News.StoreImportant | backend/routers/news.py:97-99 | the answer is the important view with its count and is cached under "important_news"; nothing else changes |
| News.RefreshImportant | backend/routers/news.py:93-100 | the important view of the list `get_all_news()` gives, cached under "important_news" beside that list |
| News.GetNewsImportant | backend/routers/news.py:86-104 | a truthy cached view is returned unchanged; otherwise the important articles of the list `get_all_news()` gives, in order and with their count, are cached and returned, and no key but "important_news" and "all_news" changes |
| News.ContentKeyIsNotAllNews | backend/routers/news.py:111 | a content key never collides with "all_news" |
| News.GetArticleContent | backend/routers/news.py:106-128 | a cached page is returned; a fetched page is cached under "article_content_" + url; a failed fetch answers the error and caches nothing |
| Search.SearchNews | backend/routers/search.py:24-31 | the articles whose lower-cased title, description or source contains the lower-cased query, in order; a missing source raises |
| Search.VideoStep | backend/routers/search.py:38-45 | one more video with all three fields is kept exactly when it matches |
| Search.SearchVideos | backend/routers/search.py:38-45 | the videos whose lower-cased title, description or channel contains the lower-cased query, in order; a missing field raises |
| Search.FindVideos | backend/routers/search.py:33-45 | the matches among the fetched videos |
| Search.SearchResults | backend/routers/search.py:20-53 | the search answer: the query verbatim, both match lists and their counts |
| Search.SearchFresh | backend/routers/search.py:21-56 | a computed answer is cached under "search_" + q; a raised search caches nothing; no other key changes |
| Search.RefreshSearch | backend/routers/search.py:21-56 | the answer over the list `get_all_news()` gives and the fetched videos, cached beside that list unless it raised |
| Search.SearchAll | backend/routers/search.py:9-56 | a truthy cached answer is returned unchanged; otherwise the answer over the list `get_all_news()` gives is computed and cached, and no key but "search_" + q and "all_news" changes |
| Search.SearchKeyIsNotAllNews | backend/routers/search.py:15 | a search key never collides with "all_news" |
| Search.SearchKeyInjective | backend/routers/search.py:15 | two queries share a cache entry iff they are the same string, so case variants are cached apart |
| Search.HitsAreOrderedMatches | backend/routers/search.py:24-45 | both match lists are order-preserving subsequences holding exactly the matching items |
| Search.EmptyQueryMatchesAll | backend/routers/search.py:30-44 | the empty query matches every article and every video |
| Search.SameMatchesUpToCase | backend/routers/search.py:12 | queries that differ only in case find the same matches |
| Videos.AnyInThree | backend/routers/videos.py:25-29 | a three-keyword test holds iff one of the three occurs |
| Videos.CategoryStep | backend/routers/videos.py:18-32 | one more video with a title and description is kept exactly when it is in the category |
| Videos.FilterByCategory | backend/routers/videos.py:18-32 | the loop keeps the videos whose lower-cased title has one of the category's keywords; a missing title or description raises |
| Videos.AllVideosKeyIsNotAllNews | backend/routers/videos.py:11 | the video key never collides with "all_news" |
| Videos.ListVideos | backend/routers/videos.py:15-34 | without a category, all fetched videos with their count; with one, the filtered videos |
| Videos.GetVideos | backend/routers/videos.py:9-39 | without a category, a truthy cached list is returned, otherwise the full list is computed and cached; with a category, any cached list is ignored and nothing is stored, but the lookup still evicts an expired "all_videos" entry |
| Videos.CategoryHitsAreOrderedMatches | backend/routers/videos.py:20-32 | the filtered list is an order-preserving subsequence holding exactly the matching videos |
| Videos.UnknownCategoryIsEmpty | backend/routers/videos.py:25-32 | a category other than talks, demos or research matches nothing |
| Videos.CategoryCaseInsensitive | backend/routers/videos.py:19 | categories that differ only in case filter alike |
| Videos.KnownCategories | backend/routers/videos.py:25-30 | the three categories match exactly their three title keywords |
| NewsCard.ToInt32 | app/components/NewsCard.tsx:61 | the result is a signed 32-bit integer congruent to the input modulo 2^32 |
| NewsCard.ToInt32OfInt32 | app/components/NewsCard.tsx:61 | wrapping leaves a 32-bit integer unchanged |
| NewsCard.ToInt32Congruent | app/components/NewsCard.tsx:61 | the wrap depends only on the input modulo 2^32 |
| NewsCard.Utf16 | app/components/NewsCard.tsx:58-59 | one code unit below U+10000, two otherwise, each below 2^16 |
| NewsCard.Utf16RoundTrip | app/components/NewsCard.tsx:58-59 | the units decode back to the character; a pair is a high then a low surrogate |
| NewsCard.CodeUnits | app/components/NewsCard.tsx:58-59 | between one and two units per character, each below 2^16 |
| NewsCard.CodeUnitsBasic | app/components/NewsCard.tsx:58-59 | a string without astral characters has one unit per character, equal to its code |
| NewsCard.StringHash | app/components/NewsCard.tsx:57-62 | the hash stays a signed 32-bit integer |
| NewsCard.StringHashIsWrappedPolyHash | app/components/NewsCard.tsx:57-62 | wrapping after every step equals wrapping the polynomial Σ c·31^k once |
| NewsCard.ShiftStep | app/components/NewsCard.tsx:60-61 | `((hash << 5) - hash) + c` then `& hash` is the 32-bit wrap of 31·hash + c |
| NewsCard.FallbackIndex | app/components/NewsCard.tsx:63 | the index lies in [0, 15) |
| NewsCard.GetFallbackImage | app/components/NewsCard.tsx:37-65 | the loop returns the pool entry at the title's index, so a title always yields the same URL |
| NewsCard.EmptyTitleFallback | app/components/NewsCard.tsx:57-64 | an empty title gives index 0, the first picture |
| NewsCard.MinInt32Index | app/components/NewsCard.tsx:63 | a hash of −2^31 still gives a valid index, 8 |
| NewsCard.ImageUrl | app/components/NewsCard.tsx:67 | the article's own image when truthy, else the title's placeholder |
| NewsCard.ImageUrlNonEmpty | app/components/NewsCard.tsx:67 | the card never shows an empty image address |

## Left out

- Network I/O (`httpx`, `feedparser`, JSON decoding) is not modelled; every response is an input value (`Upstream`, `Fetch`). `backend/utils/fetch_article_content.py` is not part of this model: its result is a parameter of `News.GetArticleContent`.
- `asyncio.gather` is modelled as the sequence of its slots, taken in task order. No interleaving is modelled.
- One request reads one clock value and sees one snapshot of every upstream response. A later request may see other data.
- Python's salted `hash(str)`, the `\w` class, `strptime`, `dateutil.parser.parse`, `isoformat` and the two image regexes of the RSS description are uninterpreted functions in `Runtime`. Nothing about their internals is proved. The tag and whitespace regexes of `clean_text` are written out as scanners.
- Time is whole seconds. Microseconds are not modelled, and the float `hours_ago <= 24` test is the integer test `seconds <= 86400`.
- `Strings.Lower` maps only ASCII letters. Python's full Unicode case mapping is not modelled.
- `parse_date`'s `isinstance(date_str, datetime)` branch is not modelled: every caller passes a string.
- `categorize_article`'s outer `except`, which returns both flags false, is not modelled. No step of the modelled computation raises there.
- The inner `except` around the age calculation is not modelled, for the same reason. An aware date is compared with the UTC clock and a naive one with the local clock.
- The `except` branches of the news endpoints (`news.py`:53-57, 80-84, 100-104, 124-128) are not modelled. Nothing in the modelled `get_all_news` raises.
- News.AllNewsOrder:
  - It states that the list is sorted and is a permutation, as the source does.
  - It does not state the relative order of articles with equal keys.
  - When the date sort raises part-way, Python has already permuted the list, and the title sort starts from that partial permutation. The model sorts by title from the deduplicated order.
- News.GetAllNews, News.RefreshNews, News.GetNewsAll, News.GetNewsTrending, News.RefreshTrending, News.RefreshImportant, News.GetNewsImportant, Search.RefreshSearch, Search.SearchAll, Search.SearchFresh, Videos.ListVideos and Videos.GetVideos state their result for the upstream snapshot `u == up` in the form `forall u :: u == up ==> …`. This is equivalent to the plain statement about `up`.
- JSON fields are modelled as missing, `null` or a string, with the object shapes the adapters read. Other malformed payloads are not modelled: an item that is not an object, a non-string `name` or `content`, or a `value` array that is not a list. For Bing, the model does cover an `image` or `thumbnail` that is not an object, and a `provider` that is not a list or starts with a non-object. Each of those raises and empties the response.
- The YouTube request parameters (`part`, `type`, `order`, the API key) and the Bing and NewsAPI query parameters are left out. They only shape the upstream requests, which the model takes as given.
- In `search`, the `isinstance(all_videos_data, list)` test is left out. `fetch_all_youtube_videos` always returns a list.
- In `get_videos`, the lower-cased description is computed and never used. The model keeps only its effect: a video without a description raises.
- The frontend UI is left out: `formatDate`, the rest of `NewsCard.tsx`, the other components, `page.tsx` and the Tailwind configuration. So are the FastAPI and CORS wiring in `backend/main.py` and all logging.
