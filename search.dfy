/** The search router (backend/routers/search.py): a case-insensitive substring search
    over the merged article list and the video list, cached per query string. */
module Search {
  import opened Types
  import opened Strings
  import opened CleanData
  import opened Filters
  import opened TtlCache
  import opened News
  import FetchYoutube

  /** The cache key of a query: the query as typed, not lower-cased. */
  function SearchKey(q: string): string {
    "search_" + q
  }

  /** `q.lower() in text.lower()`. */
  predicate Mentions(text: string, q: string) {
    Contains(Lower(text), Lower(q))
  }

  /** The news test: the query occurs in the title, the description or the source. */
  predicate ArticleMatches(r: ArticleRecord, q: string) {
    Mentions(r.title, q) || Mentions(r.description, q) || (r.source.Some? && Mentions(r.source.value, q))
  }

  function NewsTest(q: string): Article -> bool {
    (a: Article) => ArticleMatches(a.record, q)
  }

  /** The matching articles, in list order. */
  function NewsHits(all: seq<Article>, q: string): seq<Article> {
    Filter(all, NewsTest(q))
  }

  /** Every article has a source; a `None` source makes `.lower()` raise. */
  predicate SourcesPresent(all: seq<Article>) {
    forall i :: 0 <= i < |all| ==> all[i].record.source.Some?
  }

  /** The video test: the query occurs in the title, the description or the channel. */
  predicate VideoMatches(v: Video, q: string) {
    || (v.title.Some? && Mentions(v.title.value, q))
    || (v.description.Some? && Mentions(v.description.value, q))
    || (v.channel.Some? && Mentions(v.channel.value, q))
  }

  function VideoTest(q: string): Video -> bool {
    (v: Video) => VideoMatches(v, q)
  }

  /** The matching videos, in list order. */
  function VideoHits(videos: seq<Video>, q: string): seq<Video> {
    Filter(videos, VideoTest(q))
  }

  /** Every video has a title, a description and a channel; a `None` among them makes `.lower()` raise. */
  predicate VideoFieldsPresent(videos: seq<Video>) {
    forall i :: 0 <= i < |videos| ==>
      videos[i].title.Some? && videos[i].description.Some? && videos[i].channel.Some?
  }

  /** What the handler answers once it has the article list and the video list. */
  function SearchOutcome(all: seq<Article>, videos: seq<Video>, q: string): TaskResult<Payload> {
    if !SourcesPresent(all) || !VideoFieldsPresent(videos) then Raised
    else
      var news := NewsHits(all, q);
      var found := VideoHits(videos, q);
      Returned(SearchResult(q, news, found, |news|, |found|))
  }

  /** The loop over the articles: lower-cases the three fields of each and keeps the matches. */
  method SearchNews(all: seq<Article>, q: string) returns (outcome: TaskResult<seq<Article>>)
    ensures outcome == (if SourcesPresent(all) then Returned(NewsHits(all, q)) else Raised)
  {
    var queryLower := Lower(q);
    var results: seq<Article> := [];
    for i := 0 to |all|
      invariant SourcesPresent(all[..i])
      invariant results == NewsHits(all[..i], q)
    {
      var r := all[i].record;
      if r.source.None? {
        assert !all[i].record.source.Some?;
        return Raised;
      }
      var title := Lower(r.title);
      var description := Lower(r.description);
      var source := Lower(r.source.value);
      FilterSnoc(all[..i], all[i], NewsTest(q));
      assert all[..i + 1] == all[..i] + [all[i]];
      if Contains(title, queryLower) || Contains(description, queryLower) || Contains(source, queryLower) {
        results := results + [all[i]];
      }
    }
    assert all[..|all|] == all;
    return Returned(results);
  }

  /** One more video in the loop: it is kept exactly when it matches, and the prefix keeps all three fields. */
  lemma VideoStep(videos: seq<Video>, i: nat, q: string)
    requires i < |videos| && VideoFieldsPresent(videos[..i])
    requires videos[i].title.Some? && videos[i].description.Some? && videos[i].channel.Some?
    ensures VideoFieldsPresent(videos[..i + 1])
    ensures VideoHits(videos[..i + 1], q) == VideoHits(videos[..i], q) + (if VideoMatches(videos[i], q) then [videos[i]] else [])
  {
    assert videos[..i + 1] == videos[..i] + [videos[i]];
    FilterSnoc(videos[..i], videos[i], VideoTest(q));
  }

  /** The loop over the videos: lower-cases the three fields of each and keeps the matches. */
  method SearchVideos(videos: seq<Video>, q: string) returns (outcome: TaskResult<seq<Video>>)
    ensures outcome == (if VideoFieldsPresent(videos) then Returned(VideoHits(videos, q)) else Raised)
  {
    var queryLower := Lower(q);
    var results: seq<Video> := [];
    for i := 0 to |videos|
      invariant VideoFieldsPresent(videos[..i])
      invariant results == VideoHits(videos[..i], q)
    {
      var v := videos[i];
      if v.title.None? || v.description.None? || v.channel.None? {
        assert !(videos[i].title.Some? && videos[i].description.Some? && videos[i].channel.Some?);
        return Raised;
      }
      var title := Lower(v.title.value);
      var description := Lower(v.description.value);
      var channel := Lower(v.channel.value);
      VideoStep(videos, i, q);
      if Contains(title, queryLower) || Contains(description, queryLower) || Contains(channel, queryLower) {
        results := results + [v];
      }
    }
    assert videos[..|videos|] == videos;
    return Returned(results);
  }

  lemma SearchKeyIsNotAllNews(q: string)
    ensures SearchKey(q) != AllNewsKey
  {
    assert SearchKey(q)[0] == 's' && AllNewsKey[0] == 'a';
  }

  /** Fetches the videos and searches them. */
  method FindVideos(q: string, up: Upstream, rt: Runtime) returns (outcome: TaskResult<seq<Video>>)
    requires |up.youtube| == 2 * FetchYoutube.TasksPerKind
    ensures var videos := SnapshotVideos(up, rt);
            outcome == (if VideoFieldsPresent(videos) then Returned(VideoHits(videos, q)) else Raised)
  {
    var videos := FetchYoutube.FetchAllYoutubeVideos(up.youtubeKey, up.youtube, rt);
    outcome := SearchVideos(videos, q);
  }

  /** The answer of `search(q)` once the article list is known: search it, then fetch and
      search the videos. (The answer is stated for every snapshot equal to `up`, which is the
      answer for `up` itself, so that the callers' proofs do not unfold the fetch pipeline.) */
  method SearchResults(q: string, all: seq<Article>, up: Upstream, rt: Runtime) returns (outcome: TaskResult<Payload>)
    requires |up.youtube| == 2 * FetchYoutube.TasksPerKind
    ensures forall u :: u == up ==> outcome == SearchOutcome(all, SnapshotVideos(u, rt), q)
    ensures outcome.Returned? ==> outcome.value.SearchResult?
  {
    var news := SearchNews(all, q);
    if news.Raised? {
      return Raised;
    }
    var found := FindVideos(q, up, rt);
    if found.Raised? {
      return Raised;
    }
    outcome := Returned(SearchResult(q, news.value, found.value, |news.value|, |found.value|));
  }

  /** The rest of `search(q)` once the article list is known: compute the answer and store it
      under the query's key. The cache holds what `get_all_news()` left behind from `before`. */
  method SearchFresh(cache: Cache<Payload>, q: string, all: seq<Article>, up: Upstream, rt: Runtime, now: int,
                     ghost before: map<string, Entry<Payload>>)
    returns (outcome: TaskResult<Payload>)
    requires |up.youtube| == 2 * FetchYoutube.TasksPerKind
    requires Consistent(cache.entries)
    requires cache.entries == AfterAllNews(before, all, now, cache.ttl)
    modifies cache
    ensures Consistent(cache.entries)
    ensures forall u :: u == up ==> outcome == SearchOutcome(all, SnapshotVideos(u, rt), q)
    ensures outcome.Raised? ==> cache.entries == AfterAllNews(before, all, now, cache.ttl)
    ensures outcome.Returned? ==> ViewStored(before, cache.entries, all, SearchKey(q), outcome.value, now, cache.ttl)
  {
    outcome := SearchResults(q, all, up, rt);
    if outcome.Returned? {
      SearchKeyIsNotAllNews(q);
      ConsistentStoreView(cache.entries, SearchKey(q), outcome.value, now + cache.ttl);
      cache.Set(SearchKey(q), outcome.value, now);
    }
  }

  /** The miss path of `search(q)`: the current article list, then the answer over it and the
      fetched videos, stored under the query's key unless the search raised. */
  method RefreshSearch(cache: Cache<Payload>, q: string, up: Upstream, rt: Runtime)
    returns (all: seq<Article>, outcome: TaskResult<Payload>)
    requires up.Complete() && Consistent(cache.entries)
    modifies cache
    ensures Consistent(cache.entries)
    ensures AllNewsKey in cache.entries && cache.entries[AllNewsKey].value == NewsList(all)
    ensures AllNewsAnswer(old(cache.entries), all, up, rt)
    ensures forall u :: u == up ==> outcome == SearchOutcome(all, SnapshotVideos(u, rt), q)
    ensures outcome.Raised? ==> cache.entries == AfterAllNews(old(cache.entries), all, rt.clock.local, cache.ttl)
    ensures outcome.Returned? ==>
              ViewStored(old(cache.entries), cache.entries, all, SearchKey(q), outcome.value, rt.clock.local, cache.ttl)
  {
    all := GetAllNews(cache, up, rt);
    outcome := SearchFresh(cache, q, all, up, rt, rt.clock.local, old(cache.entries));
    SearchKeyIsNotAllNews(q);
  }

  /** `search(q)`: a cached answer is returned as is; otherwise the current article list and
      the fetched videos are searched, and the answer is stored and returned. */
  method SearchAll(cache: Cache<Payload>, q: string, up: Upstream, rt: Runtime) returns (outcome: TaskResult<Payload>)
    requires up.Complete() && Consistent(cache.entries)
    modifies cache
    ensures Consistent(cache.entries)
    ensures var now := rt.clock.local;
            var hit := Lookup(old(cache.entries), SearchKey(q), now);
            if hit.Some? && hit.value.IsTruthy() then
              outcome == Returned(hit.value) && cache.entries == old(cache.entries)
            else
              var evicted := AfterGet(old(cache.entries), SearchKey(q), now);
              && AllNewsKey in cache.entries && cache.entries[AllNewsKey].value.NewsList?
              && var all := cache.entries[AllNewsKey].value.items;
                 && AllNewsAnswer(evicted, all, up, rt)
                 && (forall u :: u == up ==> outcome == SearchOutcome(all, SnapshotVideos(u, rt), q))
                 && (outcome.Raised? ==> cache.entries == AfterAllNews(evicted, all, now, cache.ttl))
                 && (outcome.Returned? ==> ViewStored(evicted, cache.entries, all, SearchKey(q), outcome.value, now, cache.ttl))
  {
    var now := rt.clock.local;
    var cached := cache.Get(SearchKey(q), now);
    if cached.Some? && cached.value.IsTruthy() {
      return Returned(cached.value);
    }
    var all;
    all, outcome := RefreshSearch(cache, q, up, rt);
  }

  // ---------------------------------------------------------------------------
  // Properties
  // ---------------------------------------------------------------------------

  /** Distinct queries have distinct cache entries, even when they differ only in case. */
  lemma SearchKeyInjective(q1: string, q2: string)
    ensures SearchKey(q1) == SearchKey(q2) <==> q1 == q2
  {
    if SearchKey(q1) == SearchKey(q2) {
      assert q1 == SearchKey(q1)[7..] == SearchKey(q2)[7..] == q2;
    }
  }

  /** The answers are exactly the matching articles and videos, in their original order. */
  lemma HitsAreOrderedMatches(all: seq<Article>, videos: seq<Video>, q: string)
    ensures SubsequenceOf(NewsHits(all, q), all)
    ensures forall a :: a in NewsHits(all, q) <==> a in all && ArticleMatches(a.record, q)
    ensures SubsequenceOf(VideoHits(videos, q), videos)
    ensures forall v :: v in VideoHits(videos, q) <==> v in videos && VideoMatches(v, q)
  {
    FilterSubsequence(all, NewsTest(q));
    FilterSubsequence(videos, VideoTest(q));
  }

  /** An empty query is contained in every string, so every article and every video matches. */
  lemma EmptyQueryMatchesAll(all: seq<Article>, videos: seq<Video>)
    ensures NewsHits(all, "") == all
    ensures VideoFieldsPresent(videos) ==> VideoHits(videos, "") == videos
  {
    assert Lower("") == "";
    forall a | a in all
      ensures ArticleMatches(a.record, "")
    {
      ContainsEmpty(Lower(a.record.title));
    }
    FilterAll(all, NewsTest(""));
    if VideoFieldsPresent(videos) {
      forall v | v in videos
        ensures VideoMatches(v, "")
      {
        ContainsEmpty(Lower(v.title.value));
      }
      FilterAll(videos, VideoTest(""));
    }
  }

  /** Queries that differ only in case find the same articles and videos (under separate keys). */
  lemma SameMatchesUpToCase(all: seq<Article>, videos: seq<Video>, q1: string, q2: string)
    requires Lower(q1) == Lower(q2)
    ensures NewsHits(all, q1) == NewsHits(all, q2)
    ensures VideoHits(videos, q1) == VideoHits(videos, q2)
  {
    FilterSame(all, NewsTest(q1), NewsTest(q2));
    FilterSame(videos, VideoTest(q1), VideoTest(q2));
  }
}
