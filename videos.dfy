/** The video router (backend/routers/videos.py): the full video list, cached under
    "all_videos", or the videos of one category, picked by keywords in the title. */
module Videos {
  import opened Types
  import opened Strings
  import opened CleanData
  import opened Filters
  import opened TtlCache
  import opened News
  import FetchYoutube

  const AllVideosKey: string := "all_videos"

  const TalkWords: seq<string> := ["talk", "conference", "presentation"]
  const DemoWords: seq<string> := ["demo", "demonstration", "showcase"]
  const ResearchWords: seq<string> := ["research", "paper", "study"]

  /** The title keywords of a lower-cased category name; no keyword for any other name. */
  function CategoryWords(category: string): seq<string> {
    if category == "talks" then TalkWords
    else if category == "demos" then DemoWords
    else if category == "research" then ResearchWords
    else []
  }

  /** The category test: a keyword of the lower-cased category occurs in the lower-cased
      title. The description plays no part. */
  predicate InCategory(v: Video, category: string) {
    v.title.Some? && AnyIn(CategoryWords(Lower(category)), Lower(v.title.value))
  }

  function CategoryTest(category: string): Video -> bool {
    (v: Video) => InCategory(v, category)
  }

  /** The videos of a category, in list order. */
  function CategoryHits(videos: seq<Video>, category: string): seq<Video> {
    Filter(videos, CategoryTest(category))
  }

  /** Every video has a title and a description; the loop lower-cases both, and `None.lower()` raises. */
  predicate TitlesPresent(videos: seq<Video>) {
    forall i :: 0 <= i < |videos| ==> videos[i].title.Some? && videos[i].description.Some?
  }

  /** The answer to a request with a category. */
  function CategoryOutcome(videos: seq<Video>, category: string): TaskResult<Payload> {
    if TitlesPresent(videos) then
      var hits := CategoryHits(videos, category);
      Returned(VideosView(hits, |hits|))
    else Raised
  }

  /** `any(k in text for k in [a, b, c])` is the three tests joined by `or`. */
  lemma AnyInThree(a: string, b: string, c: string, text: string)
    ensures AnyIn([a, b, c], text) <==> Contains(text, a) || Contains(text, b) || Contains(text, c)
  {
    if Contains(text, a) {
      assert a in [a, b, c];
    } else if Contains(text, b) {
      assert b in [a, b, c];
    } else if Contains(text, c) {
      assert c in [a, b, c];
    }
  }

  /** One more video in the loop: it is kept exactly when it is in the category, and the prefix keeps both fields. */
  lemma CategoryStep(videos: seq<Video>, i: nat, category: string)
    requires i < |videos| && TitlesPresent(videos[..i])
    requires videos[i].title.Some? && videos[i].description.Some?
    ensures TitlesPresent(videos[..i + 1])
    ensures CategoryHits(videos[..i + 1], category) ==
            CategoryHits(videos[..i], category) + (if InCategory(videos[i], category) then [videos[i]] else [])
  {
    assert videos[..i + 1] == videos[..i] + [videos[i]];
    FilterSnoc(videos[..i], videos[i], CategoryTest(category));
  }

  /** The loop of `get_videos` with a category: keeps the videos whose title matches, or raises. */
  method FilterByCategory(videos: seq<Video>, category: string) returns (outcome: TaskResult<seq<Video>>)
    ensures outcome == (if TitlesPresent(videos) then Returned(CategoryHits(videos, category)) else Raised)
  {
    var categoryLower := Lower(category);
    var filtered: seq<Video> := [];
    for i := 0 to |videos|
      invariant TitlesPresent(videos[..i])
      invariant filtered == CategoryHits(videos[..i], category)
    {
      var v := videos[i];
      if v.title.None? || v.description.None? {
        assert !(videos[i].title.Some? && videos[i].description.Some?);
        return Raised;
      }
      var titleLower := Lower(v.title.value);
      var descLower := Lower(v.description.value);
      AnyInThree("talk", "conference", "presentation", titleLower);
      AnyInThree("demo", "demonstration", "showcase", titleLower);
      AnyInThree("research", "paper", "study", titleLower);
      CategoryStep(videos, i, category);
      if categoryLower == "talks" && (Contains(titleLower, "talk") || Contains(titleLower, "conference") || Contains(titleLower, "presentation")) {
        filtered := filtered + [v];
      } else if categoryLower == "demos" && (Contains(titleLower, "demo") || Contains(titleLower, "demonstration") || Contains(titleLower, "showcase")) {
        filtered := filtered + [v];
      } else if categoryLower == "research" && (Contains(titleLower, "research") || Contains(titleLower, "paper") || Contains(titleLower, "study")) {
        filtered := filtered + [v];
      }
    }
    assert videos[..|videos|] == videos;
    return Returned(filtered);
  }

  lemma AllVideosKeyIsNotAllNews()
    ensures AllVideosKey != AllNewsKey
  {
    assert AllVideosKey[4] == 'v' && AllNewsKey[4] == 'n';
  }

  /** The answer of `get_videos` when it does not use the cache: the fetched list, filtered when
      a category is given. (Stated for every snapshot equal to `up`, which is the answer for `up`
      itself, so that the caller's proof does not unfold the fetch pipeline.) */
  method ListVideos(category: Option<string>, up: Upstream, rt: Runtime) returns (outcome: TaskResult<Payload>)
    requires |up.youtube| == 2 * FetchYoutube.TasksPerKind
    ensures forall u :: u == up ==>
              var videos := SnapshotVideos(u, rt);
              outcome == if !Truthy(category) then Returned(VideosView(videos, |videos|)) else CategoryOutcome(videos, category.value)
    ensures !Truthy(category) ==> outcome.Returned?
    ensures outcome.Returned? ==> outcome.value.VideosView?
  {
    var videos := FetchYoutube.FetchAllYoutubeVideos(up.youtubeKey, up.youtube, rt);
    if Truthy(category) {
      var filtered := FilterByCategory(videos, category.value);
      if filtered.Raised? {
        return Raised;
      }
      videos := filtered.value;
    }
    return Returned(VideosView(videos, |videos|));
  }

  /** `get_videos(category)`: "all_videos" is always looked up, but the cached list is returned
      only without a category; otherwise the videos are fetched, filtered when a category is
      given, and stored only when none is. */
  method GetVideos(cache: Cache<Payload>, category: Option<string>, up: Upstream, rt: Runtime)
    returns (outcome: TaskResult<Payload>)
    requires |up.youtube| == 2 * FetchYoutube.TasksPerKind && Consistent(cache.entries)
    modifies cache
    ensures Consistent(cache.entries)
    ensures Served(old(cache.entries), AllVideosKey, rt.clock.local).Some? && !Truthy(category) ==>
              outcome == Returned(Served(old(cache.entries), AllVideosKey, rt.clock.local).value) &&
              cache.entries == old(cache.entries)
    ensures Truthy(category) ==> cache.entries == AfterGet(old(cache.entries), AllVideosKey, rt.clock.local)
    ensures Served(old(cache.entries), AllVideosKey, rt.clock.local).None? && !Truthy(category) ==>
              outcome.Returned? &&
              cache.entries == AfterGet(old(cache.entries), AllVideosKey, rt.clock.local)[AllVideosKey := Entry(outcome.value, rt.clock.local + cache.ttl)]
    ensures Served(old(cache.entries), AllVideosKey, rt.clock.local).None? || Truthy(category) ==>
              forall u :: u == up ==>
                var videos := SnapshotVideos(u, rt);
                outcome == if !Truthy(category) then Returned(VideosView(videos, |videos|)) else CategoryOutcome(videos, category.value)
  {
    var cached := cache.Get(AllVideosKey, rt.clock.local);
    if cached.Some? && cached.value.IsTruthy() && !Truthy(category) {
      assert Served(old(cache.entries), AllVideosKey, rt.clock.local) == cached;
      return Returned(cached.value);
    }
    assert !Truthy(category) ==> Served(old(cache.entries), AllVideosKey, rt.clock.local) == None;
    ConsistentAfterGet(old(cache.entries), AllVideosKey, rt.clock.local);
    outcome := ListVideos(category, up, rt);
    if outcome.Returned? && !Truthy(category) {
      AllVideosKeyIsNotAllNews();
      ConsistentStoreView(cache.entries, AllVideosKey, outcome.value, rt.clock.local + cache.ttl);
      cache.Set(AllVideosKey, outcome.value, rt.clock.local);
    }
  }

  // ---------------------------------------------------------------------------
  // Properties
  // ---------------------------------------------------------------------------

  /** A category's videos are exactly the listed videos that pass its test, in their original order. */
  lemma CategoryHitsAreOrderedMatches(videos: seq<Video>, category: string)
    ensures SubsequenceOf(CategoryHits(videos, category), videos)
    ensures forall v :: v in CategoryHits(videos, category) <==> v in videos && InCategory(v, category)
  {
    FilterSubsequence(videos, CategoryTest(category));
  }

  /** A category other than the three known ones selects nothing. */
  lemma UnknownCategoryIsEmpty(videos: seq<Video>, category: string)
    requires Lower(category) != "talks" && Lower(category) != "demos" && Lower(category) != "research"
    ensures CategoryHits(videos, category) == []
  {
    assert CategoryWords(Lower(category)) == [];
    FilterNone(videos, CategoryTest(category));
  }

  /** The category name is compared after lower-casing: "Talks" and "talks" select the same videos. */
  lemma CategoryCaseInsensitive(videos: seq<Video>, c1: string, c2: string)
    requires Lower(c1) == Lower(c2)
    ensures CategoryHits(videos, c1) == CategoryHits(videos, c2)
  {
    FilterSame(videos, CategoryTest(c1), CategoryTest(c2));
  }

  /** Each known category selects by its own three keywords. */
  lemma KnownCategories(v: Video, t: string)
    requires v.title == Some(t)
    ensures InCategory(v, "talks") <==> Contains(Lower(t), "talk") || Contains(Lower(t), "conference") || Contains(Lower(t), "presentation")
    ensures InCategory(v, "demos") <==> Contains(Lower(t), "demo") || Contains(Lower(t), "demonstration") || Contains(Lower(t), "showcase")
    ensures InCategory(v, "research") <==> Contains(Lower(t), "research") || Contains(Lower(t), "paper") || Contains(Lower(t), "study")
  {
    assert Lower("talks") == "talks" && Lower("demos") == "demos" && Lower("research") == "research";
    AnyInThree("talk", "conference", "presentation", Lower(t));
    AnyInThree("demo", "demonstration", "showcase", Lower(t));
    AnyInThree("research", "paper", "study", Lower(t));
  }
}
