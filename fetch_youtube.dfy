/** backend/utils/fetch_youtube.py: the six YouTube searches, the per-item
    conversion into video records, the mock list that stands in for a missing
    key or a failed request, and the merge (first video per id wins), sort by
    publish time and truncation to 50. */
module FetchYoutube {
  import opened Types
  import opened Strings
  import opened CleanData
  import opened Sorting

  datatype Channel = Channel(id: string, name: string)

  /** The configured channels; the second and third share one channel id. */
  const YoutubeChannels: seq<Channel> := [
    Channel("UCr0ail1RdXdusqeqco44loA", "OpenAI"),
    Channel("UC0e3QhIYukixgh5VVpKHH9Q", "Google Research"),
    Channel("UC0e3QhIYukixgh5VVpKHH9Q", "DeepMind"),
    Channel("UCqk7Cd8Lv1sqG3Jpq3BnsGw", "Anthropic")
  ]

  const YoutubeSearchQueries: seq<string> := [
    "artificial intelligence research",
    "AI breakthrough",
    "machine learning conference",
    "ICLR",
    "NeurIPS",
    "AI safety",
    "AGI research"
  ]

  /** How many channels and how many queries are searched. */
  const TasksPerKind: nat := 3
  /** The `max_results` of every search. */
  const ResultsPerTask: int := 5
  /** The length the merged list is cut to. */
  const MaxVideos: nat := 50

  /** The arguments of one `fetch_youtube_videos` call. */
  datatype Request = Request(channelId: Option<string>, query: Option<string>, maxResults: int)

  /** One element of the response's `items`. `nullObject` records that one of the objects the
      fields are read through (`id`, `snippet`, `snippet.thumbnails`, `.high`) is JSON `null`,
      on which the chained `.get` raises. */
  datatype YtItem = YtItem(
    videoId: JsonField,
    title: JsonField,
    description: JsonField,
    thumbnail: JsonField,
    channelTitle: JsonField,
    publishedAt: JsonField,
    channelId: JsonField,
    nullObject: bool)

  const MockId1: string := "dQw4w9WgXcQ"
  const MockTitle1: string := "AI Research Breakthrough: Understanding Large Language Models"
  const MockDescription1: string := "Exploring the latest advances in AI research and LLM capabilities."
  const MockThumbnail1: string := "https://img.youtube.com/vi/dQw4w9WgXcQ/maxresdefault.jpg"
  const MockId2: string := "jNQXAC9IVRw"
  const MockTitle2: string := "DeepMind: Latest AI Safety Research"
  const MockDescription2: string := "DeepMind researchers discuss AI safety and alignment."
  const MockThumbnail2: string := "https://img.youtube.com/vi/jNQXAC9IVRw/maxresdefault.jpg"

  /** `get_mock_videos()`: two fixed videos stamped with the current time. */
  function MockVideos(rt: Runtime): seq<Video> {
    var now := rt.isoformat(Now(rt));
    [Video(Some(MockId1), Some(MockTitle1), Some(MockDescription1), Some(MockThumbnail1), Some("OpenAI"), now, Some("UCr0ail1RdXdusqeqco44loA")),
     Video(Some(MockId2), Some(MockTitle2), Some(MockDescription2), Some(MockThumbnail2), Some("DeepMind"), now, Some("UC0e3QhIYukixgh5VVpKHH9Q"))]
  }

  /** The video dictionary built from one item, `published_at` already replaced. */
  function VideoRecord(item: YtItem, rt: Runtime): Video {
    Video(
      Get(item.videoId, ""),
      Get(item.title, ""),
      Get(item.description, ""),
      Get(item.thumbnail, ""),
      Get(item.channelTitle, ""),
      PublishedIso(Get(item.publishedAt, "").GetOr(""), rt),
      Get(item.channelId, ""))
  }

  /** `video["id"] and video["title"]`. */
  predicate Kept(v: Video) {
    Truthy(v.id) && Truthy(v.title)
  }

  function ItemVideos(items: seq<YtItem>, rt: Runtime): seq<Video> {
    if items == [] then []
    else
      var v := VideoRecord(items[|items| - 1], rt);
      ItemVideos(items[..|items| - 1], rt) + (if Kept(v) then [v] else [])
  }

  predicate HasNullObject(items: seq<YtItem>) {
    exists k :: 0 <= k < |items| && items[k].nullObject
  }

  /** What one `fetch_youtube_videos` call returns: the mock list without a key, on a failed request,
      or when reading some item raises; else the videos with an id and a title, in response order. */
  function VideosResult(apiKey: string, fetched: Fetch<seq<YtItem>>, rt: Runtime): seq<Video> {
    if apiKey == "" then MockVideos(rt)
    else
      match fetched
      case Failed => MockVideos(rt)
      case Fetched(items) => if HasNullObject(items) then MockVideos(rt) else ItemVideos(items, rt)
  }

  /** The results of the searches answered by `responses`, in task order. */
  function Batches(apiKey: string, responses: seq<Fetch<seq<YtItem>>>, rt: Runtime): (bs: seq<seq<Video>>)
    ensures |bs| == |responses|
  {
    if responses == [] then []
    else Batches(apiKey, responses[..|responses| - 1], rt) + [VideosResult(apiKey, responses[|responses| - 1], rt)]
  }

  /** The batches laid end to end. */
  function Join(batches: seq<seq<Video>>): seq<Video> {
    if batches == [] then [] else Join(batches[..|batches| - 1]) + batches[|batches| - 1]
  }

  function VideoId(v: Video): Option<string> {
    v.id
  }

  /** The sort key `x.get("published_at", "")`. */
  function VideoDate(v: Video): string {
    v.publishedAt
  }

  function Ids(xs: seq<Video>): set<Option<string>> {
    set v | v in xs :: v.id
  }

  /** The merge loop's output: each video whose id has not been seen earlier in the list. */
  function KeepFirst(xs: seq<Video>): seq<Video> {
    if xs == [] then []
    else
      var n := |xs| - 1;
      KeepFirst(xs[..n]) + (if xs[n].id in Ids(xs[..n]) then [] else [xs[n]])
  }

  /** The merged list sorted newest first and cut to 50. */
  function Finish(merged: seq<Video>): seq<Video> {
    var sorted := SortDesc(merged, VideoDate, StrLt);
    sorted[..Min(MaxVideos, |sorted|)]
  }

  /** What `fetch_all_youtube_videos()` returns. */
  function AllVideos(apiKey: string, responses: seq<Fetch<seq<YtItem>>>, rt: Runtime): seq<Video> {
    Finish(KeepFirst(Join(Batches(apiKey, responses, rt))))
  }

  /** The task list of `fetch_all_youtube_videos`: the first three channels, then the first three queries. */
  method PlanRequests() returns (tasks: seq<Request>)
    ensures |tasks| == 2 * TasksPerKind
    ensures forall i :: 0 <= i < TasksPerKind ==> tasks[i] == Request(Some(YoutubeChannels[i].id), None, ResultsPerTask)
    ensures forall i :: 0 <= i < TasksPerKind ==> tasks[TasksPerKind + i] == Request(None, Some(YoutubeSearchQueries[i]), ResultsPerTask)
    ensures tasks[1] == tasks[2]
  {
    tasks := [];
    for i := 0 to TasksPerKind
      invariant |tasks| == i
      invariant forall k :: 0 <= k < i ==> tasks[k] == Request(Some(YoutubeChannels[k].id), None, ResultsPerTask)
    {
      tasks := tasks + [Request(Some(YoutubeChannels[i].id), None, ResultsPerTask)];
    }
    for i := 0 to TasksPerKind
      invariant |tasks| == TasksPerKind + i
      invariant forall k :: 0 <= k < TasksPerKind ==> tasks[k] == Request(Some(YoutubeChannels[k].id), None, ResultsPerTask)
      invariant forall k :: 0 <= k < i ==> tasks[TasksPerKind + k] == Request(None, Some(YoutubeSearchQueries[k]), ResultsPerTask)
    {
      tasks := tasks + [Request(None, Some(YoutubeSearchQueries[i]), ResultsPerTask)];
    }
  }

  /** The body of the item loop of `fetch_youtube_videos`. */
  method ConvertItem(item: YtItem, rt: Runtime) returns (video: Video)
    ensures video == VideoRecord(item, rt)
  {
    var publishedAt := PublishedAt(Get(item.publishedAt, ""), rt);
    video := Video(Get(item.videoId, ""), Get(item.title, ""), Get(item.description, ""), Get(item.thumbnail, ""),
                   Get(item.channelTitle, ""), publishedAt, Get(item.channelId, ""));
  }

  lemma ItemStep(items: seq<YtItem>, i: nat, rt: Runtime)
    requires i < |items| && !HasNullObject(items[..i]) && !items[i].nullObject
    ensures !HasNullObject(items[..i + 1])
    ensures ItemVideos(items[..i + 1], rt) ==
            ItemVideos(items[..i], rt) + (if Kept(VideoRecord(items[i], rt)) then [VideoRecord(items[i], rt)] else [])
  {
    assert items[..i + 1][..i] == items[..i];
  }

  /** `fetch_youtube_videos()`: the mock list without a key or on any exception, else the item loop. */
  method FetchYoutubeVideos(apiKey: string, fetched: Fetch<seq<YtItem>>, rt: Runtime) returns (videos: seq<Video>)
    ensures videos == VideosResult(apiKey, fetched, rt)
  {
    if apiKey == "" || fetched.Failed? {
      return MockVideos(rt);
    }
    var items := fetched.data;
    videos := [];
    for i := 0 to |items|
      invariant !HasNullObject(items[..i])
      invariant videos == ItemVideos(items[..i], rt)
    {
      if items[i].nullObject {
        assert HasNullObject(items) by {
          assert items[i].nullObject;
        }
        return MockVideos(rt);
      }
      var video := ConvertItem(items[i], rt);
      ItemStep(items, i, rt);
      if video.id.Some? && video.id.value != "" && video.title.Some? && video.title.value != "" {
        videos := videos + [video];
      }
    }
    assert items[..|items|] == items;
  }

  lemma KeepFirstSnoc(xs: seq<Video>, v: Video)
    ensures KeepFirst(xs + [v]) == KeepFirst(xs) + (if v.id in Ids(xs) then [] else [v])
    ensures Ids(xs + [v]) == Ids(xs) + {v.id}
  {
    assert (xs + [v])[..|xs|] == xs;
    IdsSnoc(xs, v);
  }

  lemma JoinSnoc(batches: seq<seq<Video>>, r: nat)
    requires r < |batches|
    ensures Join(batches[..r + 1]) == Join(batches[..r]) + batches[r]
  {
    assert batches[..r + 1][..r] == batches[..r];
  }

  /** One more video of the current batch: kept exactly when its id has not been seen. */
  lemma MergeStep(done: seq<Video>, batch: seq<Video>, i: nat)
    requires i < |batch|
    ensures KeepFirst(done + batch[..i + 1])
         == KeepFirst(done + batch[..i]) + (if batch[i].id in Ids(done + batch[..i]) then [] else [batch[i]])
    ensures Ids(done + batch[..i + 1]) == Ids(done + batch[..i]) + {batch[i].id}
  {
    assert done + batch[..i + 1] == (done + batch[..i]) + [batch[i]];
    KeepFirstSnoc(done + batch[..i], batch[i]);
  }

  /** The inner merge loop over one batch: a video is appended when its id is not in `seen_ids`. */
  method MergeBatch(done: seq<Video>, batch: seq<Video>, seen0: set<Option<string>>, all0: seq<Video>)
    returns (seen: set<Option<string>>, all: seq<Video>)
    requires seen0 == Ids(done) && all0 == KeepFirst(done)
    ensures seen == Ids(done + batch) && all == KeepFirst(done + batch)
  {
    seen, all := seen0, all0;
    assert done + batch[..0] == done;
    for i := 0 to |batch|
      invariant seen == Ids(done + batch[..i])
      invariant all == KeepFirst(done + batch[..i])
    {
      var video := batch[i];
      MergeStep(done, batch, i);
      if video.id !in seen {
        seen := seen + {video.id};
        all := all + [video];
      }
    }
    assert batch[..|batch|] == batch;
  }

  /** The merge loop of `fetch_all_youtube_videos`: the set `seen_ids` and the list `all_videos`, grown batch by batch. */
  method MergeBatches(batches: seq<seq<Video>>) returns (all: seq<Video>)
    ensures all == KeepFirst(Join(batches))
  {
    all := [];
    var seen: set<Option<string>> := {};
    for r := 0 to |batches|
      invariant seen == Ids(Join(batches[..r]))
      invariant all == KeepFirst(Join(batches[..r]))
    {
      seen, all := MergeBatch(Join(batches[..r]), batches[r], seen, all);
      JoinSnoc(batches, r);
    }
    assert batches[..|batches|] == batches;
  }

  /** `fetch_all_youtube_videos()`: six searches, merged, sorted newest first, cut to 50. */
  method FetchAllYoutubeVideos(apiKey: string, responses: seq<Fetch<seq<YtItem>>>, rt: Runtime) returns (videos: seq<Video>)
    requires |responses| == 2 * TasksPerKind
    ensures videos == AllVideos(apiKey, responses, rt)
  {
    var tasks := PlanRequests();
    var results: seq<seq<Video>> := [];
    for i := 0 to |tasks|
      invariant results == Batches(apiKey, responses[..i], rt)
    {
      var batch := FetchYoutubeVideos(apiKey, responses[i], rt);
      assert responses[..i + 1][..i] == responses[..i];
      results := results + [batch];
    }
    assert responses[..|tasks|] == responses;
    var merged := MergeBatches(results);
    var sorted := SortDesc(merged, VideoDate, StrLt);
    videos := sorted[..Min(MaxVideos, |sorted|)];
  }

  // ---------------------------------------------------------------------------
  // Properties
  // ---------------------------------------------------------------------------

  /** Dropping repeats loses no id. */
  lemma {:induction false} KeepFirstIds(xs: seq<Video>)
    ensures Ids(KeepFirst(xs)) == Ids(xs)
  {
    if xs != [] {
      var n := |xs| - 1;
      KeepFirstIds(xs[..n]);
      assert xs == xs[..n] + [xs[n]];
      KeepFirstSnoc(xs[..n], xs[n]);
      if xs[n].id !in Ids(xs[..n]) {
        assert Ids(KeepFirst(xs[..n]) + [xs[n]]) == Ids(KeepFirst(xs[..n])) + {xs[n].id} by {
          KeepFirstSnoc(KeepFirst(xs[..n]), xs[n]);
        }
      }
    }
  }

  /** The merged list has no two videos with the same id. */
  lemma {:induction false} KeepFirstDistinct(xs: seq<Video>)
    ensures DistinctBy(KeepFirst(xs), VideoId)
  {
    if xs != [] {
      var n := |xs| - 1;
      KeepFirstDistinct(xs[..n]);
      KeepFirstIds(xs[..n]);
      var before := KeepFirst(xs[..n]);
      assert xs == xs[..n] + [xs[n]];
      KeepFirstSnoc(xs[..n], xs[n]);
      if xs[n].id !in Ids(xs[..n]) {
        var r := before + [xs[n]];
        forall i, j | 0 <= i < j < |r| ensures VideoId(r[i]) != VideoId(r[j]) {
          if j == |before| {
            assert r[i] == before[i] && r[i] in before;
          } else {
            assert r[i] == before[i] && r[j] == before[j];
          }
        }
      }
    }
  }

  /** The video at position `k` is the first one with its id. */
  ghost predicate FirstOfId(xs: seq<Video>, k: int)
    requires 0 <= k < |xs|
  {
    forall j :: 0 <= j < k ==> xs[j].id != xs[k].id
  }

  /** The merge keeps exactly the first video of every id: whatever it keeps is such a first
      occurrence, and every first occurrence is kept. */
  lemma {:induction false} KeepFirstFirstOccurrences(xs: seq<Video>)
    ensures forall v :: v in KeepFirst(xs) ==> exists k :: 0 <= k < |xs| && xs[k] == v && FirstOfId(xs, k)
    ensures forall k :: 0 <= k < |xs| && FirstOfId(xs, k) ==> xs[k] in KeepFirst(xs)
  {
    if xs != [] {
      var n := |xs| - 1;
      var front := xs[..n];
      KeepFirstFirstOccurrences(front);
      assert xs == front + [xs[n]];
      KeepFirstSnoc(front, xs[n]);
      forall v | v in KeepFirst(xs) ensures exists k :: 0 <= k < |xs| && xs[k] == v && FirstOfId(xs, k) {
        if v in KeepFirst(front) {
          var k :| 0 <= k < |front| && front[k] == v && FirstOfId(front, k);
          assert xs[k] == v;
          assert forall j :: 0 <= j < k ==> xs[j] == front[j];
        } else {
          assert v == xs[n] && xs[n].id !in Ids(front);
          forall j | 0 <= j < n ensures xs[j].id != xs[n].id {
            assert xs[j] == front[j] && front[j] in front;
          }
        }
      }
      forall k | 0 <= k < |xs| && FirstOfId(xs, k) ensures xs[k] in KeepFirst(xs) {
        if k < n {
          assert front[k] == xs[k];
          assert forall j :: 0 <= j < k ==> xs[j] == front[j];
          assert FirstOfId(front, k);
        } else {
          forall w | w in front ensures w.id != xs[n].id {
            var j :| 0 <= j < n && front[j] == w;
            assert xs[j] == w;
          }
        }
      }
    }
  }

  lemma {:induction false} ItemVideosShape(items: seq<YtItem>, rt: Runtime)
    ensures |ItemVideos(items, rt)| <= |items|
    ensures forall v :: v in ItemVideos(items, rt) ==> Kept(v) && exists k :: 0 <= k < |items| && v == VideoRecord(items[k], rt)
  {
    if items != [] {
      var n := |items| - 1;
      ItemVideosShape(items[..n], rt);
      forall v | v in ItemVideos(items[..n], rt) ensures exists k :: 0 <= k < |items| && v == VideoRecord(items[k], rt) {
        var k :| 0 <= k < n && v == VideoRecord(items[..n][k], rt);
        assert items[..n][k] == items[k];
      }
    }
  }

  /** The two mock videos have ids, titles and distinct ids. */
  lemma MockVideosProperties(rt: Runtime)
    ensures |MockVideos(rt)| == 2
    ensures forall v :: v in MockVideos(rt) ==> Kept(v)
    ensures Ids(MockVideos(rt)) == {Some(MockId1), Some(MockId2)}
    ensures MockId1 != MockId2
  {
    assert MockId1[0] != MockId2[0];
    assert |MockTitle1| > 0 && |MockTitle2| > 0;
  }

  /** One search yields the mock list without a key, on a failed request or when an item cannot be read;
      otherwise at most one video per item; either way only videos with an id and a title. */
  lemma VideosResultProperties(apiKey: string, fetched: Fetch<seq<YtItem>>, rt: Runtime)
    ensures apiKey == "" || fetched.Failed? ==> VideosResult(apiKey, fetched, rt) == MockVideos(rt)
    ensures apiKey != "" && fetched.Fetched? && !HasNullObject(fetched.data) ==>
              |VideosResult(apiKey, fetched, rt)| <= |fetched.data|
    ensures forall v :: v in VideosResult(apiKey, fetched, rt) ==> Kept(v)
  {
    MockVideosProperties(rt);
    if apiKey != "" && fetched.Fetched? && !HasNullObject(fetched.data) {
      ItemVideosShape(fetched.data, rt);
    }
  }

  lemma {:induction false} BatchesKept(apiKey: string, responses: seq<Fetch<seq<YtItem>>>, rt: Runtime)
    ensures forall v :: v in Join(Batches(apiKey, responses, rt)) ==> Kept(v)
  {
    if responses != [] {
      var n := |responses| - 1;
      BatchesKept(apiKey, responses[..n], rt);
      VideosResultProperties(apiKey, responses[n], rt);
      var bs := Batches(apiKey, responses, rt);
      assert bs[..|bs| - 1] == Batches(apiKey, responses[..n], rt);
    }
  }

  /** Sorting and cutting keep only merged videos, in descending order, min(50, n) of them, without
      creating a repeated id: no dropped video is newer than a kept one, and when there are no
      more than 50 they are all kept. */
  lemma FinishProperties(merged: seq<Video>)
    ensures |Finish(merged)| == Min(MaxVideos, |merged|)
    ensures SortedDesc(Finish(merged), VideoDate, StrLt)
    ensures forall v, w :: v in Finish(merged) && w in merged && StrLt(VideoDate(v), VideoDate(w)) ==> w in Finish(merged)
    ensures forall v :: v in Finish(merged) ==> v in merged
    ensures DistinctBy(merged, VideoId) ==> DistinctBy(Finish(merged), VideoId)
    ensures |merged| <= MaxVideos ==> multiset(Finish(merged)) == multiset(merged)
  {
    var sorted := SortDesc(merged, VideoDate, StrLt);
    StrLtIsStrictWeakOrder();
    SortDescCorrect(merged, VideoDate, StrLt);
    if DistinctBy(merged, VideoId) {
      SortDescDistinct(merged, VideoDate, StrLt, VideoId);
    }
    forall v | v in Finish(merged) ensures v in merged {
      assert v in multiset(sorted);
    }
    assert |sorted| == |merged| by {
      assert |multiset(sorted)| == |multiset(merged)|;
    }
    CutKeepsNewest(sorted, merged, Min(MaxVideos, |sorted|));
    if |merged| <= MaxVideos {
      assert Finish(merged) == sorted;
    }
  }

  /** Cutting a newest-first permutation of `merged` after `m` videos drops none newer than a kept one. */
  lemma CutKeepsNewest(sorted: seq<Video>, merged: seq<Video>, m: nat)
    requires SortedDesc(sorted, VideoDate, StrLt) && multiset(sorted) == multiset(merged) && m <= |sorted|
    ensures forall v, w :: v in sorted[..m] && w in merged && StrLt(VideoDate(v), VideoDate(w)) ==> w in sorted[..m]
  {
    forall v, w | v in sorted[..m] && w in merged && StrLt(VideoDate(v), VideoDate(w))
      ensures w in sorted[..m]
    {
      var i :| 0 <= i < m && sorted[i] == v;
      assert w in multiset(sorted);
      var j :| 0 <= j < |sorted| && sorted[j] == w;
      assert j < m;
      assert sorted[..m][j] == w;
    }
  }

  /** The merged result is newest first by its `published_at` string, holds the 50 newest merged
      videos (all of them when there are fewer), no repeated id, and only videos with an id and
      a title. */
  lemma AllVideosProperties(apiKey: string, responses: seq<Fetch<seq<YtItem>>>, rt: Runtime)
    ensures |AllVideos(apiKey, responses, rt)| == Min(MaxVideos, |KeepFirst(Join(Batches(apiKey, responses, rt)))|)
    ensures SortedDesc(AllVideos(apiKey, responses, rt), VideoDate, StrLt)
    ensures var merged, kept := KeepFirst(Join(Batches(apiKey, responses, rt))), AllVideos(apiKey, responses, rt);
            forall v, w :: v in kept && w in merged && StrLt(VideoDate(v), VideoDate(w)) ==> w in kept
    ensures DistinctBy(AllVideos(apiKey, responses, rt), VideoId)
    ensures forall v :: v in AllVideos(apiKey, responses, rt) ==> Kept(v)
  {
    var joined := Join(Batches(apiKey, responses, rt));
    KeepFirstDistinct(joined);
    FinishProperties(KeepFirst(joined));
    BatchesKept(apiKey, responses, rt);
    KeepFirstFirstOccurrences(joined);
  }

  lemma {:induction false} JoinAllMock(apiKey: string, responses: seq<Fetch<seq<YtItem>>>, rt: Runtime)
    requires apiKey == "" && responses != []
    ensures Ids(Join(Batches(apiKey, responses, rt))) == Ids(MockVideos(rt))
  {
    var n := |responses| - 1;
    var bs := Batches(apiKey, responses, rt);
    assert bs[..|bs| - 1] == Batches(apiKey, responses[..n], rt);
    var front := Join(Batches(apiKey, responses[..n], rt));
    if n > 0 {
      JoinAllMock(apiKey, responses[..n], rt);
    }
    assert Join(bs) == front + MockVideos(rt);
    assert Ids(front + MockVideos(rt)) == Ids(front) + Ids(MockVideos(rt)) by {
      forall v | v in front + MockVideos(rt) ensures v in front || v in MockVideos(rt) {
      }
    }
  }

  lemma IdsSnoc(xs: seq<Video>, v: Video)
    ensures Ids(xs + [v]) == Ids(xs) + {v.id}
  {
    assert forall w :: w in xs + [v] <==> w in xs || w == v;
  }

  /** In a list without repeated ids, the prefix has none either and the last id is new. */
  lemma DistinctSplit(xs: seq<Video>)
    requires xs != [] && DistinctBy(xs, VideoId)
    ensures DistinctBy(xs[..|xs| - 1], VideoId)
    ensures xs[|xs| - 1].id !in Ids(xs[..|xs| - 1])
  {
    var n := |xs| - 1;
    var front := xs[..n];
    forall i, j | 0 <= i < j < |front| ensures VideoId(front[i]) != VideoId(front[j]) {
      assert front[i] == xs[i] && front[j] == xs[j];
    }
    forall w | w in front ensures w.id != xs[n].id {
      var j :| 0 <= j < n && front[j] == w;
      assert xs[j] == w && VideoId(xs[j]) != VideoId(xs[n]);
    }
  }

  lemma {:induction false} DistinctIdsCount(xs: seq<Video>)
    requires DistinctBy(xs, VideoId)
    ensures |Ids(xs)| == |xs|
  {
    if xs != [] {
      var n := |xs| - 1;
      DistinctSplit(xs);
      DistinctIdsCount(xs[..n]);
      assert xs == xs[..n] + [xs[n]];
      IdsSnoc(xs[..n], xs[n]);
    }
  }

  /** Two lists with the same elements have the same ids and length. */
  lemma IdsOfPermutation(xs: seq<Video>, ys: seq<Video>)
    requires multiset(xs) == multiset(ys)
    ensures Ids(xs) == Ids(ys) && |xs| == |ys|
  {
    assert |multiset(xs)| == |xs| && |multiset(ys)| == |ys|;
    forall v | v in xs ensures v in ys {
      assert v in multiset(xs);
    }
    forall v | v in ys ensures v in xs {
      assert v in multiset(ys);
    }
  }

  /** Without an API key every search yields the mock list, so the merge holds just the two mock videos. */
  lemma NoKeyMergesMock(responses: seq<Fetch<seq<YtItem>>>, rt: Runtime)
    requires responses != []
    ensures |KeepFirst(Join(Batches("", responses, rt)))| == 2
    ensures Ids(KeepFirst(Join(Batches("", responses, rt)))) == {Some(MockId1), Some(MockId2)}
  {
    var joined := Join(Batches("", responses, rt));
    JoinAllMock("", responses, rt);
    MockVideosProperties(rt);
    KeepFirstIds(joined);
    KeepFirstDistinct(joined);
    DistinctIdsCount(KeepFirst(joined));
  }

  /** Without an API key the result is exactly the two mock videos' ids. */
  lemma NoKeyGivesMockIds(responses: seq<Fetch<seq<YtItem>>>, rt: Runtime)
    requires |responses| == 2 * TasksPerKind
    ensures |AllVideos("", responses, rt)| == 2
    ensures Ids(AllVideos("", responses, rt)) == {Some(MockId1), Some(MockId2)}
  {
    var merged := KeepFirst(Join(Batches("", responses, rt)));
    NoKeyMergesMock(responses, rt);
    FinishProperties(merged);
    IdsOfPermutation(Finish(merged), merged);
  }
}
