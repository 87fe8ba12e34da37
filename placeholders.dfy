/** The placeholder pictures the adapters and the news card fall back on:
    one constant per picture, and the two 15-entry pools built from them. */
module Placeholders {

  /** The address of an Unsplash picture, cropped to 800 by 600. */
  function Unsplash(id: string): (url: string)
    ensures |url| > 0
  {
    "https://images.unsplash.com/photo-" + id + "?w=800&h=600&fit=crop"
  }

  // The Unsplash photo ids.

  const Photo1677442136019: string := "1677442136019-21780ecad995"
  const Photo1485827404703: string := "1485827404703-89b55fcc595e"
  const Photo1555255707: string := "1555255707-c07966088b7b"
  const Photo1488590528505: string := "1488590528505-98d2b5aba04b"
  const Photo1518770660439: string := "1518770660439-4636190af475"
  const Photo1504639725590: string := "1504639725590-34d0984388bd"
  const Photo1451187580459: string := "1451187580459-43490279c0fa"
  const Photo1558494949: string := "1558494949-ef010cbdcc31"
  const Photo1635070041078: string := "1635070041078-e363dbe005cb"
  const Photo1550751827: string := "1550751827-4bd374c3f58b"
  const Photo1555949963: string := "1555949963-aa79dcee981c"
  const Photo1551288049: string := "1551288049-bebda4e38f71"
  const Photo1620712943543: string := "1620712943543-bcc4688e7485"

  /** The photos of the pool of backend/utils/fetch_rss.py (entries 12-14 repeat entries 7, 9 and 11). */
  const RssPhotos: seq<string> := [
    Photo1677442136019,
    Photo1485827404703,
    Photo1555255707,
    Photo1488590528505,
    Photo1518770660439,
    Photo1504639725590,
    Photo1451187580459,
    Photo1558494949,
    Photo1635070041078,
    Photo1550751827,
    Photo1555949963,
    Photo1551288049,
    Photo1558494949,
    Photo1550751827,
    Photo1551288049
  ]

  /** The photos of the pool of backend/utils/fetch_newsapi.py, and of `getFallbackImage` in app/components/NewsCard.tsx. */
  const ApiPhotos: seq<string> := [
    Photo1677442136019,
    Photo1485827404703,
    Photo1555255707,
    Photo1488590528505,
    Photo1518770660439,
    Photo1504639725590,
    Photo1451187580459,
    Photo1558494949,
    Photo1635070041078,
    Photo1550751827,
    Photo1555949963,
    Photo1551288049,
    Photo1620712943543,
    Photo1551288049,
    Photo1550751827
  ]

  /** The addresses of the given photos, in order. */
  function Urls(ids: seq<string>): (urls: seq<string>)
    ensures |urls| == |ids|
    ensures forall i :: 0 <= i < |ids| ==> urls[i] == Unsplash(ids[i])
  {
    seq(|ids|, i requires 0 <= i < |ids| => Unsplash(ids[i]))
  }

  /** The two pools of picture addresses. */
  const RssPool: seq<string> := Urls(RssPhotos)
  const ApiPool: seq<string> := Urls(ApiPhotos)

  /** The two pools share their first twelve pictures; after that the RSS pool only repeats
      earlier entries, and the API pool adds one picture at index 12, then repeats. */
  lemma PoolsShareFirstTwelve()
    ensures |RssPool| == |ApiPool| == 15
    ensures RssPool[..12] == ApiPool[..12]
    ensures RssPool[12..] == [RssPool[7], RssPool[9], RssPool[11]]
    ensures ApiPool[13..] == [ApiPool[11], ApiPool[9]]
    ensures ApiPool[12] == Unsplash(Photo1620712943543) && RssPool[12] == Unsplash(Photo1558494949)
  {
    assert RssPhotos[..12] == ApiPhotos[..12];
    assert RssPool[..12] == ApiPool[..12] by {
      forall i | 0 <= i < 12
        ensures RssPool[i] == ApiPool[i]
      {
        assert RssPhotos[i] == ApiPhotos[i];
      }
    }
  }

  /** No placeholder is the empty string. */
  lemma PoolsNonEmpty()
    ensures forall i :: 0 <= i < |RssPool| ==> RssPool[i] != ""
    ensures forall i :: 0 <= i < |ApiPool| ==> ApiPool[i] != ""
  {
  }
}
