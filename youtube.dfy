/**
 * The mapping of one YouTube search result to a stored video item inside
 * `fetch_recent_youtube_videos` (scripts/smart_updater.py:105-118).
 */
module YouTube {
  import opened Items
  import opened Merge

  /** The fields of one search result the mapping reads:
      `id.videoId`, `snippet.title`, `snippet.description`,
      `snippet.thumbnails.high.url` and `snippet.publishedAt`. */
  datatype SearchResult = SearchResult(
    videoId: string,
    title: string,
    description: string,
    thumbnailUrl: string,
    publishedAt: string)

  const WatchUrlPrefix: string := "https://www.youtube.com/watch?v="
  const DescriptionLimit: nat := 300
  const DateLength: nat := 10

  function Min(a: nat, b: nat): nat
  {
    if a <= b then a else b
  }

  /** Python's slice `s[:n]` for a non-negative `n`. */
  function Truncate(s: string, n: nat): (r: string)
    ensures r <= s
    ensures |r| == Min(|s|, n)
  {
    if |s| <= n then s else s[..n]
  }

  /** The watch URL `f"https://www.youtube.com/watch?v={videoId}"`. */
  function WatchUrl(videoId: string): (url: string)
    ensures WatchUrlPrefix <= url
    ensures url[|WatchUrlPrefix|..] == videoId
  {
    WatchUrlPrefix + videoId
  }

  /** The video item built from one search result. */
  function VideoFromResult(r: SearchResult): (v: Item)
    ensures v.Keys == {"title", "description", UrlKey, "thumbnail", "date", "source", "tags", "type"}
    ensures v["title"] == Str(r.title) && v["thumbnail"] == Str(r.thumbnailUrl)
    ensures v["description"].Str? && v["description"].s <= r.description
    ensures |v["description"].s| == Min(|r.description|, DescriptionLimit)
    ensures v["date"].Str? && v["date"].s <= r.publishedAt
    ensures |v["date"].s| == Min(|r.publishedAt|, DateLength)
    ensures v[UrlKey].Str? && WatchUrlPrefix <= v[UrlKey].s
    ensures v[UrlKey].s[|WatchUrlPrefix|..] == r.videoId
    ensures v["source"] == Str("YouTube Official")
    ensures v["tags"] == StrList(["video", "youtube"])
    ensures v["type"] == Str("video")
  {
    map[
      "title" := Str(r.title),
      "description" := Str(Truncate(r.description, DescriptionLimit)),
      UrlKey := Str(WatchUrl(r.videoId)),
      "thumbnail" := Str(r.thumbnailUrl),
      "date" := Str(Truncate(r.publishedAt, DateLength)),
      "source" := Str("YouTube Official"),
      "tags" := StrList(["video", "youtube"]),
      "type" := Str("video")
    ]
  }

  /** The loop that appends one video item per search result. */
  method CollectVideos(results: seq<SearchResult>) returns (videos: seq<Item>)
    ensures |videos| == |results|
    ensures forall i :: 0 <= i < |results| ==> videos[i] == VideoFromResult(results[i])
  {
    videos := [];
    for i := 0 to |results|
      invariant |videos| == i
      invariant forall j :: 0 <= j < i ==> videos[j] == VideoFromResult(results[j])
    {
      var video := VideoFromResult(results[i]);
      videos := videos + [video];
    }
  }

  /** Two mapped videos are duplicates under the `url` key exactly when they
      come from the same video id: the URL keeps the id and nothing else varies. */
  lemma {:induction false} SameVideoIffSameId(a: SearchResult, b: SearchResult)
    ensures Matches(VideoFromResult(a), VideoFromResult(b), UrlKey) <==> a.videoId == b.videoId
  {
    var va, vb := VideoFromResult(a), VideoFromResult(b);
    if va[UrlKey] == vb[UrlKey] {
      assert a.videoId == va[UrlKey].s[|WatchUrlPrefix|..];
    }
  }

  /** Every mapped video carries a `url`, so merging the same fetched batch a
      second time adds nothing, whatever the list held before. */
  lemma RefetchedVideosAddNothing(results: seq<SearchResult>, videos: seq<Item>, existing: seq<Item>)
    requires |videos| == |results|
    requires forall i :: 0 <= i < |results| ==> videos[i] == VideoFromResult(results[i])
    ensures Accepted(videos, MergeAll(videos, existing, UrlKey), UrlKey) == []
  {
    assert forall i :: 0 <= i < |videos| ==> UrlKey in videos[i];
    ReMergeAddsNothing(videos, existing, UrlKey);
  }
}
