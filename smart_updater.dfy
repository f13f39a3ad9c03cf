/**
 * The content store and one run of `smart_update`
 * (scripts/smart_updater.py:22-40, 151-205): the fetched quote, videos and
 * articles are merged into the three lists of the store, `new_items` counts
 * what was added, and the store is saved only when that count is positive.
 * The fetch results and the current time are inputs.
 */
module SmartUpdater {
  import opened Wrappers
  import opened Items
  import opened Merge

  /** The JSON document `data`: three item lists, newest first, and the time of
      the last save (`None` until the first save). */
  class ContentStore {
    var quotes: seq<Item>
    var articles: seq<Item>
    var videos: seq<Item>
    var lastUpdated: Option<string>

    /** Within each list no two items match under that list's key. */
    ghost predicate Consistent()
      reads this
    {
      NoDup(quotes, ContentKey) && NoDup(videos, UrlKey) && NoDup(articles, UrlKey)
    }

    /** The store `load_existing_data` returns when there is no data file yet. */
    constructor Empty()
      ensures quotes == [] && articles == [] && videos == []
      ensures lastUpdated == None
      ensures Consistent()
    {
      quotes, articles, videos := [], [], [];
      lastUpdated := None;
    }
  }

  /** The quote candidates: `if daily_quote` lets through only a fetched,
      non-empty dictionary. */
  function QuoteCandidates(dailyQuote: Option<Item>): (cs: seq<Item>)
    ensures |cs| <= 1
    ensures cs != [] <==> dailyQuote.Some? && |dailyQuote.value| > 0
    ensures forall i :: 0 <= i < |cs| ==> dailyQuote == Some(cs[i])
  {
    if dailyQuote.Some? && |dailyQuote.value| > 0 then [dailyQuote.value] else []
  }

  /** `save_data`: stamps the store with the current time; writing the JSON
      file is not modelled. */
  method SaveData(data: ContentStore, now: string)
    modifies data`lastUpdated
    ensures data.lastUpdated == Some(now)
  {
    data.lastUpdated := Some(now);
  }

  /** One run of `smart_update` on the loaded store `data`. `newItems` is the
      final `new_items`; `saved` tells whether `save_data` ran. */
  method SmartUpdate(data: ContentStore, dailyQuote: Option<Item>, newVideos: seq<Item>,
                     newArticles: seq<Item>, now: string)
    returns (newItems: nat, saved: bool)
    modifies data
    ensures data.quotes == MergeAll(QuoteCandidates(dailyQuote), old(data.quotes), ContentKey)
    ensures data.videos == MergeAll(newVideos, old(data.videos), UrlKey)
    ensures data.articles == MergeAll(newArticles, old(data.articles), UrlKey)
    ensures newItems == |Accepted(QuoteCandidates(dailyQuote), old(data.quotes), ContentKey)|
                        + |Accepted(newVideos, old(data.videos), UrlKey)|
                        + |Accepted(newArticles, old(data.articles), UrlKey)|
    ensures saved <==> newItems > 0
    ensures data.lastUpdated == if saved then Some(now) else old(data.lastUpdated)
    ensures old(data.Consistent()) ==> data.Consistent()
  {
    newItems := 0;
    ghost var quotes0, videos0, articles0 := data.quotes, data.videos, data.articles;
    ghost var consistent0 := data.Consistent();

    if dailyQuote.Some? && |dailyQuote.value| > 0 {
      var duplicate := ScanForDuplicate(dailyQuote.value, data.quotes, ContentKey);
      if !duplicate {
        data.quotes := [dailyQuote.value] + data.quotes;
        newItems := newItems + 1;
      }
    }
    QuoteMerge(dailyQuote, quotes0);

    var videos, addedVideos := MergeCandidates(newVideos, data.videos, UrlKey);
    data.videos := videos;
    newItems := newItems + addedVideos;

    var articles, addedArticles := MergeCandidates(newArticles, data.articles, UrlKey);
    data.articles := articles;
    newItems := newItems + addedArticles;

    if consistent0 {
      MergePreservesNoDup(QuoteCandidates(dailyQuote), quotes0, ContentKey);
      MergePreservesNoDup(newVideos, videos0, UrlKey);
      MergePreservesNoDup(newArticles, articles0, UrlKey);
    }

    saved := newItems > 0;
    if saved {
      SaveData(data, now);
    }
  }

  /** The single-quote step: the quote is prepended exactly when it was fetched,
      is non-empty, and no stored quote matches it. */
  lemma QuoteMerge(dailyQuote: Option<Item>, quotes: seq<Item>)
    ensures var added := dailyQuote.Some? && |dailyQuote.value| > 0 &&
                         !IsDuplicate(dailyQuote.value, quotes, ContentKey);
      && |Accepted(QuoteCandidates(dailyQuote), quotes, ContentKey)| == (if added then 1 else 0)
      && MergeAll(QuoteCandidates(dailyQuote), quotes, ContentKey)
         == (if added then [dailyQuote.value] + quotes else quotes)
  {
    var cs := QuoteCandidates(dailyQuote);
    if cs != [] {
      assert cs[1..] == [];
    }
  }

  /** Running the update a second time with the same fetch results accepts
      nothing in any of the three lists, provided a quote that passes the
      guard carries `content` or `url` and every video and article carries a
      `url`; with
      `SmartUpdate`'s `saved <==> newItems > 0`, that second run saves nothing. */
  lemma RerunAddsNothing(dailyQuote: Option<Item>, newVideos: seq<Item>, newArticles: seq<Item>,
                         quotes: seq<Item>, videos: seq<Item>, articles: seq<Item>)
    requires QuoteCandidates(dailyQuote) != [] ==> ContentKey in dailyQuote.value || UrlKey in dailyQuote.value
    requires forall i :: 0 <= i < |newVideos| ==> UrlKey in newVideos[i]
    requires forall i :: 0 <= i < |newArticles| ==> UrlKey in newArticles[i]
    ensures |Accepted(QuoteCandidates(dailyQuote),
                      MergeAll(QuoteCandidates(dailyQuote), quotes, ContentKey), ContentKey)|
          + |Accepted(newVideos, MergeAll(newVideos, videos, UrlKey), UrlKey)|
          + |Accepted(newArticles, MergeAll(newArticles, articles, UrlKey), UrlKey)| == 0
  {
    ReMergeAddsNothing(QuoteCandidates(dailyQuote), quotes, ContentKey);
    ReMergeAddsNothing(newVideos, videos, UrlKey);
    ReMergeAddsNothing(newArticles, articles, UrlKey);
  }
}
