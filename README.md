# Smart content updater: verified model of the merge

This project models the incremental update script `scripts/smart_updater.py`.
Each run of the script loads a JSON store of three item lists (quotes, videos
and articles). It fetches one daily quote, the recent YouTube videos and the
recent articles. It merges each batch into its list, deduplicating as it goes.
It saves the store only when something was added.

Modules:

- `Wrappers`: the `Option` type, used for Python's `None`.
- `Items`: an item is a JSON object (`map<string, Value>`). This module holds
  the `is_duplicate` predicate (`IsDuplicate`, built from one-item `Matches`)
  and the scan loop `ScanForDuplicate`, which is proved equal to it.
- `Merge`: the deduplicate-and-prepend loop. `MergeCandidates` is the loop.
  `MergeAll` is the fold it computes. `Accepted` is the list of accepted
  candidates in input order. The lemmas prove the following:
  - the result is the reversed accepted list followed by the old list;
  - each accepted candidate is fresh against the old list and against the
    candidates accepted before it;
  - merging the same batch again adds nothing, provided every candidate
    carries the key or `url` (`ReMergeAddsNothing`); a candidate with neither
    is added again (`NoKeyNoUrlAlwaysAdded`);
  - a list with no matching pair keeps that property after a merge.
- `YouTube`: the mapping from a search result to a video item, and the loop
  that collects the mapped items.
- `SmartUpdater`: the store (a class whose list fields are reassigned in
  place), `save_data`'s time stamp, and one run of `smart_update`.

The duplicate rule is the one in scripts/smart_updater.py:45-48. The `url`
field is compared only when the primary key is not present on both items.
When both items carry the key and its values differ, the URLs are never
compared. So under key `title`, `{title: Y, url: u1}` is not a duplicate of
`{title: X, url: u1}` (`Items.KeyMismatchBlocksUrlFallback`).

A store is consistent when, within each list, no two items match under that
list's key (`SmartUpdater.ContentStore.Consistent`). The empty store is
consistent. Merging keeps this invariant (`Merge.MergePreservesNoDup`), so a
run of `smart_update` on a consistent store leaves it consistent.

The daily quote passes the `if daily_quote` guard only when it is not `None`
and is a non-empty dictionary. This is Python truthiness, modelled in
`QuoteCandidates`.

## Model

| member | source | states |
|---|---|---|
| Items.ScanForDuplicate | scripts/smart_updater.py:42-51 | The loop with early `return True` answers true exactly when some existing item matches the candidate. |
| Items.DuplicateIff | scripts/smart_updater.py:44-51 | A duplicate is an existing item that either has the key on both sides with equal values, or lacks the key on one side and has `url` on both with equal values. |
| Items.KeyMismatchBlocksUrl | scripts/smart_updater.py:45-48 | If both items carry the key and its values differ, they do not match, whatever their URLs. |
| Items.UrlKeyHasNoFallback | scripts/smart_updater.py:44-51 | With key `url`, a candidate is a duplicate iff it has a `url` and some existing item has an equal `url`. A candidate without `url` is never a duplicate. |
| Items.NoKeyNoUrlNeverDuplicate | scripts/smart_updater.py:44-51 | A candidate with neither the key nor `url` is never a duplicate. |
| Items.EmptyListHasNoDuplicates | scripts/smart_updater.py:44-51 | Nothing is a duplicate of an empty list. |
| Items.MatchesItself | scripts/smart_updater.py:45-50 | An item carrying the key or `url` matches itself. |
| Items.MatchesSymmetric | scripts/smart_updater.py:45-50 | Matching is symmetric: swapping the candidate and the stored item does not change the outcome. |
| Items.DuplicateSurvivesPrepend | scripts/smart_updater.py:44-51 | A duplicate of a list is still a duplicate after items are inserted at its front. |
| Items.DuplicateOfCons | scripts/smart_updater.py:44-51 | A duplicate of `[head] + list` is one that matches `head` or is a duplicate of `list`. |
| Items.EqualKeyIgnoresUrl | scripts/smart_updater.py:45-47 | `{content: A, url: u2}` duplicates `{content: A, url: u1}` under key `content`. |
| Items.KeyMismatchBlocksUrlFallback | scripts/smart_updater.py:45-50 | `{title: Y, url: u1}` is not a duplicate of `{title: X, url: u1}` under key `title`. |
| Merge.Accepted | scripts/smart_updater.py:174-177 | Every accepted candidate is drawn from the batch, and there are at most as many as candidates. |
| Merge.AcceptedIsSubsequence | scripts/smart_updater.py:174-177 | The accepted candidates are the batch with the rejected ones left out: they keep their input order, and none is taken more often than it occurs (`multiset` inclusion). |
| Merge.MergeAllSnoc | scripts/smart_updater.py:174-177 | Folding in one more candidate is one more loop iteration: prepend it unless it duplicates the current list. |
| Merge.MergeAllShape | scripts/smart_updater.py:174-177 | The merged list is the accepted candidates in reverse input order, followed by the previous list. |
| Merge.MergeKeepsPrevious | scripts/smart_updater.py:176 | The list grows by exactly the number accepted, and the previous list survives unchanged as its suffix. |
| Merge.AcceptedAreFresh | scripts/smart_updater.py:174-177 | No accepted candidate matches an item of the previous list or a candidate accepted earlier in the batch. |
| Merge.NoDupWithFront | scripts/smart_updater.py:174-177 | Fresh, mutually non-matching candidates, reversed and placed in front of a list with no matching pair, give a list with no matching pair. |
| Merge.MergePreservesNoDup | scripts/smart_updater.py:174-177 | If no two items of the list match under the key, no two items of the merged list do. |
| Merge.LaterMatchRejected | scripts/smart_updater.py:174-177 | A second candidate that matches an accepted first one is rejected within the same batch. |
| Merge.MergeOrderOfTwo | scripts/smart_updater.py:174-177 | Merging `[v1, v2]` into an empty list, where `v2` does not match `v1`, gives `[v2, v1]`. |
| Merge.DuplicatesAddNothing | scripts/smart_updater.py:174-177 | A batch whose candidates are all duplicates of the list accepts nothing. |
| Merge.CandidatesCovered | scripts/smart_updater.py:174-177 | After a merge, every candidate carrying the key or `url` is a duplicate of the result, whether it was accepted or not. |
| Merge.ReMergeAddsNothing | scripts/smart_updater.py:174-177 | Re-merging the same batch accepts nothing and leaves the list unchanged, provided every candidate carries the key or `url`. |
| Merge.NoKeyNoUrlAlwaysAdded | scripts/smart_updater.py:187-190 | A candidate with neither the key nor `url` is always prepended. |
| Merge.MergeCandidates | scripts/smart_updater.py:174-177 | The loop produces the reversed accepted candidates followed by the old list, and counts exactly the accepted candidates. |
| YouTube.Truncate | scripts/smart_updater.py:110 | `s[:n]` is the prefix of `s` of length min(len(s), n). |
| YouTube.WatchUrl | scripts/smart_updater.py:111 | The watch URL starts with `https://www.youtube.com/watch?v=` and the rest is the video id. |
| YouTube.VideoFromResult | scripts/smart_updater.py:108-117 | The video item has exactly the eight keys. Its description is a prefix of length min(len, 300) and its date a prefix of `publishedAt` of length min(len, 10). Its url carries the video id after the watch prefix. The title and thumbnail are copied. Source, tags and type are fixed. |
| YouTube.CollectVideos | scripts/smart_updater.py:105-118 | The loop yields one mapped video per search result, in order. |
| YouTube.SameVideoIffSameId | scripts/smart_updater.py:111 | Two mapped videos match under key `url` iff they have the same video id. |
| YouTube.RefetchedVideosAddNothing | scripts/smart_updater.py:174-177 | Merging the same fetched video batch twice adds nothing the second time. |
| SmartUpdater.ContentStore.Empty | scripts/smart_updater.py:28-33 | The default store has three empty lists and no `last_updated`, and it satisfies the no-duplicates invariant. |
| SmartUpdater.QuoteCandidates | scripts/smart_updater.py:164 | The quote is a candidate iff it was fetched and is a non-empty dictionary. |
| SmartUpdater.SaveData | scripts/smart_updater.py:35-40 | Saving sets `last_updated` to the current time. |
| SmartUpdater.SmartUpdate | scripts/smart_updater.py:157-200 | Each of the three lists becomes its merge. Quotes use key `content`; videos and articles use key `url`. `new_items` is the total accepted across all three, and the store is saved iff `new_items > 0`. A store whose lists have no two matching items stays that way. |
| SmartUpdater.QuoteMerge | scripts/smart_updater.py:164-166 | The quote is prepended and counted exactly when it was fetched, is non-empty, and duplicates no stored quote. |
| SmartUpdater.RerunAddsNothing | scripts/smart_updater.py:163-190 | A second run with the same fetch results accepts nothing in any of the three lists, so its `new_items` is 0. That it also saves nothing follows from `SmartUpdate`'s `saved <==> newItems > 0`. A quote that passes the `if daily_quote` guard must carry `content` or `url`, and every video and article must carry `url`. |

## Left out

- File I/O in `load_existing_data` and `save_data` (scripts/smart_updater.py:22-40). This covers JSON parsing and writing, directory creation and the missing-file fallback. Loading is the caller's `ContentStore.Empty()` or an already-built store. Saving only sets `lastUpdated`.
- Clock reads (`datetime.now()`). The current time is the `now` input, as an ISO 8601 string.
- `fetch_daily_quote`. It is a placeholder that builds a quote from today's date. Its result is the `dailyQuote` input. Its exception path (returning `None`) is the `None` case.
- The YouTube client, the API key check, the request parameters and the error path of `fetch_recent_youtube_videos`. These are foreign calls. The response's item list is an input to `CollectVideos`. A search result missing one of the five read fields makes `fetch_recent_youtube_videos` return an empty list (its `except` at scripts/smart_updater.py:123-125); the model assumes every field is present.
- `fetch_recent_articles`. It is a placeholder that always returns an empty list. The articles are an input sequence.
- JSON values other than strings and lists of strings. Items loaded from an edited data file could hold numbers or nested objects; the model's `Value` type holds only strings and string lists.
- Printed messages, including the "Added N new videos" line, which reports the fetched count rather than the added count. `TRUSTED_SOURCES` and the channel-id constant are unused by the logic.
- Per-key values compare by structural equality of `Value`. This is the same as Python's `==` on strings and lists of strings.
