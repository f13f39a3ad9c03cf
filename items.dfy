/**
 * Stored content items and the duplicate check `is_duplicate`
 * (scripts/smart_updater.py:42-51).
 */
module Items {

  /** A JSON value held under one key of an item: the store only ever holds
      strings and lists of strings (the `tags` field). */
  datatype Value = Str(s: string) | StrList(items: seq<string>)

  /** A quote, video or article: a JSON object, so "key in item" is map membership. */
  type Item = map<string, Value>

  /** The default primary key of `is_duplicate`, used for quotes. */
  const ContentKey: string := "content"

  /** The fallback key of `is_duplicate`, and the primary key for videos and articles. */
  const UrlKey: string := "url"

  /** One iteration of the scan: `existing` matches `item` on `key` when both
      carry `key`; only when they do not both carry it is `url` compared. */
  predicate Matches(item: Item, existing: Item, key: string)
  {
    if key in item && key in existing then item[key] == existing[key]
    else UrlKey in item && UrlKey in existing && item[UrlKey] == existing[UrlKey]
  }

  /** `is_duplicate(item, existing_items, key)`: some existing item matches. */
  predicate IsDuplicate(item: Item, existingItems: seq<Item>, key: string)
  {
    exists i :: 0 <= i < |existingItems| && Matches(item, existingItems[i], key)
  }

  /** The scan as the source runs it: a loop that returns on the first match. */
  method ScanForDuplicate(item: Item, existingItems: seq<Item>, key: string) returns (found: bool)
    ensures found <==> IsDuplicate(item, existingItems, key)
  {
    for i := 0 to |existingItems|
      invariant forall j :: 0 <= j < i ==> !Matches(item, existingItems[j], key)
    {
      var existing := existingItems[i];
      if key in item && key in existing {
        if item[key] == existing[key] {
          return true;
        }
      } else if UrlKey in item && UrlKey in existing {
        if item[UrlKey] == existing[UrlKey] {
          return true;
        }
      }
    }
    return false;
  }

  /** The duplicate rule spelled out: a match on the primary key, or, where the
      primary key is not on both items, a match on `url`. */
  lemma DuplicateIff(item: Item, existingItems: seq<Item>, key: string)
    ensures IsDuplicate(item, existingItems, key) <==>
      exists i :: 0 <= i < |existingItems| &&
        ((key in item && key in existingItems[i] && item[key] == existingItems[i][key]) ||
         (!(key in item && key in existingItems[i]) &&
          UrlKey in item && UrlKey in existingItems[i] && item[UrlKey] == existingItems[i][UrlKey]))
  {
  }

  /** When both items carry the primary key and it differs, equal URLs do not help. */
  lemma KeyMismatchBlocksUrl(item: Item, existing: Item, key: string)
    requires key in item && key in existing && item[key] != existing[key]
    ensures !Matches(item, existing, key)
  {
  }

  /** With `key = 'url'` the fallback is dead: a duplicate is exactly an
      existing item whose `url` equals the candidate's. */
  lemma UrlKeyHasNoFallback(item: Item, existingItems: seq<Item>)
    ensures IsDuplicate(item, existingItems, UrlKey) <==>
      UrlKey in item &&
      exists i :: 0 <= i < |existingItems| && UrlKey in existingItems[i] &&
        existingItems[i][UrlKey] == item[UrlKey]
  {
  }

  /** A candidate carrying neither the key nor `url` is never a duplicate. */
  lemma NoKeyNoUrlNeverDuplicate(item: Item, existingItems: seq<Item>, key: string)
    requires key !in item && UrlKey !in item
    ensures !IsDuplicate(item, existingItems, key)
  {
  }

  /** Nothing is a duplicate of an empty list. */
  lemma EmptyListHasNoDuplicates(item: Item, key: string)
    ensures !IsDuplicate(item, [], key)
  {
  }

  /** An item with the key or a `url` matches itself. */
  lemma MatchesItself(item: Item, key: string)
    requires key in item || UrlKey in item
    ensures Matches(item, item, key)
  {
  }

  /** Matching is symmetric: both branches compare the same field of both items. */
  lemma MatchesSymmetric(a: Item, b: Item, key: string)
    ensures Matches(a, b, key) <==> Matches(b, a, key)
  {
  }

  /** Prepending items to the list never turns a duplicate into a non-duplicate. */
  lemma DuplicateSurvivesPrepend(item: Item, front: seq<Item>, existingItems: seq<Item>, key: string)
    requires IsDuplicate(item, existingItems, key)
    ensures IsDuplicate(item, front + existingItems, key)
  {
    var i :| 0 <= i < |existingItems| && Matches(item, existingItems[i], key);
    assert (front + existingItems)[|front| + i] == existingItems[i];
  }

  /** A match against the new head, or a duplicate in the old list. */
  lemma DuplicateOfCons(item: Item, head: Item, existingItems: seq<Item>, key: string)
    ensures IsDuplicate(item, [head] + existingItems, key) <==>
      Matches(item, head, key) || IsDuplicate(item, existingItems, key)
  {
    var l := [head] + existingItems;
    if IsDuplicate(item, l, key) && !Matches(item, head, key) {
      var i :| 0 <= i < |l| && Matches(item, l[i], key);
      assert i > 0 && l[i] == existingItems[i - 1];
    }
    if IsDuplicate(item, existingItems, key) {
      DuplicateSurvivesPrepend(item, [head], existingItems, key);
    }
    if Matches(item, head, key) {
      assert l[0] == head;
    }
  }

  /** The primary key decides even when the URLs differ:
      `{content: A, url: u2}` duplicates `{content: A, url: u1}`. */
  lemma EqualKeyIgnoresUrl()
    ensures IsDuplicate(map[ContentKey := Str("A"), UrlKey := Str("u2")],
                        [map[ContentKey := Str("A"), UrlKey := Str("u1")]], ContentKey)
  {
    var existing := map[ContentKey := Str("A"), UrlKey := Str("u1")];
    assert Matches(map[ContentKey := Str("A"), UrlKey := Str("u2")], [existing][0], ContentKey);
  }

  /** With key `title`, `{title: Y, url: u1}` is NOT a duplicate of
      `{title: X, url: u1}`: both carry `title`, so `url` is never compared. */
  lemma KeyMismatchBlocksUrlFallback()
    ensures !IsDuplicate(map["title" := Str("Y"), UrlKey := Str("u1")],
                         [map["title" := Str("X"), UrlKey := Str("u1")]], "title")
  {
    var item := map["title" := Str("Y"), UrlKey := Str("u1")];
    var existing := map["title" := Str("X"), UrlKey := Str("u1")];
    assert item["title"] != existing["title"];
    KeyMismatchBlocksUrl(item, existing, "title");
  }
}
