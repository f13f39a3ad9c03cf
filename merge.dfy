/**
 * The deduplicate-and-prepend loop that `smart_update` runs once per item
 * list (scripts/smart_updater.py:163-190): each candidate, in input order,
 * is inserted at index 0 unless it duplicates something already in the list,
 * including candidates accepted earlier in the same batch.
 */
module Merge {
  import opened Items

  function Reversed(s: seq<Item>): (r: seq<Item>)
    ensures |r| == |s|
    ensures forall i :: 0 <= i < |s| ==> r[i] == s[|s| - 1 - i]
  {
    if s == [] then [] else Reversed(s[1..]) + [s[0]]
  }

  /** One iteration of the loop body: `insert(0, candidate)` unless it is a duplicate. */
  function Step(list: seq<Item>, candidate: Item, key: string): seq<Item>
  {
    if IsDuplicate(candidate, list, key) then list else [candidate] + list
  }

  /** The list after the whole loop: the candidates folded in, first one first. */
  function MergeAll(candidates: seq<Item>, list: seq<Item>, key: string): seq<Item>
  {
    if candidates == [] then list
    else MergeAll(candidates[1..], Step(list, candidates[0], key), key)
  }

  /** `xs` is `ys` with some elements left out and the rest kept in order. */
  ghost predicate Subsequence(xs: seq<Item>, ys: seq<Item>)
  {
    xs == [] ||
    (ys != [] && ((xs[0] == ys[0] && Subsequence(xs[1..], ys[1..])) || Subsequence(xs, ys[1..])))
  }

  /** The candidates the loop accepts, in input order: each is checked against
      the list as it stands when its turn comes. */
  function Accepted(candidates: seq<Item>, list: seq<Item>, key: string): (r: seq<Item>)
    ensures |r| <= |candidates|
    ensures forall j :: 0 <= j < |r| ==> r[j] in candidates
  {
    if candidates == [] then []
    else if IsDuplicate(candidates[0], list, key) then Accepted(candidates[1..], list, key)
    else [candidates[0]] + Accepted(candidates[1..], [candidates[0]] + list, key)
  }

  /** The accepted candidates are the batch with the rejected ones left out:
      the rest keep their input order and none is taken twice. */
  lemma {:induction false} AcceptedIsSubsequence(candidates: seq<Item>, list: seq<Item>, key: string)
    ensures Subsequence(Accepted(candidates, list, key), candidates)
    ensures multiset(Accepted(candidates, list, key)) <= multiset(candidates)
    decreases |candidates|
  {
    if candidates != [] {
      var c := candidates[0];
      assert candidates == [c] + candidates[1..];
      if IsDuplicate(c, list, key) {
        AcceptedIsSubsequence(candidates[1..], list, key);
      } else {
        var rest := Accepted(candidates[1..], [c] + list, key);
        AcceptedIsSubsequence(candidates[1..], [c] + list, key);
        assert ([c] + rest)[1..] == rest;
      }
    }
  }

  /** No two items of a list match under `key`: the invariant of each store list. */
  ghost predicate NoDup(l: seq<Item>, key: string)
  {
    forall i, j :: 0 <= i < j < |l| ==> !Matches(l[j], l[i], key)
  }

  /** No item of `xs` matches any item of `list`. */
  ghost predicate NoneMatch(xs: seq<Item>, list: seq<Item>, key: string)
  {
    forall j, e :: 0 <= j < |xs| && 0 <= e < |list| ==> !Matches(xs[j], list[e], key)
  }

  /** No item of `xs` matches an item that precedes it in `xs`. */
  ghost predicate NoneMatchEarlier(xs: seq<Item>, key: string)
  {
    forall i, j :: 0 <= i < j < |xs| ==> !Matches(xs[j], xs[i], key)
  }

  /** Folding in one more candidate is one more loop iteration. */
  lemma {:induction false} MergeAllSnoc(candidates: seq<Item>, candidate: Item, list: seq<Item>, key: string)
    ensures MergeAll(candidates + [candidate], list, key) == Step(MergeAll(candidates, list, key), candidate, key)
    decreases |candidates|
  {
    if candidates == [] {
      assert [] + [candidate] == [candidate];
      assert [candidate][1..] == [];
    } else {
      var all := candidates + [candidate];
      assert all[0] == candidates[0];
      assert all[1..] == candidates[1..] + [candidate];
      MergeAllSnoc(candidates[1..], candidate, Step(list, candidates[0], key), key);
    }
  }

  /** After a merge the list is the accepted candidates in reverse input order,
      followed by the previous list unchanged. */
  lemma {:induction false} MergeAllShape(candidates: seq<Item>, list: seq<Item>, key: string)
    ensures MergeAll(candidates, list, key) == Reversed(Accepted(candidates, list, key)) + list
    decreases |candidates|
  {
    if candidates != [] {
      var c := candidates[0];
      if IsDuplicate(c, list, key) {
        MergeAllShape(candidates[1..], list, key);
      } else {
        var rest := Accepted(candidates[1..], [c] + list, key);
        MergeAllShape(candidates[1..], [c] + list, key);
        assert ([c] + rest)[1..] == rest;
        assert Reversed([c] + rest) == Reversed(rest) + [c];
      }
    }
  }

  /** No prior item is removed or reordered, and the list grows by exactly
      the number of accepted candidates. */
  lemma MergeKeepsPrevious(candidates: seq<Item>, list: seq<Item>, key: string)
    ensures |MergeAll(candidates, list, key)| == |list| + |Accepted(candidates, list, key)|
    ensures MergeAll(candidates, list, key)[|Accepted(candidates, list, key)|..] == list
  {
    MergeAllShape(candidates, list, key);
  }

  /** Each accepted candidate matches neither an item of the previous list nor
      a candidate accepted before it in the same batch. */
  lemma {:induction false} AcceptedAreFresh(candidates: seq<Item>, list: seq<Item>, key: string)
    ensures NoneMatch(Accepted(candidates, list, key), list, key)
    ensures NoneMatchEarlier(Accepted(candidates, list, key), key)
    decreases |candidates|
  {
    if candidates != [] {
      var c := candidates[0];
      if IsDuplicate(c, list, key) {
        AcceptedAreFresh(candidates[1..], list, key);
      } else {
        var l := [c] + list;
        var rest := Accepted(candidates[1..], l, key);
        var acc := [c] + rest;
        AcceptedAreFresh(candidates[1..], l, key);
        forall j, e | 0 <= j < |acc| && 0 <= e < |list|
          ensures !Matches(acc[j], list[e], key)
        {
          if j > 0 {
            assert acc[j] == rest[j - 1] && l[e + 1] == list[e];
          }
        }
        forall i, j | 0 <= i < j < |acc|
          ensures !Matches(acc[j], acc[i], key)
        {
          assert acc[j] == rest[j - 1];
          if i == 0 {
            assert l[0] == c;
          }
        }
      }
    }
  }

  /** Reversed fresh candidates in front of a list without duplicates give
      a list without duplicates. */
  lemma NoDupWithFront(acc: seq<Item>, list: seq<Item>, key: string)
    requires NoDup(list, key)
    requires NoneMatch(acc, list, key)
    requires NoneMatchEarlier(acc, key)
    ensures NoDup(Reversed(acc) + list, key)
  {
    var front := Reversed(acc);
    var merged := front + list;
    forall i, j | 0 <= i < j < |merged|
      ensures !Matches(merged[j], merged[i], key)
    {
      if j < |front| {
        var a, b := |acc| - 1 - j, |acc| - 1 - i;
        assert merged[i] == acc[b] && merged[j] == acc[a];
        assert !Matches(acc[b], acc[a], key);
        MatchesSymmetric(acc[a], acc[b], key);
      } else if i < |front| {
        var b, e := |acc| - 1 - i, j - |front|;
        assert merged[i] == acc[b] && merged[j] == list[e];
        assert !Matches(acc[b], list[e], key);
        MatchesSymmetric(list[e], acc[b], key);
      } else {
        assert merged[i] == list[i - |front|] && merged[j] == list[j - |front|];
      }
    }
  }

  /** Merging keeps the store invariant: if no two items of the list match,
      no two items of the merged list match. */
  lemma MergePreservesNoDup(candidates: seq<Item>, list: seq<Item>, key: string)
    requires NoDup(list, key)
    ensures NoDup(MergeAll(candidates, list, key), key)
  {
    MergeAllShape(candidates, list, key);
    AcceptedAreFresh(candidates, list, key);
    NoDupWithFront(Accepted(candidates, list, key), list, key);
  }

  /** Within one batch a later candidate that matches an accepted earlier one
      is rejected: the list is updated before the next check. */
  lemma {:induction false} LaterMatchRejected(first: Item, second: Item, list: seq<Item>, key: string)
    requires !IsDuplicate(first, list, key)
    requires Matches(second, first, key)
    ensures Accepted([first, second], list, key) == [first]
    ensures MergeAll([first, second], list, key) == [first] + list
  {
    DuplicateOfCons(second, first, list, key);
    assert [first, second][1..] == [second];
    assert [second][1..] == [];
    MergeAllShape([first, second], list, key);
    assert Reversed([first]) == [first];
  }

  /** Merging `[v1, v2]` where `v2` does not match `v1` into an empty list
      yields `[v2, v1]`. */
  lemma {:induction false} MergeOrderOfTwo(v1: Item, v2: Item, key: string)
    requires !Matches(v2, v1, key)
    ensures MergeAll([v1, v2], [], key) == [v2, v1]
  {
    EmptyListHasNoDuplicates(v1, key);
    DuplicateOfCons(v2, v1, [], key);
    EmptyListHasNoDuplicates(v2, key);
    assert [v1, v2][1..] == [v2];
    assert [v2][1..] == [];
    assert Accepted([v1, v2], [], key) == [v1, v2];
    MergeAllShape([v1, v2], [], key);
    assert Reversed([v1, v2]) == [v2, v1];
  }

  /** Candidates already present in the list are all rejected and leave it alone. */
  lemma {:induction false} DuplicatesAddNothing(candidates: seq<Item>, list: seq<Item>, key: string)
    requires forall i :: 0 <= i < |candidates| ==> IsDuplicate(candidates[i], list, key)
    ensures Accepted(candidates, list, key) == []
    decreases |candidates|
  {
    if candidates != [] {
      assert IsDuplicate(candidates[0], list, key);
      DuplicatesAddNothing(candidates[1..], list, key);
    }
  }

  /** After a merge every candidate that has the key or a `url` is a duplicate
      of the resulting list, whether it was accepted or rejected. */
  lemma {:induction false} CandidatesCovered(candidates: seq<Item>, list: seq<Item>, key: string)
    requires forall i :: 0 <= i < |candidates| ==> key in candidates[i] || UrlKey in candidates[i]
    ensures forall i :: 0 <= i < |candidates| ==> IsDuplicate(candidates[i], MergeAll(candidates, list, key), key)
    decreases |candidates|
  {
    if candidates != [] {
      var c := candidates[0];
      var next := Step(list, c, key);
      var merged := MergeAll(candidates[1..], next, key);
      assert merged == MergeAll(candidates, list, key);
      if !IsDuplicate(c, list, key) {
        MatchesItself(c, key);
        DuplicateOfCons(c, c, list, key);
      }
      assert IsDuplicate(c, next, key);
      MergeAllShape(candidates[1..], next, key);
      DuplicateSurvivesPrepend(c, Reversed(Accepted(candidates[1..], next, key)), next, key);
      CandidatesCovered(candidates[1..], next, key);
      forall i | 1 <= i < |candidates|
        ensures IsDuplicate(candidates[i], merged, key)
      {
        assert candidates[i] == candidates[1..][i - 1];
      }
    }
  }

  /** Idempotence: re-merging the same candidates adds nothing, provided each
      candidate carries the key or a `url`. */
  lemma ReMergeAddsNothing(candidates: seq<Item>, list: seq<Item>, key: string)
    requires forall i :: 0 <= i < |candidates| ==> key in candidates[i] || UrlKey in candidates[i]
    ensures Accepted(candidates, MergeAll(candidates, list, key), key) == []
    ensures MergeAll(candidates, MergeAll(candidates, list, key), key) == MergeAll(candidates, list, key)
  {
    var merged := MergeAll(candidates, list, key);
    CandidatesCovered(candidates, list, key);
    DuplicatesAddNothing(candidates, merged, key);
    MergeAllShape(candidates, merged, key);
  }

  /** A candidate carrying neither the key nor `url` is always accepted. */
  lemma NoKeyNoUrlAlwaysAdded(candidate: Item, list: seq<Item>, key: string)
    requires key !in candidate && UrlKey !in candidate
    ensures Accepted([candidate], list, key) == [candidate]
    ensures MergeAll([candidate], list, key) == [candidate] + list
  {
    NoKeyNoUrlNeverDuplicate(candidate, list, key);
    assert [candidate][1..] == [];
  }

  /** The loop of `smart_update` over one list: `existing` is the live list,
      `merged` what it becomes and `added` the increments of `new_items`. */
  method MergeCandidates(candidates: seq<Item>, existing: seq<Item>, key: string)
    returns (merged: seq<Item>, added: nat)
    ensures merged == MergeAll(candidates, existing, key)
    ensures merged == Reversed(Accepted(candidates, existing, key)) + existing
    ensures added == |Accepted(candidates, existing, key)|
    ensures |merged| == |existing| + added
  {
    merged, added := existing, 0;
    for i := 0 to |candidates|
      invariant merged == MergeAll(candidates[..i], existing, key)
      invariant |merged| == |existing| + added
    {
      var candidate := candidates[i];
      var duplicate := ScanForDuplicate(candidate, merged, key);
      if !duplicate {
        merged := [candidate] + merged;
        added := added + 1;
      }
      assert candidates[..i + 1] == candidates[..i] + [candidate];
      MergeAllSnoc(candidates[..i], candidate, existing, key);
    }
    assert candidates[..|candidates|] == candidates;
    MergeAllShape(candidates, existing, key);
  }
}
