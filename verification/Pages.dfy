/** Listing in pages that a starting token joins up. */
module Pages {
  import opened Wrappers
  import opened Text

  /** One page: the ids it shows, and the token of the next page, empty on the last. */
  datatype Page = Page(ids: seq<string>, next: string)

  function Position(all: seq<string>, token: string): nat {
    if all == [] || all[0] == token then 0 else 1 + Position(all[1..], token)
  }

  lemma {:induction false} PositionIs(all: seq<string>, i: nat)
    requires i < |all| && forall j :: 0 <= j < i ==> all[j] != all[i]
    ensures Position(all, all[i]) == i
  {
    if i > 0 {
      PositionIs(all[1..], i - 1);
    }
  }

  lemma {:induction false} PositionMissing(all: seq<string>, token: string)
    ensures Position(all, token) <= |all|
    ensures Position(all, token) == |all| <==> token !in all
    ensures Position(all, token) < |all| ==> all[Position(all, token)] == token
    decreases |all|
  {
    if all != [] {
      PositionMissing(all[1..], token);
      assert all == [all[0]] + all[1..];
    }
  }

  function PageFrom(all: seq<string>, start: nat, size: int): Page
    requires start <= |all|
  {
    var n := if size <= 0 || start + size > |all| then |all| - start else size;
    Page(all[start..start + n], if start + n < |all| then all[start + n] else "")
  }

  /** The page a request asks for, or nothing for a token that names no entry. */
  function Answer(all: seq<string>, token: string, size: int): Option<Page> {
    PositionMissing(all, token);
    if token == "" then Some(PageFrom(all, 0, size))
    else if token !in all then None
    else Some(PageFrom(all, Position(all, token), size))
  }

  method Find(all: seq<string>, token: string) returns (i: nat)
    ensures i == Position(all, token)
  {
    i := 0;
    assert all[0..] == all;
    while i < |all| && all[i] != token
      invariant 0 <= i <= |all|
      invariant Position(all, token) == i + Position(all[i..], token)
    {
      assert all[i..][1..] == all[i + 1..];
      i := i + 1;
    }
  }

  /** Sorts, looks the token up and cuts the page out. */
  method ListPage(found: seq<string>, token: string, size: int) returns (r: Option<Page>)
    ensures r == Answer(Sort(found), token, size)
  {
    hide Sort, SortedStrings, Position;
    var all := Sort(found);
    PositionMissing(all, token);
    var start := 0;
    if token != "" {
      start := Find(all, token);
      if start == |all| {
        return None;
      }
    }
    var max := size;
    if max <= 0 || start + max > |all| {
      max := |all| - start;
    }
    var next := "";
    if start + max < |all| {
      next := all[start + max];
    }
    r := Some(Page(all[start..start + max], next));
  }

  /** Everything shown when each page's token is followed to the next, for as long as the limit
      allows, with page sizes that may differ each time. */
  ghost function Followed(all: seq<string>, token: string, sizes: nat -> int, i: nat, limit: nat): Option<seq<string>>
    decreases limit
  {
    var a := Answer(all, token, sizes(i));
    if limit == 0 || a.None? then None
    else if a.value.next == "" then Some(a.value.ids)
    else
      var rest := Followed(all, a.value.next, sizes, i + 1, limit - 1);
      if rest.None? then None else Some(a.value.ids + rest.value)
  }

  ghost predicate Distinct(s: seq<string>) {
    forall i, j :: 0 <= i < j < |s| ==> s[i] != s[j]
  }

  lemma AnswerFrom(all: seq<string>, start: nat, token: string, size: int)
    requires Distinct(all) && start <= |all|
    requires if token == "" then start == 0 else start < |all| && token == all[start]
    ensures Answer(all, token, size) == Some(PageFrom(all, start, size))
  {
    hide PageFrom, Position;
    if token != "" {
      PositionIs(all, start);
    }
  }

  /** A page shows as many as were asked for while that many are left, or all that is left, and its token
      names what follows. */
  lemma PageShape(all: seq<string>, start: nat, size: int)
    requires start <= |all|
    ensures var page := PageFrom(all, start, size);
            var end := start + |page.ids|;
            && end <= |all| && page.ids == all[start..end]
            && |page.ids| == (if 0 < size < |all| - start then size else |all| - start)
            && (end < |all| ==> end > start && page.next == all[end])
            && (end == |all| ==> page.next == "")
  {
  }

  lemma {:induction false} FollowedFrom(all: seq<string>, start: nat, token: string, sizes: nat -> int, i: nat,
                                        limit: nat)
    requires Distinct(all) && start <= |all| && limit > |all| - start
    requires forall j :: 0 < j < |all| ==> all[j] != ""
    requires if token == "" then start == 0 else start < |all| && token == all[start]
    ensures Followed(all, token, sizes, i, limit) == Some(all[start..])
    decreases limit
  {
    hide Answer, PageFrom;
    AnswerFrom(all, start, token, sizes(i));
    PageShape(all, start, sizes(i));
    var end := start + |PageFrom(all, start, sizes(i)).ids|;
    if end < |all| {
      FollowedFrom(all, end, all[end], sizes, i + 1, limit - 1);
      assert all[start..end] + all[end..] == all[start..];
    } else {
      assert all[start..end] == all[start..];
    }
  }

  lemma EmptyComesFirst(all: seq<string>)
    requires SortedStrings(all) && Distinct(all)
    ensures forall j :: 0 < j < |all| ==> all[j] != ""
  {
    forall j | 0 < j < |all| ensures all[j] != "" {
      assert !Before(all[j], all[0]);
      assert all[0] != all[j];
    }
  }

  /** Following the tokens from the beginning, over a listing of distinct ids that does not change,
      ends within one page more than there are entries and shows all of them, sorted, once each,
      whatever the page sizes. */
  lemma FollowingShowsAll(found: seq<string>, sizes: nat -> int)
    requires Distinct(found)
    ensures Followed(Sort(found), "", sizes, 0, |found| + 1) == Some(Sort(found))
    ensures multiset(Sort(found)) == multiset(found) && SortedStrings(Sort(found))
  {
    hide Sort, Distinct, Followed, SortedStrings;
    var all := Sort(found);
    assert |all| == |multiset(all)| == |multiset(found)| == |found|;
    SortKeepsDistinct(found, all);
    EmptyComesFirst(all);
    FollowedFrom(all, 0, "", sizes, 0, |found| + 1);
    assert all[0..] == all;
  }

  lemma SortKeepsDistinct(a: seq<string>, b: seq<string>)
    requires Distinct(a) && multiset(a) == multiset(b)
    ensures Distinct(b)
  {
    forall i, j | 0 <= i < j < |b| ensures b[i] != b[j] {
      if b[i] == b[j] {
        assert b == b[..i] + [b[i]] + b[i + 1..j] + [b[j]] + b[j + 1..];
        assert multiset(b)[b[i]] >= 2;
        AtMostOnce(a, b[i]);
      }
    }
  }

  lemma {:induction false} AtMostOnce(a: seq<string>, x: string)
    requires Distinct(a)
    ensures multiset(a)[x] <= 1
    decreases |a|
  {
    if a != [] {
      assert a == [a[0]] + a[1..];
      AtMostOnce(a[1..], x);
      if a[0] == x {
        assert x !in a[1..];
      }
    }
  }
}
