/** Suggesting the accepted parameter nearest to a rejected one. */
module Suggestions {

  function Min(x: int, y: int): int {
    if x < y then x else y
  }

  /** The recursive Levenshtein distance. */
  function Distance(a: string, b: string): nat
    decreases |a| + |b|
  {
    if a == "" then |b|
    else if b == "" then |a|
    else
      var a', b' := a[..|a| - 1], b[..|b| - 1];
      Min(Min(Distance(a, b') + 1, Distance(a', b) + 1),
          Distance(a', b') + if a[|a| - 1] == b[|b| - 1] then 0 else 1)
  }

  // What the distance means

  datatype Edit = Keep | Change | Insert | Drop

  /** The edits, the last one first undone, turn a into b. */
  predicate Turns(edits: seq<Edit>, a: string, b: string) {
    if edits == [] then a == "" && b == ""
    else
      var rest := edits[..|edits| - 1];
      match edits[|edits| - 1]
      case Keep => a != "" && b != "" && a[|a| - 1] == b[|b| - 1] && Turns(rest, a[..|a| - 1], b[..|b| - 1])
      case Change => a != "" && b != "" && Turns(rest, a[..|a| - 1], b[..|b| - 1])
      case Insert => b != "" && Turns(rest, a, b[..|b| - 1])
      case Drop => a != "" && Turns(rest, a[..|a| - 1], b)
  }

  function Cost(edits: seq<Edit>): nat {
    if edits == [] then 0
    else Cost(edits[..|edits| - 1]) + if edits[|edits| - 1] == Keep then 0 else 1
  }

  /** No edits that turn a into b cost less than their distance. */
  lemma {:induction false} NoneCheaper(edits: seq<Edit>, a: string, b: string)
    requires Turns(edits, a, b)
    ensures Distance(a, b) <= Cost(edits)
    decreases |edits|
  {
    if edits != [] {
      var rest := edits[..|edits| - 1];
      match edits[|edits| - 1]
      case Keep => NoneCheaper(rest, a[..|a| - 1], b[..|b| - 1]);
      case Change => NoneCheaper(rest, a[..|a| - 1], b[..|b| - 1]);
      case Insert => NoneCheaper(rest, a, b[..|b| - 1]);
      case Drop => NoneCheaper(rest, a[..|a| - 1], b);
    }
  }

  /** And some cost exactly that. */
  lemma {:induction false} SomeAttain(a: string, b: string) returns (edits: seq<Edit>)
    ensures Turns(edits, a, b) && Cost(edits) == Distance(a, b)
    decreases |a| + |b|
  {
    if a == "" && b == "" {
      return [];
    }
    var rest, last;
    if a == "" {
      rest := SomeAttain(a, b[..|b| - 1]);
      last := Insert;
    } else if b == "" {
      rest := SomeAttain(a[..|a| - 1], b);
      last := Drop;
    } else {
      var a', b' := a[..|a| - 1], b[..|b| - 1];
      var d := Distance(a, b);
      if d == Distance(a, b') + 1 {
        rest := SomeAttain(a, b');
        last := Insert;
      } else if d == Distance(a', b) + 1 {
        rest := SomeAttain(a', b);
        last := Drop;
      } else {
        rest := SomeAttain(a', b');
        last := if a[|a| - 1] == b[|b| - 1] then Keep else Change;
      }
    }
    edits := rest + [last];
    assert edits[..|edits| - 1] == rest;
  }

  // The driver

  lemma RowStep(a: string, b: string, i: nat, j: nat)
    requires 0 < i <= |a| && 0 < j <= |b|
    ensures Distance(a[..i], b[..j])
         == Min(Min(Distance(a[..i], b[..j - 1]) + 1, Distance(a[..i - 1], b[..j]) + 1),
                Distance(a[..i - 1], b[..j - 1]) + if a[i - 1] == b[j - 1] then 0 else 1)
  {
    assert a[..i][..i - 1] == a[..i - 1];
    assert b[..j][..j - 1] == b[..j - 1];
  }

  /** The row of distances from a to every prefix of b. */
  ghost predicate Row(row: seq<int>, a: string, b: string) {
    |row| == |b| + 1 && forall j :: 0 <= j <= |b| ==> row[j] == Distance(a, b[..j])
  }

  /** The distance in two rows that change places. */
  method EditDistance(a: string, b: string) returns (d: int)
    ensures d == Distance(a, b)
  {
    var prev, cur := new int[|b| + 1], new int[|b| + 1];
    for j := 0 to |b| + 1
      invariant forall k :: 0 <= k < j ==> prev[k] == k
    {
      prev[j] := j;
    }
    assert Row(prev[..], a[..0], b);
    for i := 1 to |a| + 1
      invariant prev != cur && prev.Length == cur.Length == |b| + 1 && fresh(prev) && fresh(cur)
      invariant Row(prev[..], a[..i - 1], b)
    {
      NextRow(a, b, i, prev, cur);
      prev, cur := cur, prev;
    }
    assert a[..|a|] == a && b[..|b|] == b;
    d := prev[|b|];
  }

  method NextRow(a: string, b: string, i: nat, prev: array<int>, cur: array<int>)
    requires 0 < i <= |a| && prev != cur && prev.Length == cur.Length == |b| + 1
    requires Row(prev[..], a[..i - 1], b)
    modifies cur
    ensures Row(cur[..], a[..i], b)
  {
    hide Distance;
    ghost var was := prev[..];
    cur[0] := i;
    assert Distance(a[..i], b[..0]) == i by { NoneOf(a[..i], b[..0]); }
    for j := 1 to |b| + 1
      invariant prev[..] == was
      invariant forall k :: 0 <= k < j ==> cur[k] == Distance(a[..i], b[..k])
    {
      RowStep(a, b, i, j);
      var cost := 1;
      if a[i - 1] == b[j - 1] {
        cost := 0;
      }
      assert was[j] == Distance(a[..i - 1], b[..j]) && was[j - 1] == Distance(a[..i - 1], b[..j - 1]);
      cur[j] := Min(Min(cur[j - 1] + 1, prev[j] + 1), prev[j - 1] + cost);
    }
  }

  lemma NoneOf(a: string, b: string)
    requires b == ""
    ensures Distance(a, b) == |a|
  {
  }

  /** At most this far off is worth suggesting. */
  function Reach(got: string): int {
    1 + |got| / 3
  }

  /** The first accepted name at the least distance, if that is positive and small enough. What is
      suggested is always such a name's neighbour; and unless the empty name is accepted, it is the
      nearest, and nothing is suggested only when there is no nearest one in reach. */
  method NearestParameter(got: string, accepted: seq<string>, lower: string -> string) returns (r: string)
    ensures r != "" ==> r in accepted && 0 < Distance(lower(got), lower(r)) <= Reach(got)
    ensures r != "" && "" !in accepted ==> First(got, accepted, lower, r)
    ensures r == "" && "" !in accepted ==>
              forall c :: c in accepted && Least(got, accepted, lower, c) ==>
                !(0 < Distance(lower(got), lower(c)) <= Reach(got))
  {
    hide Distance;
    var best, bestDist := "", 0;
    for i := 0 to |accepted|
      invariant best == "" ==> bestDist == 0 || "" in accepted
      invariant best != "" ==> best in accepted[..i] && bestDist == Distance(lower(got), lower(best))
      invariant "" !in accepted ==> (best == "" <==> i == 0)
      invariant "" !in accepted && best != "" ==> First(got, accepted[..i], lower, best)
    {
      var cand := accepted[i];
      assert accepted[..i + 1] == accepted[..i] + [cand];
      var d := EditDistance(lower(got), lower(cand));
      if best == "" || d < bestDist {
        if "" !in accepted && best != "" {
          FirstDrops(got, accepted[..i], lower, best, cand);
        } else if "" !in accepted {
          assert First(got, [cand], lower, cand) by { assert [cand][0] == cand; }
        }
        best, bestDist := cand, d;
      } else if "" !in accepted {
        FirstStays(got, accepted[..i], lower, best, cand);
      }
    }
    assert accepted[..|accepted|] == accepted;
    if bestDist > 0 && bestDist <= 1 + |got| / 3 {
      return best;
    }
    r := "";
  }

  ghost predicate Least(got: string, accepted: seq<string>, lower: string -> string, c: string) {
    forall o :: o in accepted ==> Distance(lower(got), lower(c)) <= Distance(lower(got), lower(o))
  }

  /** c is the first of those at the least distance. */
  ghost predicate First(got: string, accepted: seq<string>, lower: string -> string, c: string) {
    && Least(got, accepted, lower, c)
    && exists i :: 0 <= i < |accepted| && accepted[i] == c
                   && forall j :: 0 <= j < i ==>
                       Distance(lower(got), lower(accepted[j])) > Distance(lower(got), lower(c))
  }

  lemma FirstStays(got: string, accepted: seq<string>, lower: string -> string, best: string, cand: string)
    requires First(got, accepted, lower, best) && Distance(lower(got), lower(cand)) >= Distance(lower(got), lower(best))
    ensures First(got, accepted + [cand], lower, best)
  {
    hide Distance;
    var i :| 0 <= i < |accepted| && accepted[i] == best
             && forall j :: 0 <= j < i ==> Distance(lower(got), lower(accepted[j])) > Distance(lower(got), lower(best));
    assert (accepted + [cand])[i] == best;
  }

  lemma FirstDrops(got: string, accepted: seq<string>, lower: string -> string, best: string, cand: string)
    requires First(got, accepted, lower, best) && Distance(lower(got), lower(cand)) < Distance(lower(got), lower(best))
    ensures First(got, accepted + [cand], lower, cand)
  {
    hide Distance;
    var all := accepted + [cand];
    forall j | 0 <= j < |accepted| ensures Distance(lower(got), lower(all[j])) > Distance(lower(got), lower(cand)) {
      assert accepted[j] in accepted;
    }
    assert all[|accepted|] == cand;
  }
}
