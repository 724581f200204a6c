/** Optional values, for absent keys and for results that may be missing. */
module Wrappers {
  datatype Option<+T> = None | Some(value: T)
}

/** Calls that may fail. */
module Faults {

  /** Whether a call is answered; always, where no call fails. */
  method Reach(reliable: bool) returns (ok: bool)
    ensures reliable ==> ok
  {
    ok := *;
    ok := ok || reliable;
  }
}

/** Byte-order comparison of strings and a sort by it, as Go's sort.Strings does. */
module Text {

  /** True iff `id` names `root` itself or something beneath it. */
  predicate AtOrUnder(id: string, root: string) {
    id == root || root + "/" <= id
  }

  lemma SlashAfter(a: string, d: string)
    requires a + "/" <= d
    ensures |a| < |d| && d[|a|] == '/'
  {
    assert d[|a|] == (a + "/")[|a|];
  }

  lemma ShorterPrefix(a: string, b: string, d: string)
    requires a <= d && b <= d && |a| <= |b|
    ensures a <= b
  {
    assert forall i :: 0 <= i < |a| ==> a[i] == d[i] == b[i];
  }

  /** Lexicographic order on strings. */
  predicate Before(a: string, b: string) {
    b != [] && (a == [] || a[0] < b[0] || (a[0] == b[0] && Before(a[1..], b[1..])))
  }

  lemma {:induction false} BeforeIrreflexive(a: string)
    ensures !Before(a, a)
  {
    if a != [] { BeforeIrreflexive(a[1..]); }
  }

  lemma {:induction false} BeforeTotal(a: string, b: string)
    ensures a == b || Before(a, b) || Before(b, a)
  {
    if a != [] && b != [] && a[0] == b[0] {
      BeforeTotal(a[1..], b[1..]);
      assert a[1..] == b[1..] ==> a == [a[0]] + b[1..] == b;
    }
  }

  lemma {:induction false} BeforeTransitive(a: string, b: string, c: string)
    requires Before(a, b) && Before(b, c)
    ensures Before(a, c)
  {
    if a != [] && a[0] == b[0] == c[0] { BeforeTransitive(a[1..], b[1..], c[1..]); }
  }

  ghost predicate SortedStrings(s: seq<string>) {
    forall i, j :: 0 <= i < j < |s| ==> !Before(s[j], s[i])
  }

  function Insert(x: string, s: seq<string>): (r: seq<string>)
    ensures forall i :: 0 <= i < |r| ==> r[i] == x || r[i] in s
  {
    if s == [] || !Before(s[0], x) then [x] + s else [s[0]] + Insert(x, s[1..])
  }

  lemma {:induction false} InsertSorts(x: string, s: seq<string>)
    requires SortedStrings(s)
    ensures multiset(Insert(x, s)) == multiset(s) + multiset{x}
    ensures SortedStrings(Insert(x, s))
  {
    hide Before;
    if s == [] || !Before(s[0], x) {
      HeadSorted(x, s);
    } else {
      var rest := Insert(x, s[1..]);
      InsertSorts(x, s[1..]);
      assert s == [s[0]] + s[1..];
      if Before(x, s[0]) {
        BeforeTransitive(x, s[0], x);
        BeforeIrreflexive(x);
      }
      forall j | 0 <= j < |rest| ensures !Before(rest[j], s[0]) {
        if rest[j] != x {
          var i :| 0 <= i < |s[1..]| && s[1..][i] == rest[j];
          assert s[i + 1] == rest[j];
        }
      }
    }
  }

  lemma HeadSorted(x: string, s: seq<string>)
    requires SortedStrings(s) && (s != [] ==> !Before(s[0], x))
    ensures SortedStrings([x] + s)
  {
    forall j | 0 <= j < |s| ensures !Before(s[j], x) {
      if Before(s[j], x) && j > 0 {
        BeforeTotal(s[0], s[j]);
        if s[0] != s[j] { BeforeTransitive(s[0], s[j], x); }
      }
    }
  }

  /** sort.Strings. */
  function Sort(s: seq<string>): (r: seq<string>)
    ensures multiset(r) == multiset(s) && SortedStrings(r)
  {
    if s == [] then []
    else
      assert s == [s[0]] + s[1..];
      InsertSorts(s[0], Sort(s[1..]));
      Insert(s[0], Sort(s[1..]))
  }
}

/** Volume handles, confinement to the configured parent, and proof of ownership. */
module Volume {
  import opened Wrappers
  import opened Text

  datatype ID = ID(backend: string, protocol: string, pool: string, parent: string,
                   namespace: string, name: string)
  {
    function DatasetPath(): string {
      if namespace == "" then pool + "/" + parent + "/" + name
      else pool + "/" + parent + "/" + namespace + "/" + name
    }
  }

  predicate ValidComponent(p: string) {
    p != "" && p != "." && p != ".." && '/' !in p && '\\' !in p
  }

  predicate Confine(id: ID, pool: string, parent: string) {
    && ValidComponent(pool) && ValidComponent(parent)
    && ValidComponent(id.pool) && ValidComponent(id.parent) && ValidComponent(id.name)
    && (id.namespace != "" ==> ValidComponent(id.namespace))
    && id.pool == pool && id.parent == parent
  }

  /** The parts of a path between separators. */
  function Split(s: string): (r: seq<string>)
    ensures r != []
  {
    if s == "" then [""]
    else if s[0] == '/' then [""] + Split(s[1..])
    else
      var rest := Split(s[1..]);
      [[s[0]] + rest[0]] + rest[1..]
  }

  function Join(parts: seq<string>): string {
    if parts == [] then ""
    else if |parts| == 1 then parts[0]
    else parts[0] + "/" + Join(parts[1..])
  }

  /** What is left of the parts: empty ones and dots go, and two dots undo the part before them. */
  function Resolved(parts: seq<string>): seq<string> {
    if parts == [] then []
    else
      var before, last := Resolved(parts[..|parts| - 1]), parts[|parts| - 1];
      if last == "" || last == "." then before
      else if last == ".." && before != [] && before[|before| - 1] != ".." then before[..|before| - 1]
      else before + [last]
  }

  /** path.Clean, for a path that does not begin with a separator. */
  function CleanPath(s: string): string {
    var parts := Resolved(Split(s));
    if parts == [] then "." else Join(parts)
  }

  lemma {:induction false} SplitOne(a: string)
    requires '/' !in a
    ensures Split(a) == [a]
  {
    if a != "" {
      SplitOne(a[1..]);
      assert [a[0]] + a[1..] == a;
    }
  }

  lemma {:induction false} SplitFirst(a: string, b: string)
    requires '/' !in a
    ensures Split(a + "/" + b) == [a] + Split(b)
  {
    var s := a + "/" + b;
    if a == "" {
      assert s[1..] == b;
    } else {
      SplitFirst(a[1..], b);
      assert s[1..] == a[1..] + "/" + b;
      assert [a[0]] + a[1..] == a;
    }
  }

  lemma {:induction false} SplitJoined(parts: seq<string>)
    requires parts != [] && forall i :: 0 <= i < |parts| ==> '/' !in parts[i]
    ensures Split(Join(parts)) == parts
    decreases |parts|
  {
    if |parts| == 1 {
      SplitOne(parts[0]);
    } else {
      SplitJoined(parts[1..]);
      SplitFirst(parts[0], Join(parts[1..]));
    }
  }

  lemma {:induction false} NothingToResolve(parts: seq<string>)
    requires forall i :: 0 <= i < |parts| ==> ValidComponent(parts[i])
    ensures Resolved(parts) == parts
    decreases |parts|
  {
    if parts != [] {
      NothingToResolve(parts[..|parts| - 1]);
    }
  }

  /** A path of valid components is clean already. */
  lemma CleanAlready(parts: seq<string>)
    requires parts != [] && forall i :: 0 <= i < |parts| ==> ValidComponent(parts[i])
    ensures CleanPath(Join(parts)) == Join(parts)
  {
    SplitJoined(parts);
    NothingToResolve(parts);
  }

  /** A part of a path that holds no separator, of either kind, and that cleaning leaves in its place. */
  predicate Inert(part: string) {
    '/' !in part && '\\' !in part && CleanPath("x/" + part + "/y") == "x/" + part + "/y"
  }

  lemma ResolvedSnoc(init: seq<string>, last: string)
    ensures var before := Resolved(init);
            Resolved(init + [last]) ==
            if last == "" || last == "." then before
            else if last == ".." && before != [] && before[|before| - 1] != ".." then before[..|before| - 1]
            else before + [last]
  {
    assert (init + [last])[..|init|] == init;
  }

  lemma ValidIsInert(part: string)
    ensures ValidComponent(part) <==> Inert(part)
  {
    if '/' !in part {
      var parts := ["x", part, "y"];
      JoinThree("x", part, "y");
      assert "x" + "/" + part + "/" + "y" == "x/" + part + "/y";
      SplitJoined(parts);
      if part in {"", ".", ".."} {
        DotsResolved(part);
      } else if '\\' !in part {
        CleanAlready(parts);
      }
    }
  }

  lemma DotsResolved(part: string)
    requires part in {"", ".", ".."}
    ensures var left := Resolved(["x", part, "y"]);
            left != [] && |Join(left)| <= 3
  {
    ResolvedSnoc([], "x");
    ResolvedSnoc(["x"], part);
    ResolvedSnoc(["x", part], "y");
    assert [] + ["x"] == ["x"] && ["x"] + [part] == ["x", part] && ["x", part] + ["y"] == ["x", part, "y"];
    assert Resolved(["x", part, "y"]) == if part == ".." then ["y"] else ["x", "y"];
    assert ["x", "y"][1..] == ["y"];
  }

  lemma JoinThree(a: string, b: string, c: string)
    ensures Join([a, b, c]) == a + "/" + b + "/" + c
  {
    assert [a, b, c][1..] == [b, c] && [b, c][1..] == [c];
    assert Join([b, c]) == b + "/" + c;
    assert a + "/" + (b + "/" + c) == a + "/" + b + "/" + c;
  }

  /** A handle is confined exactly when it names the configured pool and parent and each of its parts, of
      which only the namespace may be missing, is inert. */
  lemma ConfineIff(id: ID, pool: string, parent: string)
    ensures Confine(id, pool, parent) <==>
            && id.pool == pool && id.parent == parent
            && Inert(pool) && Inert(parent) && Inert(id.name) && (id.namespace == "" || Inert(id.namespace))
  {
    hide Inert, ValidComponent;
    ValidIsInert(pool);
    ValidIsInert(parent);
    ValidIsInert(id.name);
    ValidIsInert(id.namespace);
  }

  /** The final comparison of Confine, of the cleaned paths, can never refuse what the component
      checks let through: both paths are clean already, and one is beneath the other. */
  lemma ConfinedIsUnderParent(id: ID, pool: string, parent: string)
    requires Confine(id, pool, parent)
    ensures CleanPath(pool + "/" + parent) == pool + "/" + parent && CleanPath(id.DatasetPath()) == id.DatasetPath()
    ensures CleanPath(pool + "/" + parent) + "/" <= CleanPath(id.DatasetPath())
  {
    hide CleanPath;
    var above := [pool, parent];
    var parts := if id.namespace == "" then above + [id.name] else above + [id.namespace, id.name];
    CleanAlready(above);
    CleanAlready(parts);
    assert Join([parent]) == parent && above[1..] == [parent];
    assert Join(above) == pool + "/" + parent;
    PathIsJoined(id);
    var prefix := pool + "/" + parent + "/";
    if id.namespace == "" {
      assert id.DatasetPath() == prefix + id.name;
    } else {
      assert id.DatasetPath() == prefix + (id.namespace + "/" + id.name);
    }
  }

  lemma PathIsJoined(id: ID)
    ensures id.DatasetPath()
         == Join([id.pool, id.parent] + if id.namespace == "" then [id.name] else [id.namespace, id.name])
  {
    var rest := if id.namespace == "" then [id.name] else [id.namespace, id.name];
    var parts := [id.pool, id.parent] + rest;
    assert parts[1..] == [id.parent] + rest && parts[1..][1..] == rest;
    assert id.namespace != "" ==> rest[1..] == [id.name] && Join(rest) == id.namespace + "/" + Join([id.name]);
    var end := Join(rest);
    assert id.namespace != "" ==> end == id.namespace + "/" + id.name;
    assert Join(parts) == id.pool + "/" + (id.parent + "/" + end);
    assert id.pool + "/" + (id.parent + "/" + end) == id.pool + "/" + id.parent + "/" + end;
    if id.namespace != "" {
      assert id.pool + "/" + id.parent + "/" + end == id.pool + "/" + id.parent + "/" + id.namespace + "/" + id.name;
    }
  }

  datatype Property = Property(value: string, source: string)

  const OWNER_PROPERTY := "io.truenas.csi:managed"
  const OWNER_VALUE := "truenas-csi"
  const OWNER_ID_PROPERTY := "io.truenas.csi:owner-id"
  const SOURCE_LOCAL := "LOCAL"

  /** A dataset is the driver's own when it carries the marker and either the marker's owner id
      names this very dataset or, with no owner id at all, the marker was set locally. */
  predicate VerifyOwned(id: string, props: map<string, Property>) {
    && OWNER_PROPERTY in props
    && props[OWNER_PROPERTY].value == OWNER_VALUE
    && (if OWNER_ID_PROPERTY in props
        then props[OWNER_ID_PROPERTY].value == id
        else props[OWNER_PROPERTY].source == SOURCE_LOCAL)
  }

  /** The properties a dataset is stamped with when the driver creates it. */
  function Stamped(props: map<string, Property>, id: string): (r: map<string, Property>)
    ensures VerifyOwned(id, r) && r.Keys == props.Keys + {OWNER_PROPERTY, OWNER_ID_PROPERTY}
    ensures forall k :: k in props && k != OWNER_PROPERTY && k != OWNER_ID_PROPERTY ==>
              k in r && r[k] == props[k]
  {
    props[OWNER_PROPERTY := Property(OWNER_VALUE, SOURCE_LOCAL)]
         [OWNER_ID_PROPERTY := Property(id, SOURCE_LOCAL)]
  }
}
