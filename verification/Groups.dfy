/** Group snapshots: one recursive snapshot of a common parent, trimmed to the members. */
module Groups {
  import Faults
  import opened Wrappers
  import opened Text
  import opened Volume
  import opened Retirement
  import Graveyard

  datatype Snap = Snap(dataset: string, name: string)
  {
    function Id(): string { dataset + "@" + name }
  }

  /** One row of a snapshot listing; the appliance may leave the dataset out. */
  datatype Listed = Listed(id: string, dataset: string)

  /** Cuts <dataset>@<name> at the last separator. */
  function SplitId(id: string): (string, string) {
    if '@' !in id then (id, "")
    else if id[|id| - 1] == '@' then (id[..|id| - 1], "")
    else
      var (ds, name) := SplitId(id[..|id| - 1]);
      (ds, name + [id[|id| - 1]])
  }

  lemma {:induction false} SplitOf(ds: string, name: string)
    requires '@' !in name
    ensures SplitId(ds + "@" + name) == (ds, name) && SplitId(name) == (name, "")
    decreases |name|
  {
    var id := ds + "@" + name;
    assert id[|ds|] == '@';
    if name == "" {
      assert id[..|id| - 1] == ds;
    } else {
      var shorter := name[..|name| - 1];
      assert id[..|id| - 1] == ds + "@" + shorter;
      assert id[|id| - 1] == name[|name| - 1];
      SplitOf(ds, shorter);
      assert shorter + [name[|name| - 1]] == name;
    }
  }

  function DatasetOf(l: Listed): string {
    if l.dataset == "" then SplitId(l.id).0 else l.dataset
  }

  predicate InGroup(s: Snap, parent: string, name: string) {
    s.name == name && AtOrUnder(s.dataset, parent)
  }

  ghost predicate NoGroup(snaps: set<Snap>, parent: string, name: string) {
    forall s :: s in snaps ==> !InGroup(s, parent, name)
  }

  /** What one recursive snapshot takes. */
  function Taken(datasets: set<string>, parent: string, name: string): set<Snap> {
    set d | d in datasets && AtOrUnder(d, parent) :: Snap(d, name)
  }

  /** The group as asked for: the anchor and the members. */
  function Wanted(datasets: set<string>, parent: string, name: string, members: set<string>): set<Snap> {
    set d | d in datasets && AtOrUnder(d, parent) && (d == parent || d in members) :: Snap(d, name)
  }

  function WithoutGroup(snaps: set<Snap>, parent: string, name: string): set<Snap> {
    set s | s in snaps && !InGroup(s, parent, name)
  }

  lemma FreshGroupRemoved(datasets: set<string>, snaps: set<Snap>, parent: string, name: string, members: set<string>)
    requires NoGroup(snaps, parent, name)
    ensures WithoutGroup(snaps + Wanted(datasets, parent, name, members), parent, name) == snaps
  {
    hide AtOrUnder;
  }

  /** The group has nothing of a dataset merely sharing the parent's name as a prefix. */
  lemma SiblingsUntouched(snaps: set<Snap>, parent: string, name: string, s: Snap)
    requires s in snaps && parent <= s.dataset && s.dataset != parent && s.dataset[|parent|] != '/'
    ensures !InGroup(s, parent, name) && s in WithoutGroup(snaps, parent, name)
  {
    if parent + "/" <= s.dataset {
      SlashAfter(parent, s.dataset);
    }
  }

  // The sources of a group

  datatype Location = Location(pool: string, parent: string)

  datatype Code = InvalidArgument | FailedPrecondition | Unknown

  datatype Parent = Found(path: string) | Refused(code: Code)

  predicate Agrees(first: ID, s: ID) {
    s.backend == first.backend && ParentOf(s.DatasetPath()) == ParentOf(first.DatasetPath())
  }

  predicate Placed(config: map<string, Location>, s: ID) {
    && s.backend in config
    && var want, parent := config[s.backend].pool + "/" + config[s.backend].parent, ParentOf(s.DatasetPath());
       parent == want || ParentOf(parent) == want
  }

  /** The dataset the recursive snapshot is taken on. There is one exactly when there are sources,
      they are on one appliance beneath one parent, and that is the configured dataset or a
      namespace of it; a parent that differs is reported apart from an appliance that does. */
  method GroupParent(config: map<string, Location>, sources: seq<ID>) returns (r: Parent)
    ensures r.Found? <==> sources != [] && (forall s :: s in sources ==>
              Agrees(sources[0], s)) && Placed(config, sources[0])
    ensures r.Found? ==> r.path == ParentOf(sources[0].DatasetPath())
    ensures r == Refused(FailedPrecondition) <==>
              exists i :: 0 < i < |sources| && (forall j :: 0 <= j < i ==> Agrees(sources[0], sources[j]))
                          && !Agrees(sources[0], sources[i]) && sources[i].backend == sources[0].backend
  {
    hide ParentOf;
    if sources == [] {
      return Refused(InvalidArgument);
    }
    var backend, parent := sources[0].backend, ParentOf(sources[0].DatasetPath());
    var i := 1;
    while i < |sources|
      invariant 1 <= i <= |sources|
      invariant forall j :: 0 <= j < i ==> Agrees(sources[0], sources[j])
    {
      assert sources[i].backend != backend || ParentOf(sources[i].DatasetPath()) != parent
        <==> !Agrees(sources[0], sources[i]);
      if sources[i].backend != backend {
        return Refused(InvalidArgument);
      }
      if ParentOf(sources[i].DatasetPath()) != parent {
        return Refused(FailedPrecondition);
      }
      i := i + 1;
    }
    if backend !in config {
      return Refused(Unknown);
    }
    var want := config[backend].pool + "/" + config[backend].parent;
    if parent != want && ParentOf(parent) != want {
      return Refused(InvalidArgument);
    }
    r := Found(parent);
  }

  function Paths(sources: seq<ID>): set<string> {
    set s | s in sources :: s.DatasetPath()
  }

  // Handles

  /** Cuts <backend>/<dataset>@<name>. */
  function ParseSnapshotId(id: string): Option<(string, string)> {
    var backend := Graveyard.UpTo(id, '/');
    if backend.None? || backend.value == "" then None
    else
      UpToLength(id, '/');
      var zfs := id[|backend.value| + 1..];
      if zfs == "" || '@' !in zfs then None else Some((backend.value, zfs))
  }

  lemma {:induction false} UpToLength(s: string, c: char)
    ensures Graveyard.UpTo(s, c).Some? ==> |Graveyard.UpTo(s, c).value| < |s|
  {
    if s != "" {
      UpToLength(s[1..], c);
    }
  }

  function SnapshotId(backend: string, zfs: string): string {
    backend + "/" + zfs
  }

  /** A handle the driver issues is read back as what it was issued for. */
  lemma HandleRoundTrip(backend: string, ds: string, name: string)
    requires backend != "" && '/' !in backend && '@' !in name
    ensures ParseSnapshotId(SnapshotId(backend, ds + "@" + name)) == Some((backend, ds + "@" + name))
    ensures SplitId(ds + "@" + name) == (ds, name)
  {
    var zfs := ds + "@" + name;
    Graveyard.UpToIs(backend, '/', zfs);
    assert backend + ['/'] + zfs == backend + "/" + zfs;
    assert (backend + "/" + zfs)[|backend| + 1..] == zfs;
    assert zfs[|ds|] == '@';
    SplitOf(ds, name);
  }

  /** Exactly the handles of an appliance's name, a separator and a snapshot are read, as just those. */
  lemma ParseIff(id: string, backend: string, zfs: string)
    ensures ParseSnapshotId(id) == Some((backend, zfs)) <==>
            id == backend + "/" + zfs && backend != "" && '/' !in backend && '@' in zfs
  {
    var b := Graveyard.UpTo(id, '/');
    if b.Some? { UpToSplits(id, '/'); }
    if id == backend + "/" + zfs && '/' !in backend {
      Graveyard.UpToIs(backend, '/', zfs);
      assert backend + ['/'] + zfs == id;
      assert id[|backend| + 1..] == zfs;
    }
  }

  lemma {:induction false} UpToSplits(s: string, c: char)
    requires Graveyard.UpTo(s, c).Some?
    ensures var a := Graveyard.UpTo(s, c).value;
            c !in a && |a| < |s| && s == a + [c] + s[|a| + 1..]
  {
    if s[0] != c {
      UpToSplits(s[1..], c);
    }
  }

  predicate MemberOf(m: string, backend: string, parent: string, name: string) {
    var p := ParseSnapshotId(m);
    p.Some? && p.value.0 == backend && SplitId(p.value.1).1 == name && parent + "/" <= SplitId(p.value.1).0
  }

  method ValidateGroupMembers(backend: string, groupZFS: string, members: seq<string>) returns (ok: bool)
    ensures ok <==> forall m :: m in members ==> MemberOf(m, backend, SplitId(groupZFS).0, SplitId(groupZFS).1)
  {
    hide SplitId, ParseSnapshotId;
    var (parent, name) := SplitId(groupZFS);
    for i := 0 to |members|
      invariant forall j :: 0 <= j < i ==> MemberOf(members[j], backend, parent, name)
    {
      var p := ParseSnapshotId(members[i]);
      assert members[i] in members;
      if p.None? {
        return false;
      }
      var (ds, mName) := SplitId(p.value.1);
      if p.value.0 != backend || mName != name || !(parent + "/" <= ds) {
        return false;
      }
    }
    ok := true;
  }

  // Longest first

  predicate LongestFirst(s: seq<Snap>) {
    forall i, j :: 0 <= i < j < |s| ==> |s[i].Id()| >= |s[j].Id()|
  }

  function InsertByLength(x: Snap, s: seq<Snap>): (r: seq<Snap>)
    ensures multiset(r) == multiset(s)[x := multiset(s)[x] + 1]
    decreases |s|
  {
    if s == [] || |x.Id()| > |s[0].Id()| then [x] + s
    else
      assert s == [s[0]] + s[1..];
      [s[0]] + InsertByLength(x, s[1..])
  }

  lemma {:induction false} InsertKeepsOrder(x: Snap, s: seq<Snap>)
    requires LongestFirst(s)
    ensures LongestFirst(InsertByLength(x, s))
    decreases |s|
  {
    hide Snap.Id;
    if s != [] && |x.Id()| <= |s[0].Id()| {
      var rest := InsertByLength(x, s[1..]);
      InsertKeepsOrder(x, s[1..]);
      forall y | y in rest ensures |y.Id()| <= |s[0].Id()| {
        assert y in multiset(rest);
        if y != x {
          assert y in multiset(s[1..]);
        }
      }
    }
  }

  /** sort.Slice by descending length of id. */
  method SortByLength(s: seq<Snap>) returns (r: seq<Snap>)
    ensures multiset(r) == multiset(s) && LongestFirst(r)
  {
    hide InsertByLength, LongestFirst;
    r := [];
    EmptyOrdered();
    assert s[..|s|] == s;
    for i := 0 to |s|
      invariant multiset(r) == multiset(s[..i]) && LongestFirst(r)
    {
      InsertKeepsOrder(s[i], r);
      assert s[..i + 1] == s[..i] + [s[i]];
      r := InsertByLength(s[i], r);
    }
  }

  lemma EmptyOrdered()
    ensures LongestFirst([])
  {
  }

  // The driver

  ghost predicate WellNamed(snaps: set<Snap>) {
    forall s :: s in snaps ==> '@' !in s.name && '@' !in s.dataset && s.dataset != "" && s.dataset[0] != '/'
  }

  /** A clone lies in the pool of the snapshot it came from. */
  ghost predicate InPool(origins: map<string, string>) {
    forall d :: d in origins ==> PoolOf(SplitId(origins[d]).0) <= d
  }

  lemma SameId(a: Snap, b: Snap)
    requires '@' !in a.name && '@' !in b.name && a.Id() == b.Id()
    ensures a == b
  {
    SplitOf(a.dataset, a.name);
    SplitOf(b.dataset, b.name);
  }

  /** The rows show these snapshots, each once. */
  ghost predicate Shows(rows: seq<Listed>, of: seq<Snap>) {
    && |rows| == |of|
    && (forall i :: 0 <= i < |rows| ==>
        rows[i].id == of[i].Id() && (rows[i].dataset == "" || rows[i].dataset == of[i].dataset))
    && (forall i, j :: 0 <= i < j < |of| ==> of[i] != of[j])
  }

  lemma RowIs(rows: seq<Listed>, of: seq<Snap>, i: nat)
    requires Shows(rows, of) && i < |rows| && '@' !in of[i].name
    ensures DatasetOf(rows[i]) == of[i].dataset && SplitId(rows[i].id) == (of[i].dataset, of[i].name)
  {
    SplitOf(of[i].dataset, of[i].name);
  }

  function Unwanted(of: seq<Snap>, parent: string, name: string, keep: set<string>): set<Snap> {
    set s | s in of && InGroup(s, parent, name) && s.dataset !in keep
  }

  function AsSet(order: seq<Snap>): set<Snap> {
    set s | s in order
  }

  class Snapshots {
    /** No call to the appliance fails. */
    const reliable: bool
    const config: map<string, Location>
    var datasets: set<string>
    var snaps: set<Snap>
    /** The snapshot each cloned dataset came from. */
    var origins: map<string, string>

    constructor (reliable: bool, config: map<string, Location>, datasets: set<string>, snaps: set<Snap>,
                 origins: map<string, string>)
      ensures this.reliable == reliable && this.config == config
      ensures this.datasets == datasets && this.snaps == snaps && this.origins == origins
    {
      this.reliable, this.config := reliable, config;
      this.datasets, this.snaps, this.origins := datasets, snaps, origins;
    }

    /** The snapshots of datasets whose path begins with the prefix, in any order. */
    method List(prefix: string) returns (rows: Option<seq<Listed>>, ghost of: seq<Snap>)
      ensures rows.Some? ==> Shows(rows.value, of) && (forall s :: s in of <==> s in snaps && prefix <= s.dataset)
      ensures reliable ==> rows.Some?
    {
      hide Snap.Id;
      of := [];
      var answered := Faults.Reach(reliable);
      if !answered {
        return None, of;
      }
      var out: seq<Listed> := [];
      var rest := set s | s in snaps && prefix <= s.dataset;
      while rest != {}
        invariant Shows(out, of)
        invariant forall s :: s in of ==> s !in rest
        invariant forall s :: s in of || s in rest <==> s in snaps && prefix <= s.dataset
        decreases |rest|
      {
        var s :| s in rest;
        var omitted: bool := *;
        rest := rest - {s};
        out := out + [Listed(s.Id(), if omitted then "" else s.dataset)];
        of := of + [s];
      }
      rows := Some(out);
    }

    /** pool.snapshot.delete; the answer may be lost. */
    method Remove(ghost s: Snap, id: string) returns (ok: bool)
      requires WellNamed(snaps) && id == s.Id() && '@' !in s.name
      modifies this`snaps
      ensures snaps == old(snaps) - {s} || (snaps == old(snaps) && !ok)
      ensures reliable ==> ok
    {
      hide Snap.Id;
      ok := Faults.Reach(reliable);
      var landed: bool := *;
      if ok || landed {
        forall t | t in snaps && t.Id() == id ensures t == s {
          SameId(t, s);
        }
        snaps := set t | t in snaps && t.Id() != id;
      }
    }

    /** Takes one snapshot of the parent and of everything beneath it, or none: it is refused when
        any of them exists already. */
    method TakeRecursive(parent: string, name: string) returns (ok: bool)
      modifies this`snaps
      ensures ok ==> snaps == old(snaps) + Taken(datasets, parent, name)
      ensures snaps == old(snaps) || snaps == old(snaps) + Taken(datasets, parent, name)
      ensures snaps != old(snaps) || ok ==> parent in datasets && '@' !in name && NoGroup(old(snaps), parent, name)
      ensures reliable && parent in datasets && '@' !in name && name != "" && NoGroup(old(snaps), parent, name) ==> ok
    {
      hide AtOrUnder;
      var clash := exists s :: s in snaps && InGroup(s, parent, name);
      if clash || parent !in datasets || '@' in name || name == "" {
        return false;
      }
      ok := Faults.Reach(reliable);
      var landed: bool := *;
      if ok || landed {
        snaps := snaps + Taken(datasets, parent, name);
      }
    }

    /** Removes the group's snapshots of datasets that are not to be kept, and no others. */
    method TrimNonMembers(parent: string, name: string, keep: set<string>) returns (ok: bool)
      requires WellNamed(snaps)
      modifies this`snaps
      ensures ok ==> snaps == set s | s in old(snaps) && !(InGroup(s, parent, name) && s.dataset !in keep)
      ensures snaps <= old(snaps) && forall s :: s in old(snaps) - snaps ==>
                InGroup(s, parent, name) && s.dataset !in keep
      ensures reliable ==> ok
    {
      hide Snap.Id, SplitId, DatasetOf, AtOrUnder;
      ghost var start := snaps;
      var rows, of := List(parent);
      if rows.None? {
        return false;
      }
      var i := 0;
      while i < |rows.value|
        invariant 0 <= i <= |rows.value| && WellNamed(snaps)
        invariant snaps == start - Unwanted(of[..i], parent, name, keep)
      {
        ghost var s := of[i];
        assert s in start && of[..i + 1] == of[..i] + [s];
        RowIs(rows.value, of, i);
        var ds := DatasetOf(rows.value[i]);
        if SplitId(rows.value[i].id).1 == name && ds !in keep && AtOrUnder(ds, parent) {
          assert Unwanted(of[..i + 1], parent, name, keep) == Unwanted(of[..i], parent, name, keep) + {s};
          var done := Remove(s, rows.value[i].id);
          if !done {
            return false;
          }
        } else {
          assert Unwanted(of[..i + 1], parent, name, keep) == Unwanted(of[..i], parent, name, keep);
        }
        i := i + 1;
      }
      assert of[..|rows.value|] == of;
      forall s | s in start && InGroup(s, parent, name) ensures s in of {
        UnderHasPrefix(s.dataset, parent);
      }
      ok := true;
    }

    /** Snapshots every source at one instant. When the group was not there before, success means
        that exactly the anchor and the members whose datasets exist were added; when it was, nothing
        is changed. So a handle returned names a snapshot that is there exactly when the source's
        dataset exists, or, for a group found, when the member was there already. No snapshot that
        existed is ever lost, however the call ends. */
    method CreateGroupSnapshot(sources: seq<ID>, name: string) returns (r: Option<Group>, parent: Parent)
      requires WellNamed(snaps) && forall d :: d in datasets ==> '@' !in d && d != "" && d[0] != '/'
      modifies this`snaps
      ensures old(snaps) <= snaps && WellNamed(snaps)
      ensures parent.Found? <==>
                sources != [] && (forall s :: s in sources ==> Agrees(sources[0], s)) && Placed(config, sources[0])
      ensures parent.Found? ==> parent.path == ParentOf(sources[0].DatasetPath())
      ensures parent.Refused? ==> r.None? && snaps == old(snaps)
      ensures parent.Found? && Snap(parent.path, name) in old(snaps) ==> snaps == old(snaps)
      ensures parent.Found? && Snap(parent.path, name) !in old(snaps) && r.Some? ==>
                && NoGroup(old(snaps), parent.path, name) && parent.path in datasets && '@' !in name
                && snaps == old(snaps) + Wanted(datasets, parent.path, name, Paths(sources))
      ensures parent.Found? && r.Some? ==>
                && r.value.id == SnapshotId(sources[0].backend, parent.path + "@" + name)
                && |r.value.members| == |sources|
                && forall i :: 0 <= i < |sources| ==>
                     r.value.members[i] == SnapshotId(sources[0].backend, sources[i].DatasetPath() + "@" + name)
      ensures parent.Found? && Creatable(parent.path, name, old(snaps)) ==> r.Some?
      ensures parent.Found? && r.Some? ==>
                forall i :: 0 <= i < |sources| ==>
                  (Snap(sources[i].DatasetPath(), name) in snaps <==>
                     if Snap(parent.path, name) in old(snaps) then Snap(sources[i].DatasetPath(), name) in old(snaps)
                     else sources[i].DatasetPath() in datasets)
    {
      hide ParentOf, Placed, AtOrUnder, Agrees, Wanted, NoGroup, Creatable, SnapshotId, WellNamed, ID.DatasetPath,
        Paths;
      parent := GroupParent(config, sources);
      r := None;
      if parent.Refused? {
        return;
      }
      var made := EnsureGroup(parent.path, name, Paths(sources));
      if !made {
        return;
      }
      var members: seq<string> := [];
      for i := 0 to |sources|
        invariant |members| == i
        invariant forall j :: 0 <= j < i ==>
                    members[j] == SnapshotId(sources[0].backend, sources[j].DatasetPath() + "@" + name)
      {
        members := members + [SnapshotId(sources[0].backend, sources[i].DatasetPath() + "@" + name)];
      }
      if Snap(parent.path, name) !in old(snaps) {
        forall i | 0 <= i < |sources|
          ensures Snap(sources[i].DatasetPath(), name) in snaps <==> sources[i].DatasetPath() in datasets
        {
          assert sources[i] in sources;
          MemberThere(datasets, old(snaps), name, sources, i);
        }
      }
      r := Some(Group(SnapshotId(sources[0].backend, parent.path + "@" + name), members));
    }

    /** Nothing stands in the way of the group: no call fails, and it exists or can be taken. */
    ghost predicate Creatable(parent: string, name: string, snaps: set<Snap>)
      reads this
    {
      && reliable && '@' !in name && name != "" && parent in datasets
      && (Snap(parent, name) in snaps || NoGroup(snaps, parent, name))
    }

    method EnsureGroup(parent: string, name: string, members: set<string>) returns (ok: bool)
      requires WellNamed(snaps) && forall d :: d in datasets ==> '@' !in d && d != "" && d[0] != '/'
      modifies this`snaps
      ensures old(snaps) <= snaps && WellNamed(snaps)
      ensures Snap(parent, name) in old(snaps) ==> snaps == old(snaps)
      ensures Snap(parent, name) !in old(snaps) && ok ==>
                && NoGroup(old(snaps), parent, name) && parent in datasets && '@' !in name
                && snaps == old(snaps) + Wanted(datasets, parent, name, members)
      ensures Creatable(parent, name, old(snaps)) ==> ok
    {
      hide Snap.Id, AtOrUnder;
      ok := Faults.Reach(reliable);
      if !ok {
        return;
      }
      ok := Faults.Reach(reliable);
      if !ok || Snap(parent, name) in snaps {
        return;
      }
      ok := TakeRecursive(parent, name);
      if ok {
        ok := TrimNonMembers(parent, name, {parent} + members);
      }
    }

    /** The snapshots of a group: those of its name at or beneath its parent. */
    method GroupSnapshots(groupZFS: string) returns (found: Option<seq<Snap>>)
      requires WellNamed(snaps)
      ensures found.Some? ==>
                && (forall s :: s in found.value <==>
                      s in snaps && InGroup(s, SplitId(groupZFS).0, SplitId(groupZFS).1))
                && (forall i, j :: 0 <= i < j < |found.value| ==> found.value[i] != found.value[j])
      ensures reliable ==> found.Some?
    {
      hide Snap.Id, SplitId, DatasetOf, AtOrUnder;
      var (parent, name) := SplitId(groupZFS);
      var rows, of := List(parent);
      if rows.None? {
        return None;
      }
      var out: seq<Snap> := [];
      for i := 0 to |rows.value|
        invariant forall s :: s in out <==> s in of[..i] && InGroup(s, parent, name)
        invariant forall j, k :: 0 <= j < k < |out| ==> out[j] != out[k]
      {
        RowIs(rows.value, of, i);
        assert of[..i + 1] == of[..i] + [of[i]] && of[i] !in of[..i];
        var ds := DatasetOf(rows.value[i]);
        if SplitId(rows.value[i].id).1 == name && AtOrUnder(ds, parent) {
          out := out + [Snap(ds, name)];
        }
      }
      assert of[..|rows.value|] == of;
      forall s | s in snaps && InGroup(s, parent, name) ensures s in of {
        UnderHasPrefix(s.dataset, parent);
      }
      found := Some(out);
    }

    /** Some dataset was cloned from a snapshot of the group. */
    ghost predicate Cloned(parent: string, name: string)
      reads this
    {
      exists d, s :: d in origins && s in snaps && InGroup(s, parent, name) && origins[d] == s.Id()
    }

    /** The datasets of the pool cloned from any of these snapshots. */
    method Blocked(found: seq<Snap>, pool: string) returns (blocked: set<string>)
      ensures forall d :: d in blocked <==> d in origins && pool <= d && exists s :: s in found && origins[d] == s.Id()
    {
      hide Snap.Id;
      var clonesOf: map<string, set<string>> := map[];
      var rest := set d | d in origins && pool <= d;
      while rest != {}
        invariant forall d :: d in rest ==> d in origins && pool <= d
        invariant forall o, d :: o in clonesOf && d in clonesOf[o] ==> d in origins && pool <= d && origins[d] == o
        invariant forall d :: d in origins && pool <= d && d !in rest ==>
                    origins[d] in clonesOf && d in clonesOf[origins[d]]
        decreases |rest|
      {
        var d :| d in rest;
        rest := rest - {d};
        var o := origins[d];
        clonesOf := clonesOf[o := (if o in clonesOf then clonesOf[o] else {}) + {d}];
      }
      blocked := {};
      for i := 0 to |found|
        invariant forall d :: d in blocked <==>
                    d in origins && pool <= d && exists s :: s in found[..i] && origins[d] == s.Id()
      {
        assert found[..i + 1] == found[..i] + [found[i]];
        if found[i].Id() in clonesOf {
          blocked := blocked + clonesOf[found[i].Id()];
        }
      }
      assert found[..|found|] == found;
    }

    /** Removes a group. Nothing goes while any of its snapshots has a clone, or for a member list
        that is not the group's; otherwise only the group's snapshots go, all of them on success;
        and at no point is the anchor gone while a member remains. */
    method DeleteGroupSnapshot(id: string, members: seq<string>) returns (ok: bool)
      requires WellNamed(snaps) && InPool(origins)
      modifies this`snaps
      ensures GroupOf(id).None? ==> !ok && snaps == old(snaps)
      ensures GroupOf(id).Some? ==>
                var (backend, parent, name) := GroupOf(id).value;
                && ((exists m :: m in members && !MemberOf(m, backend, parent, name)) ==> !ok && snaps == old(snaps))
                && (old(Cloned(parent, name)) ==> !ok && snaps == old(snaps))
                && (ok ==> snaps == WithoutGroup(old(snaps), parent, name))
                && snaps <= old(snaps) && (forall s :: s in old(snaps) - snaps ==> InGroup(s, parent, name))
                && (Snap(parent, name) in old(snaps) && Snap(parent, name) !in snaps ==> NoGroup(snaps, parent, name))
                && (reliable && !(exists m :: m in members && !MemberOf(m, backend, parent, name)) ==>
                      old(Cloned(parent, name)) || ok)
    {
      hide AtOrUnder, SplitId, ParseSnapshotId, MemberOf;
      var parsed := ParseSnapshotId(id);
      if parsed.None? {
        return false;
      }
      ok := ValidateGroupMembers(parsed.value.0, parsed.value.1, members);
      if !ok {
        return;
      }
      ok := Faults.Reach(reliable);
      if !ok {
        return;
      }
      ok := RemoveGroup(parsed.value.1);
    }

    /** A group that was not there, created and then deleted by the handles it was given, leaves the
        snapshots there were; and when no call fails, and every clone comes from a snapshot that is
        there, a group that can be made is made and then goes. */
    method CreateThenDelete(sources: seq<ID>, name: string) returns (made: bool, gone: bool)
      requires WellNamed(snaps) && InPool(origins) && forall d :: d in datasets ==> '@' !in d && d != "" && d[0] != '/'
      requires forall s :: s in sources ==> s.backend != "" && '/' !in s.backend
      requires sources != [] ==> Snap(ParentOf(sources[0].DatasetPath()), name) !in snaps
      modifies this`snaps
      ensures gone ==> made && snaps == old(snaps)
      ensures OriginsExist(origins, old(snaps)) && Groupable(sources, name, old(snaps)) ==> gone
    {
      hide ParentOf, Placed, AtOrUnder, Agrees, Wanted, ParseSnapshotId, SplitId, MemberOf, Snap.Id,
        ID.DatasetPath, Paths, InPool;
      made, gone := false, false;
      ghost var before := snaps;
      var group, parent := CreateGroupSnapshot(sources, name);
      if group.None? {
        return;
      }
      made := true;
      HandleRoundTrip(sources[0].backend, parent.path, name);
      forall m | m in group.value.members ensures MemberOf(m, sources[0].backend, parent.path, name) {
        var i :| 0 <= i < |sources| && group.value.members[i] == m;
        assert sources[i] in sources;
        HandlesFit(sources, parent.path, name, i);
      }
      FreshGroupRemoved(datasets, before, parent.path, name, Paths(sources));
      if OriginsExist(origins, before) {
        forall d, s | d in origins && s in snaps && InGroup(s, parent.path, name) ensures origins[d] != s.Id() {
          NewGroupIsNotCloned(origins, before, parent.path, name, d, s);
        }
        assert !Cloned(parent.path, name);
      }
      gone := DeleteGroupSnapshot(group.value.id, group.value.members);
    }

    /** No call fails, the sources make a group, and nothing stands in its way. */
    ghost predicate Groupable(sources: seq<ID>, name: string, snaps: set<Snap>)
      reads this
    {
      && sources != [] && (forall s :: s in sources ==> Agrees(sources[0], s)) && Placed(config, sources[0])
      && Creatable(ParentOf(sources[0].DatasetPath()), name, snaps)
    }

    /** Deletes the snapshots one after another, longest id first. */
    method RemoveAll(order: seq<Snap>, parent: string, name: string) returns (ok: bool)
      requires WellNamed(snaps) && LongestFirst(order)
      requires forall s :: s in order <==> s in snaps && InGroup(s, parent, name)
      modifies this`snaps
      ensures ok ==> snaps == WithoutGroup(old(snaps), parent, name)
      ensures snaps <= old(snaps) && forall s :: s in old(snaps) - snaps ==> InGroup(s, parent, name)
      ensures Snap(parent, name) in old(snaps) && Snap(parent, name) !in snaps ==> NoGroup(snaps, parent, name)
      ensures reliable ==> ok
    {
      hide AtOrUnder, Snap.Id;
      ghost var start, anchor := snaps, Snap(parent, name);
      for i := 0 to |order|
        invariant WellNamed(snaps)
        invariant snaps == start - AsSet(order[..i])
        invariant anchor in order[..i] ==> NoGroup(snaps, parent, name)
      {
        assert order[..i + 1] == order[..i] + [order[i]];
        assert order[i] in order && order[i] in start;
        ghost var before := snaps;
        var done := Remove(order[i], order[i].Id());
        if order[i] == anchor {
          AnchorLast(order, i, parent, name);
        }
        assert before - {order[i]} == start - AsSet(order[..i + 1]);
        if !done {
          return false;
        }
      }
      assert order[..|order|] == order;
      ok := true;
    }

    method RemoveGroup(groupZFS: string) returns (ok: bool)
      requires WellNamed(snaps) && InPool(origins)
      modifies this`snaps
      ensures var (parent, name) := SplitId(groupZFS);
              && (old(Cloned(parent, name)) ==> !ok && snaps == old(snaps))
              && (ok ==> snaps == WithoutGroup(old(snaps), parent, name))
              && snaps <= old(snaps) && (forall s :: s in old(snaps) - snaps ==> InGroup(s, parent, name))
              && (Snap(parent, name) in old(snaps) && Snap(parent, name) !in snaps ==> NoGroup(snaps, parent, name))
              && (reliable && !old(Cloned(parent, name)) ==> ok)
    {
      hide AtOrUnder, SplitId, PoolOf;
      var (parent, name) := SplitId(groupZFS);
      var found := GroupSnapshots(groupZFS);
      if found.None? {
        return false;
      }
      if found.value == [] {
        assert WithoutGroup(snaps, parent, name) == snaps;
        return true;
      }
      ok := Faults.Reach(reliable);
      if !ok {
        return;
      }
      var blocked := Blocked(found.value, PoolOf(parent));
      forall d, s | d in origins && s in found.value && origins[d] == s.Id() ensures PoolOf(parent) <= d {
        CloneInPool(s, parent, name);
      }
      if blocked != {} {
        ghost var d :| d in blocked;
        assert Cloned(parent, name);
        return false;
      }
      var order := SortByLength(found.value);
      forall s ensures s in order <==> s in found.value {
        assert s in multiset(order) <==> s in multiset(found.value);
      }
      ok := RemoveAll(order, parent, name);
    }
  }

  /** Every clone comes from a snapshot that is there. */
  ghost predicate OriginsExist(origins: map<string, string>, snaps: set<Snap>) {
    forall d :: d in origins ==> exists s :: s in snaps && origins[d] == s.Id()
  }

  lemma NewGroupIsNotCloned(origins: map<string, string>, snaps: set<Snap>, parent: string, name: string, d: string,
                            s: Snap)
    requires OriginsExist(origins, snaps) && WellNamed(snaps) && NoGroup(snaps, parent, name)
    requires InGroup(s, parent, name) && '@' !in s.name && d in origins
    ensures origins[d] != s.Id()
  {
    hide Snap.Id, AtOrUnder;
    var t :| t in snaps && origins[d] == t.Id();
    if t.Id() == s.Id() {
      SameId(s, t);
    }
  }

  /** The handles a created group is told by are the group's own. */
  lemma HandlesFit(sources: seq<ID>, parent: string, name: string, i: nat)
    requires i < |sources| && '@' !in name && sources[0].backend != "" && '/' !in sources[0].backend
    requires Agrees(sources[0], sources[i]) && parent == ParentOf(sources[0].DatasetPath())
    ensures MemberOf(SnapshotId(sources[0].backend, sources[i].DatasetPath() + "@" + name),
                     sources[0].backend, parent, name)
  {
    hide ParentOf, SplitId, ParseSnapshotId;
    var path := sources[i].DatasetPath();
    HandleRoundTrip(sources[0].backend, path, name);
    assert path[|sources[i].pool|] == '/';
    UnderParent(path);
    Shorter(path);
  }

  /** A member is taken exactly when its dataset is there. */
  lemma MemberThere(datasets: set<string>, before: set<Snap>, name: string, sources: seq<ID>, i: nat)
    requires i < |sources| && Agrees(sources[0], sources[i])
    requires NoGroup(before, ParentOf(sources[0].DatasetPath()), name)
    ensures var path := sources[i].DatasetPath();
            Snap(path, name) in before + Wanted(datasets, ParentOf(sources[0].DatasetPath()), name, Paths(sources))
            <==> path in datasets
  {
    hide ParentOf, AtOrUnder;
    var path := sources[i].DatasetPath();
    assert path[|sources[i].pool|] == '/';
    UnderParent(path);
    assert sources[i] in sources && path in Paths(sources);
    assert InGroup(Snap(path, name), ParentOf(sources[0].DatasetPath()), name);
  }

  lemma Shorter(path: string)
    requires '/' in path
    ensures ParentOf(path) != path
  {
  }

  lemma CloneInPool(s: Snap, parent: string, name: string)
    requires InGroup(s, parent, name) && '@' !in s.name && s.dataset != "" && s.dataset[0] != '/'
    ensures PoolOf(SplitId(s.Id()).0) == PoolOf(parent)
  {
    hide SplitId, Graveyard.UpTo;
    SplitOf(s.dataset, s.name);
    if s.dataset != parent {
      SlashAfter(parent, s.dataset);
      assert parent <= s.dataset by { UnderHasPrefix(s.dataset, parent); }
      if '/' in parent {
        UpToSome(parent, '/');
        UpToPrefix(parent, s.dataset, '/');
        UpToFirst(parent, '/');
      } else {
        var rest := s.dataset[|parent| + 1..];
        assert s.dataset == parent + ['/'] + rest;
        Graveyard.UpToIs(parent, '/', rest);
        UpToNone(parent, '/');
      }
    }
  }

  lemma {:induction false} UpToSome(s: string, c: char)
    requires c in s
    ensures Graveyard.UpTo(s, c).Some?
  {
    if s[0] != c {
      UpToSome(s[1..], c);
    }
  }

  lemma UpToFirst(s: string, c: char)
    requires s != "" && s[0] != c
    ensures Graveyard.UpTo(s, c) != Some("")
  {
  }

  lemma {:induction false} UpToNone(s: string, c: char)
    requires c !in s
    ensures Graveyard.UpTo(s, c).None?
  {
    if s != "" {
      UpToNone(s[1..], c);
    }
  }

  lemma {:induction false} UpToPrefix(a: string, b: string, c: char)
    requires a <= b && Graveyard.UpTo(a, c).Some?
    ensures Graveyard.UpTo(b, c) == Graveyard.UpTo(a, c)
    decreases |a|
  {
    if a[0] != c {
      assert a[1..] <= b[1..];
      UpToPrefix(a[1..], b[1..], c);
    }
  }

  /** The pool a dataset path begins with. */
  function PoolOf(path: string): string {
    var pool := Graveyard.UpTo(path, '/');
    if pool.Some? && pool.value != "" then pool.value else path
  }

  /** The appliance, parent dataset and name a group handle stands for. */
  function GroupOf(id: string): Option<(string, string, string)> {
    var p := ParseSnapshotId(id);
    if p.None? then None else Some((p.value.0, SplitId(p.value.1).0, SplitId(p.value.1).1))
  }

  /** The anchor has the shortest id of its group, so nothing of the group is ordered after it. */
  lemma AnchorLast(order: seq<Snap>, i: nat, parent: string, name: string)
    requires LongestFirst(order) && i < |order| && order[i] == Snap(parent, name)
    requires forall s :: s in order ==> InGroup(s, parent, name)
    ensures forall j :: i < j < |order| ==> order[j] == order[i]
  {
    forall j | i < j < |order| ensures order[j] == order[i] {
      assert InGroup(order[j], parent, name);
      assert |order[j].Id()| <= |order[i].Id()|;
    }
  }

  datatype Group = Group(id: string, members: seq<string>)

  lemma UnderHasPrefix(d: string, parent: string)
    requires AtOrUnder(d, parent)
    ensures parent <= d
  {
    assert parent <= parent + "/";
  }
}
