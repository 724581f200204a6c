/** When failback may roll the source back. */
module Divergence {
  import opened Wrappers
  import opened Volume
  import opened Replication
  import opened Scripts
  import opened Lifecycle

  /** Of snapshots oldest first, the last one, and only it, is the mark. */
  predicate EndsAt(snaps: seq<Snapshot>, mark: string) {
    && snaps != [] && IsShortName(snaps[|snaps| - 1].id, mark)
    && (forall i :: 0 <= i < |snaps| - 1 ==> !IsShortName(snaps[i].id, mark))
  }

  lemma {:induction false} GainedNothing(snaps: seq<Snapshot>, mark: string)
    ensures GainedAfter(snaps, mark) == [] <==> EndsAt(snaps, mark)
  {
    hide IsShortName, ShortName;
    if snaps != [] {
      ShortNameIff(snaps[0].id, mark);
      if ShortName(snaps[0].id) != mark {
        GainedNothing(snaps[1..], mark);
        assert forall i :: 0 < i < |snaps| ==> snaps[i] == snaps[1..][i - 1];
      }
    }
  }

  /** Snapshot `k` is the first that is the mark. */
  predicate FirstAt(snaps: seq<Snapshot>, mark: string, k: nat) {
    && k < |snaps| && IsShortName(snaps[k].id, mark)
    && (forall i :: 0 <= i < k ==> !IsShortName(snaps[i].id, mark))
  }

  /** What a volume gained is the short name of every snapshot after the mark, oldest first. */
  lemma {:induction false} GainedIsAfter(snaps: seq<Snapshot>, mark: string, k: nat)
    requires FirstAt(snaps, mark, k)
    ensures var gained := GainedAfter(snaps, mark);
            |gained| == |snaps| - k - 1 && forall i :: 0 <= i < |gained| ==> IsShortName(snaps[k + 1 + i].id, gained[i])
  {
    hide IsShortName, ShortName;
    ShortNameIff(snaps[0].id, mark);
    if k == 0 {
      ShortNamesAre(snaps[1..]);
    } else {
      assert forall i :: 0 <= i < |snaps| - 1 ==> snaps[1..][i] == snaps[i + 1];
      GainedIsAfter(snaps[1..], mark, k - 1);
    }
  }

  lemma {:induction false} ShortNamesAre(snaps: seq<Snapshot>)
    ensures forall i :: 0 <= i < |snaps| ==> IsShortName(snaps[i].id, ShortNames(snaps)[i])
  {
    hide IsShortName, ShortName;
    if snaps != [] {
      ShortNameIff(snaps[0].id, ShortName(snaps[0].id));
      ShortNamesAre(snaps[1..]);
    }
  }

  /** The source still holds the volume's failover mark and nothing newer. */
  predicate AtMark(w: World, v: ID) {
    v.name in w.stored.marks && EndsAt(SnapshotsOf(w.src, v.DatasetPath()), w.stored.marks[v.name])
  }

  lemma DivergedIff(g: Group, w: World)
    ensures !Diverged(g, w) <==> forall v :: v in g.volumes ==> AtMark(w, v)
  {
    forall v | v in g.volumes ensures AtMark(w, v) <==> Gained(w, v) == [] {
      if v.name in w.stored.marks {
        GainedNothing(SnapshotsOf(w.src, v.DatasetPath()), w.stored.marks[v.name]);
      }
    }
  }

  /** Every newest snapshot of the listing is called `n`, and there is one. */
  predicate TipIs(listing: seq<Snapshot>, n: string) {
    listing != [] && forall s :: s in listing && Newest(listing, s) ==> IsShortName(s.id, n)
  }

  /** Exactly one snapshot of the listing is called `n`. */
  predicate NamedOnce(listing: seq<Snapshot>, n: string) {
    exists i :: 0 <= i < |listing| && IsShortName(listing[i].id, n)
                && forall j :: 0 <= j < |listing| && IsShortName(listing[j].id, n) ==> i == j
  }

  predicate DistinctTxgs(listing: seq<Snapshot>) {
    forall i, j :: 0 <= i < j < |listing| ==> listing[i].txg != listing[j].txg
  }

  lemma TipEnds(listing: seq<Snapshot>, mark: string)
    requires TipIs(listing, mark) && NamedOnce(listing, mark)
    ensures EndsAt(ByTxg(listing), mark)
  {
    hide ByTxg, IsShortName;
    var r := ByTxg(listing);
    LastIsNewest(listing);
    SameMembers(listing);
    var last := r[|r| - 1];
    forall i | 0 <= i < |r| - 1 ensures !IsShortName(r[i].id, mark) {
      assert r[i] in listing && last in listing;
      OnlyOnce(listing, last, mark);
      Twice(r, i, |r| - 1);
    }
  }

  lemma OnlyOnce(listing: seq<Snapshot>, x: Snapshot, n: string)
    requires NamedOnce(listing, n) && x in listing && IsShortName(x.id, n)
    ensures multiset(listing)[x] == 1
    ensures forall y :: y in listing && IsShortName(y.id, n) ==> y == x
  {
    hide IsShortName;
    CountsOnce(listing, x);
  }

  lemma Twice(r: seq<Snapshot>, i: nat, j: nat)
    requires i < j < |r|
    ensures r[i] == r[j] ==> multiset(r)[r[i]] >= 2
  {
    assert r == r[..i] + [r[i]] + r[i + 1..j] + [r[j]] + r[j + 1..];
  }

  lemma {:induction false} CountsOnce(s: seq<Snapshot>, x: Snapshot)
    requires forall i, j :: 0 <= i < j < |s| ==> !(s[i] == x && s[j] == x)
    ensures multiset(s)[x] <= 1
  {
    if s != [] {
      assert s == [s[0]] + s[1..];
      CountsOnce(s[1..], x);
      if s[0] == x { assert x !in s[1..]; }
    }
  }

  /** In the order the appliance listed them, whatever it was: the newest is called like the mark, and
      nothing else is. */
  lemma EndsAtNewest(listing: seq<Snapshot>, mark: string)
    requires DistinctTxgs(listing)
    ensures EndsAt(ByTxg(listing), mark) <==> TipIs(listing, mark) && NamedOnce(listing, mark)
  {
    hide ByTxg, IsShortName;
    var r := ByTxg(listing);
    SameMembers(listing);
    if EndsAt(r, mark) {
      assert r[0] in listing;
      LastIsNewest(listing);
      var last := r[|r| - 1];
      var i :| 0 <= i < |listing| && listing[i] == last;
      forall j | 0 <= j < |listing| && IsShortName(listing[j].id, mark) ensures i == j {
        assert listing[j] in r;
        assert listing[j] == last;
      }
      forall s | s in listing && Newest(listing, s) ensures s == last { assert s.txg == last.txg; }
    }
    if TipIs(listing, mark) && NamedOnce(listing, mark) { TipEnds(listing, mark); }
  }

  /** What failback reports: for each member with a name, what the source gained. */
  function Report(w: World, vols: seq<ID>): map<string, seq<string>> {
    if vols == [] then map[]
    else
      var v := vols[|vols| - 1];
      var rest := Report(w, vols[..|vols| - 1]);
      if Gained(w, v) == [] then rest
      else rest[v.name := (if v.name in rest then rest[v.name] else []) + Gained(w, v)]
  }

  /** The report is empty exactly when nothing has diverged. */
  lemma ReportExact(g: Group, w: World)
    ensures Report(w, g.volumes) == map[] <==> !Diverged(g, w)
  {
    ReportEmpty(w, g.volumes);
    assert Diverged(g, w) <==> exists v :: v in g.volumes && Gained(w, v) != [];
  }

  lemma {:induction false} ReportEmpty(w: World, vols: seq<ID>)
    ensures Report(w, vols) == map[] <==> forall v :: v in vols ==> Gained(w, v) == []
  {
    if vols != [] {
      var v, init := vols[|vols| - 1], vols[..|vols| - 1];
      ReportEmpty(w, init);
      assert forall u :: u in vols <==> u in init || u == v;
      if Gained(w, v) != [] { assert v.name in Report(w, vols); }
    }
  }

  /** With distinct names it says of each volume exactly what that volume gained. */
  lemma {:induction false} ReportSays(w: World, vols: seq<ID>, name: string)
    requires forall i, j :: 0 <= i < j < |vols| ==> vols[i].name != vols[j].name
    ensures name in Report(w, vols) <==> exists v :: v in vols && v.name == name && Gained(w, v) != []
    ensures name in Report(w, vols) ==> forall v :: v in vols && v.name == name ==>
              Report(w, vols)[name] == Gained(w, v)
  {
    if vols != [] {
      var v, init := vols[|vols| - 1], vols[..|vols| - 1];
      ReportSays(w, init, name);
      assert vols == init + [v];
      assert forall u :: u in init ==> u in vols && u.name != v.name;
    }
  }

  /** An unforced failback replicates back only from a finished failover, with no rehearsal
      running, and only when every member's mark is still the newest thing on the source; in that
      phase it does so exactly then, and otherwise writes nothing at all. */
  lemma ReverseOnlyAtMark(g: Group, w: World)
    ensures var s := Failback(g, w, false);
            && (RunTask(Dest, ReverseTaskName(g)) in s.calls <==>
                  w.stored.phase == FailedOver && w.stored.test.None? && forall v :: v in g.volumes ==> AtMark(w, v))
            && (RunTask(Dest, ReverseTaskName(g)) !in s.calls ==> s.calls == [])
  {
    DivergedIff(g, w);
    var s := Failback(g, w, false);
    if s.calls != [] {
      var started := w.stored.(phase := FailingBack);
      var w1 := Apply(w, Save(started));
      var c := Reverse(g, w1);
      var n := if ReverseTaskName(g) in w1.dst.tasks then 0 else 1;
      assert c[n] == RunTask(Dest, ReverseTaskName(g));
      assert s.calls[n + 1] == c[n];
    }
  }
}

/** What each operation has achieved when it reports success. */
module Outcomes {
  import opened Wrappers
  import opened Text
  import opened Volume
  import opened Replication
  import opened Scripts
  import opened Lifecycle
  import opened Transfers

  lemma PromoteOneDoes(w: World, target: string)
    requires target in w.dst.datasets
    ensures var w1 := ApplyAll(w, PromoteOne(w, target));
            w1 == w.(dst := Update(w.dst, target, w.dst.datasets[target].(readonly := false, origin := "")))
  {
    var c, d := PromoteOne(w, target), w.dst.datasets[target];
    var w1 := Apply(w, c[0]);
    if |c| == 2 {
      assert c[1..] == [PromoteClone(target)];
      assert ApplyAll(w1, c[1..]) == Apply(w1, c[1]);
      UpdateTwice(w.dst, target, d.(readonly := false), d.(readonly := false, origin := ""));
    } else {
      assert c[1..] == [];
    }
  }

  lemma UpdateTwice(a: Appliance, id: string, d: Dataset, e: Dataset)
    ensures Update(Update(a, id, d), id, e) == Update(a, id, e)
  {
    assert a.datasets[id := d][id := e] == a.datasets[id := e];
  }

  /** Which datasets a promotion pass changes, and how. */
  predicate PromotedFrom(a: Appliance, b: Appliance, targets: set<string>) {
    && b.snapshots == a.snapshots && b.tasks == a.tasks && b.snapTasks == a.snapTasks
    && b.datasets.Keys == a.datasets.Keys
    && (forall d :: d in a.datasets ==>
          b.datasets[d] == if d in targets then a.datasets[d].(readonly := false, origin := "") else a.datasets[d])
  }

  function TargetSet(g: Group, vols: seq<ID>): set<string> {
    set v | v in vols :: Target(g, v)
  }

  lemma {:induction false} PromoteDoes(g: Group, w: World, vols: seq<ID>, marks: map<string, string>, force: bool)
    requires Promote(g, w, vols, marks, force).ok
    ensures var w' := ApplyAll(w, Promote(g, w, vols, marks, force).calls);
            && w'.src == w.src && w'.stored == w.stored
            && PromotedFrom(w.dst, w'.dst, TargetSet(g, vols))
    decreases |vols|
  {
    if vols != [] {
      var target, latest := Target(g, vols[0]), Latest(w.dst, Target(g, vols[0]));
      var marks' := if latest.Some? then marks[vols[0].name := ShortName(latest.value.id)] else marks;
      var c := PromoteOne(w, target);
      var w1 := ApplyAll(w, c);
      PromoteOneDoes(w, target);
      hide Latest, ShortName, PromoteOne, Apply;
      PromoteDoes(g, w1, vols[1..], marks', force);
      ApplyAllConcat(w, c, Promote(g, w1, vols[1..], marks', force).calls);
      assert forall u :: u in vols <==> u == vols[0] || u in vols[1..];
      assert TargetSet(g, vols) == {target} + TargetSet(g, vols[1..]);
      PromotedCompose(w.dst, w1.dst, ApplyAll(w, Promote(g, w, vols, marks, force).calls).dst,
                      target, TargetSet(g, vols[1..]));
    }
  }

  lemma PromotedCompose(a: Appliance, b: Appliance, c: Appliance, target: string, rest: set<string>)
    requires target in a.datasets
    requires b == Update(a, target, a.datasets[target].(readonly := false, origin := ""))
    requires PromotedFrom(b, c, rest)
    ensures PromotedFrom(a, c, {target} + rest)
  {
  }

  /** The mark of `v` is the newest snapshot of its target. */
  predicate Marked(g: Group, w: World, marks: map<string, string>, v: ID) {
    var latest := Latest(w.dst, Target(g, v));
    latest.Some? && v.name in marks && marks[v.name] == ShortName(latest.value.id)
  }

  predicate SameMark(m: map<string, string>, m': map<string, string>, name: string) {
    (name in m <==> name in m') && (name in m ==> m[name] == m'[name])
  }

  /** Whether some volume of these has the name, and its target a snapshot. */
  predicate Marking(g: Group, w: World, vols: seq<ID>, v: ID) {
    Latest(w.dst, Target(g, v)).Some? && exists u :: u in vols && u.name == v.name
  }

  /** The pass marks each volume whose target has a snapshot with the newest, as it was before the pass,
      and leaves every other mark alone. */
  lemma {:induction false} PromoteMarks(g: Group, w: World, vols: seq<ID>, marks: map<string, string>, force: bool,
                                        v: ID)
    requires Promote(g, w, vols, marks, force).ok
    ensures var m := Promote(g, w, vols, marks, force).marks;
            if Marking(g, w, vols, v) then Marked(g, w, m, v) else SameMark(m, marks, v.name)
    decreases |vols|
  {
    hide Apply, ApplyAll, PromoteOne, Latest, ShortName, VerifyOwned;
    if vols != [] {
      var target, latest := Target(g, vols[0]), Latest(w.dst, Target(g, vols[0]));
      var marks' := if latest.Some? then marks[vols[0].name := ShortName(latest.value.id)] else marks;
      PromotionKeepsLatest(w, target, Target(g, v));
      PromoteMarks(g, ApplyAll(w, PromoteOne(w, target)), vols[1..], marks', force, v);
      assert forall u :: u in vols <==> u == vols[0] || u in vols[1..];
    }
  }

  lemma PromotionKeepsLatest(w: World, target: string, id: string)
    requires target in w.dst.datasets
    ensures Latest(ApplyAll(w, PromoteOne(w, target)).dst, id) == Latest(w.dst, id)
  {
    hide Apply, ApplyAll, PromoteOne, Latest;
    PromoteOneDoes(w, target);
    LatestSame(w.dst, ApplyAll(w, PromoteOne(w, target)).dst, id);
  }

  lemma LatestSame(a: Appliance, b: Appliance, id: string)
    requires a.snapshots == b.snapshots
    ensures Latest(a, id) == Latest(b, id)
  {
    hide ByTxg;
  }

  /** The target of this member can be promoted. */
  predicate Promotable(g: Group, a: Appliance, v: ID, force: bool) {
    OwnedAt(a, Target(g, v)) && (force || Listed(a, Target(g, v)) != [])
  }

  lemma {:induction false} PromoteOkIff(g: Group, w: World, vols: seq<ID>, marks: map<string, string>, force: bool)
    ensures Promote(g, w, vols, marks, force).ok <==> forall v :: v in vols ==> Promotable(g, w.dst, v, force)
    decreases |vols|
  {
    hide Apply, ApplyAll, PromoteOne, Latest, Listed, ShortName, Target;
    if vols != [] {
      var v := vols[0];
      var target := Target(g, v);
      LatestIsNewest(w.dst, target);
      assert forall u :: u in vols <==> u == v || u in vols[1..];
      if Promotable(g, w.dst, v, force) {
        var latest := Latest(w.dst, target);
        var marks' := if latest.Some? then marks[v.name := ShortName(latest.value.id)] else marks;
        var w1 := ApplyAll(w, PromoteOne(w, target));
        PromoteOkIff(g, w1, vols[1..], marks', force);
        forall u ensures Promotable(g, w1.dst, u, force) == Promotable(g, w.dst, u, force) {
          PromotionKeepsTarget(w, target, Target(g, u));
        }
      }
    }
  }

  lemma PromotionKeepsTarget(w: World, target: string, id: string)
    requires target in w.dst.datasets
    ensures var a := ApplyAll(w, PromoteOne(w, target)).dst;
            OwnedAt(a, id) == OwnedAt(w.dst, id) && Listed(a, id) == Listed(w.dst, id)
  {
    hide Apply, ApplyAll, PromoteOne;
    PromoteOneDoes(w, target);
  }

  /** A failover that reports success from any phase but FailedOver leaves the source's data as it was,
      its stream stopped unless it was forced, exactly the members' targets writable and free of their
      origins, and each member's mark at the newest snapshot its target had. */
  lemma FailoverAchieves(g: Group, w: World, force: bool, cut: nat)
    requires w.stored.phase != FailedOver && Failover(g, w, force, cut).ok
    ensures var w' := ApplyAll(w, Failover(g, w, force, cut).calls);
            && w'.stored.phase == FailedOver && w'.stored.test == w.stored.test
            && w'.src.datasets == w.src.datasets && w'.src.snapshots == w.src.snapshots
            && (!force ==> Streaming(g, w.src, w'.src, false))
            && PromotedFrom(w.dst, w'.dst, TargetSet(g, g.volumes))
            && (forall v :: v in g.volumes ==> Promotable(g, w.dst, v, force))
            && (forall v :: if Marking(g, w, g.volumes, v) then Marked(g, w, w'.stored.marks, v)
                            else SameMark(w'.stored.marks, w.stored.marks, v.name))
  {
    var started := w.stored.(phase := FailingOver);
    var w1 := Apply(w, Save(started));
    assert w1 == w.(stored := started);
    hide Apply, Stopped, Promoted, PromotedFrom, Promotable, Marking, Marked, SameMark, Streaming;
    FailoverParts(g, w, force, cut);
    var t := Stopped(g, w1, force, cut).calls;
    var w2 := ApplyAll(w1, t);
    StoppedDoes(g, w1, force, cut);
    PromotedDoes(g, w2, started, force);
    var p := Promoted(g, w2, started, force).calls;
    ApplyAllConcat(w1, t, p);
    var w' := ApplyAll(w2, p);
    forall v ensures if Marking(g, w, g.volumes, v) then Marked(g, w, w'.stored.marks, v)
                     else SameMark(w'.stored.marks, w.stored.marks, v.name)
    {
      MarksSame(g, w, w2, w'.stored.marks, v);
    }
  }

  lemma MarksSame(g: Group, w: World, w2: World, marks: map<string, string>, v: ID)
    requires w2.dst == w.dst
    ensures Marking(g, w2, g.volumes, v) == Marking(g, w, g.volumes, v)
    ensures Marked(g, w2, marks, v) == Marked(g, w, marks, v)
  {
  }

  lemma StoppedDoes(g: Group, w: World, force: bool, cut: nat)
    ensures var t := Stopped(g, w, force, cut);
            var w' := ApplyAll(w, t.calls);
            && w'.dst == w.dst && w'.stored == w.stored
            && w'.src.datasets == w.src.datasets && w'.src.snapshots == w.src.snapshots
            && (!force && t.ok ==> Streaming(g, w.src, w'.src, false))
  {
    TransfersSet(g, w, false);
    hide SetTransfers;
    SettingKeeps(w, Stopped(g, w, force, cut).calls);
  }

  lemma {:induction false} SettingKeeps(w: World, calls: seq<Call>)
    requires forall c :: c in calls ==> c.SetTask? || c.SetSnapTask?
    ensures var w' := ApplyAll(w, calls);
            && w'.dst == w.dst && w'.stored == w.stored
            && w'.src.datasets == w.src.datasets && w'.src.snapshots == w.src.snapshots
    decreases |calls|
  {
    if calls != [] {
      assert (calls[0].SetTask? || calls[0].SetSnapTask?) && forall c :: c in calls[1..] ==> c in calls;
      SettingKeeps(Apply(w, calls[0]), calls[1..]);
    }
  }

  lemma FailoverParts(g: Group, w: World, force: bool, cut: nat)
    requires w.stored.phase != FailedOver && Failover(g, w, force, cut).ok
    ensures var started := w.stored.(phase := FailingOver);
            var w1 := Apply(w, Save(started));
            var t := Stopped(g, w1, force, cut);
            var p := Promoted(g, ApplyAll(w1, t.calls), started, force);
            && t.ok && p.ok
            && ApplyAll(w, Failover(g, w, force, cut).calls) == ApplyAll(w1, t.calls + p.calls)
  {
    var started := w.stored.(phase := FailingOver);
    var w1 := Apply(w, Save(started));
    hide Stopped, Promoted, Apply;
    var calls := Failover(g, w, force, cut).calls;
    assert calls[0] == Save(started) && calls[1..] == Switched(g, w1, started, force, cut).calls;
  }

  lemma PromotedDoes(g: Group, w: World, started: State, force: bool)
    requires w.stored == started && started.phase == FailingOver && Promoted(g, w, started, force).ok
    ensures var w' := ApplyAll(w, Promoted(g, w, started, force).calls);
            && w'.stored.phase == FailedOver && w'.stored.test == w.stored.test && w'.src == w.src
            && PromotedFrom(w.dst, w'.dst, TargetSet(g, g.volumes))
            && (forall v :: v in g.volumes ==> Promotable(g, w.dst, v, force))
            && (forall v :: if Marking(g, w, g.volumes, v) then Marked(g, w, w'.stored.marks, v)
                            else SameMark(w'.stored.marks, started.marks, v.name))
  {
    hide Promote, PromotedFrom, Promotable, Marking, Marked, SameMark;
    var p := Promote(g, w, g.volumes, started.marks, force);
    PromoteDoes(g, w, g.volumes, started.marks, force);
    PromoteOkIff(g, w, g.volumes, started.marks, force);
    var done := Save(started.(phase := FailedOver, marks := p.marks));
    ApplyAllConcat(w, p.calls, [done]);
    var w1 := ApplyAll(w, p.calls);
    assert ApplyAll(w1, [done]) == Apply(w1, done);
    forall v ensures if Marking(g, w, g.volumes, v) then Marked(g, w, p.marks, v)
                     else SameMark(p.marks, started.marks, v.name)
    {
      PromoteMarks(g, w, g.volumes, started.marks, force, v);
    }
  }

  lemma {:induction false} WritablesDo(w: World, vols: seq<ID>)
    ensures var w' := ApplyAll(w, Writables(vols));
            && w'.dst == w.dst && w'.stored == w.stored
            && w'.src.tasks == w.src.tasks && w'.src.snapTasks == w.src.snapTasks
            && w'.src.snapshots == w.src.snapshots && Opened(w.src.datasets, w'.src.datasets, vols)
    decreases |vols|
  {
    if vols != [] {
      var w1 := Apply(w, SetWritable(Source, vols[0].DatasetPath()));
      hide ID.DatasetPath, Opened;
      WritablesDo(w1, vols[1..]);
      assert Writables(vols)[1..] == Writables(vols[1..]);
      OpenedMore(w.src.datasets, w1.src.datasets, ApplyAll(w1, Writables(vols[1..])).src.datasets, vols);
    }
  }

  lemma OpenedMore(a: map<string, Dataset>, b: map<string, Dataset>, c: map<string, Dataset>, vols: seq<ID>)
    requires vols != [] && Opened(b, c, vols[1..])
    requires var id := vols[0].DatasetPath();
             b == if id in a then a[id := a[id].(readonly := false)] else a
    ensures Opened(a, c, vols)
  {
    hide ID.DatasetPath;
    assert forall u :: u in vols <==> u == vols[0] || u in vols[1..];
  }

  /** Of the datasets, exactly those of these volumes have been made writable. */
  predicate Opened(a: map<string, Dataset>, b: map<string, Dataset>, vols: seq<ID>) {
    && b.Keys == a.Keys
    && (forall v :: v in vols && v.DatasetPath() in a ==> !b[v.DatasetPath()].readonly)
    && (forall d :: d in a && b[d] != a[d] ==>
          b[d] == a[d].(readonly := false) && exists v :: v in vols && v.DatasetPath() == d)
  }

  /** Of the source's tasks, the group's stream and its members' schedules are set, and only those. */
  predicate Streaming(g: Group, a: Appliance, b: Appliance, on: bool) {
    && TaskName(g) in a.tasks && b.tasks == a.tasks[TaskName(g) := on]
    && b.snapTasks.Keys == a.snapTasks.Keys
    && (forall v :: v in g.volumes && SnapTask(g, v) in a.snapTasks ==> b.snapTasks[SnapTask(g, v)] == on)
    && (forall k :: k in a.snapTasks && b.snapTasks[k] != a.snapTasks[k] ==>
          b.snapTasks[k] == on && exists v :: v in g.volumes && k == SnapTask(g, v))
  }

  /** A failback that reports success, forced or not, from a phase in which the source is not primary
      leaves every member writable on the source with its stream running, no reverse task behind,
      no marks, and everything else as it was. */
  lemma FailbackAchieves(g: Group, w: World, force: bool)
    requires w.stored.phase !in {Ready, Suspended} && Failback(g, w, force).ok
    ensures var w' := ApplyAll(w, Failback(g, w, force).calls);
            && w'.stored == State(Ready, false, map[], w.stored.test)
            && Streaming(g, w.src, w'.src, true)
            && Opened(w.src.datasets, w'.src.datasets, g.volumes) && w'.src.snapshots == w.src.snapshots
            && w'.dst == w.dst.(tasks := w.dst.tasks - {ReverseTaskName(g)})
  {
    var started := w.stored.(phase := FailingBack);
    var w1 := Apply(w, Save(started));
    hide Opened, Reverse, SetTransfers, Diverged, SnapTask;
    var calls := Failback(g, w, force).calls;
    assert calls[1..] == Returned(g, w1, started).calls;
    var c := Reverse(g, w1);
    var w2 := ApplyAll(w1, c);
    ReverseDoes(g, w1);
    var t := SetTransfers(g, w2, true);
    TransfersSet(g, w2, true);
    var done := [Save(started.(phase := Ready, suspended := false, marks := map[]))];
    assert Returned(g, w1, started).calls == c + (t.calls + done);
    ApplyAllConcat(w1, c, t.calls + done);
    ApplyAllConcat(w2, t.calls, done);
    var w3 := ApplyAll(w2, t.calls);
    assert ApplyAll(w3, done) == Apply(w3, done[0]);
  }

  lemma ReverseDoes(g: Group, w: World)
    ensures var w' := ApplyAll(w, Reverse(g, w));
            && w'.stored == w.stored && w'.src.tasks == w.src.tasks && w'.src.snapTasks == w.src.snapTasks
            && Opened(w.src.datasets, w'.src.datasets, g.volumes) && w'.src.snapshots == w.src.snapshots
            && w'.dst == w.dst.(tasks := w.dst.tasks - {ReverseTaskName(g)})
  {
    hide Opened, Writables, Apply;
    var t := ReverseTaskName(g);
    var head := (if t in w.dst.tasks then [] else [CreateTask(Dest, t)]) + [RunTask(Dest, t), DeleteTask(Dest, t)];
    ReverseTaskDone(g, w);
    WritablesDo(ApplyAll(w, head), g.volumes);
    ApplyAllConcat(w, head, Writables(g.volumes));
    assert Reverse(g, w) == head + Writables(g.volumes);
  }

  lemma ReverseTaskDone(g: Group, w: World)
    ensures var t := ReverseTaskName(g);
            var a, b := if t in w.dst.tasks then [] else [CreateTask(Dest, t)], [RunTask(Dest, t), DeleteTask(Dest, t)];
            ApplyAll(w, a + b) == w.(dst := w.dst.(tasks := w.dst.tasks - {t}))
  {
    var t := ReverseTaskName(g);
    var a, b := if t in w.dst.tasks then [] else [CreateTask(Dest, t)], [RunTask(Dest, t), DeleteTask(Dest, t)];
    var w1 := ApplyAll(w, a);
    assert w1 == w.(dst := w.dst.(tasks := w1.dst.tasks)) && w1.dst.tasks - {t} == w.dst.tasks - {t} by {
      if a != [] { assert ApplyAll(w, a) == Apply(w, a[0]); }
    }
    assert b[1..] == [b[1]];
    assert ApplyAll(w1, b) == ApplyAll(Apply(w1, b[0]), [b[1]]) == Apply(Apply(w1, b[0]), b[1]);
    ApplyAllConcat(w, a, b);
  }

  /** Suspend and Resume: on success the stream has the wanted setting, and saying so again costs
      no write to the appliance and changes nothing. */
  lemma SuspendSettles(g: Group, w: World, suspended: bool)
    requires SetSuspended(g, w, suspended).ok
    ensures var w' := ApplyAll(w, SetSuspended(g, w, suspended).calls);
            && TaskName(g) in w'.src.tasks && w'.src.tasks[TaskName(g)] == !suspended
            && w'.stored.phase == (if suspended then Suspended else Ready) && w'.stored.suspended == suspended
            && SetSuspended(g, w', suspended) == Script([Save(w'.stored)], true)
            && w'.dst == w.dst && w'.src.datasets == w.src.datasets && w'.src.snapshots == w.src.snapshots
  {
    var t := SetTransfers(g, w, !suspended);
    TransfersSet(g, w, !suspended);
    var st := w.stored.(suspended := suspended, phase := if suspended then Suspended else Ready);
    ApplyAllConcat(w, t.calls, [Save(st)]);
    var w1 := ApplyAll(w, t.calls);
    assert ApplyAll(w1, [Save(st)]) == Apply(w1, Save(st));
    NothingToSet(g, Apply(w1, Save(st)), g.volumes, !suspended);
  }

  lemma {:induction false} NothingToSet(g: Group, w: World, vols: seq<ID>, on: bool)
    requires forall v :: v in vols && SnapTask(g, v) in w.src.snapTasks ==> w.src.snapTasks[SnapTask(g, v)] == on
    ensures SetSnapTasks(g, w, vols, on) == []
    decreases |vols|
  {
    if vols != [] { NothingToSet(g, w, vols[1..], on); }
  }

  // Create

  /** The volume is scheduled, and among its snapshots is one called the baseline. */
  predicate Settled(g: Group, w: World, v: ID) {
    && SnapTask(g, v) in w.src.snapTasks
    && exists s :: s in Listed(w.src, v.DatasetPath()) && (s.name == Baseline(g) || IsShortName(s.id, Baseline(g)))
  }

  lemma BaselineIff(g: Group, a: Appliance, dataset: string)
    ensures HasBaseline(g, SnapshotsOf(a, dataset)) <==>
            exists s :: s in Listed(a, dataset) && (s.name == Baseline(g) || IsShortName(s.id, Baseline(g)))
  {
    hide ShortName, IsShortName, ByTxg;
    var r := SnapshotsOf(a, dataset);
    SameMembers(Listed(a, dataset));
    assert forall s :: s in r <==> s in Listed(a, dataset);
    forall s: Snapshot ensures ShortName(s.id) == Baseline(g) <==> IsShortName(s.id, Baseline(g)) {
      ShortNameIff(s.id, Baseline(g));
    }
    assert HasBaseline(g, r) <==> exists s :: s in r && (s.name == Baseline(g) || ShortName(s.id) == Baseline(g));
  }

  /** Handling one member settles it and keeps every other member settled. */
  lemma MemberSettles(g: Group, w: World, v: ID)
    ensures var w1 := ApplyAll(w, Member(g, w, v));
            && Settled(g, w1, v) && (forall u :: Settled(g, w, u) ==> Settled(g, w1, u))
            && w1.dst == w.dst && w1.stored == w.stored && w1.src.tasks == w.src.tasks
            && w1.src.datasets == w.src.datasets
  {
    var a := if SnapTask(g, v) in w.src.snapTasks then [] else [CreateSnapTask(SnapTask(g, v))];
    var w0 := ApplyAll(w, a);
    assert w0 == w.(src := w.src.(snapTasks := w0.src.snapTasks))
        && w0.src.snapTasks.Keys == w.src.snapTasks.Keys + {SnapTask(g, v)} by {
      if a != [] { assert ApplyAll(w, a) == Apply(w, a[0]); }
    }
    var b := if HasBaseline(g, SnapshotsOf(w0.src, v.DatasetPath())) then []
             else [CreateSnapshot(v.DatasetPath(), Baseline(g))];
    assert forall u :: Settled(g, w, u) ==> Settled(g, w0, u);
    assert SnapshotsOf(w0.src, v.DatasetPath()) == SnapshotsOf(w.src, v.DatasetPath());
    hide Apply, HasBaseline, SnapshotsOf, Settled;
    BaselineSettles(g, w0, v);
    ApplyAllConcat(w, a, b);
    assert Member(g, w, v) == a + b;
  }

  lemma BaselineSettles(g: Group, w: World, v: ID)
    requires SnapTask(g, v) in w.src.snapTasks
    ensures var b := if HasBaseline(g, SnapshotsOf(w.src, v.DatasetPath())) then []
                     else [CreateSnapshot(v.DatasetPath(), Baseline(g))];
            var w1 := ApplyAll(w, b);
            && Settled(g, w1, v) && (forall u :: Settled(g, w, u) ==> Settled(g, w1, u))
            && w1 == w.(src := w.src.(snapshots := w1.src.snapshots))
  {
    BaselineIff(g, w.src, v.DatasetPath());
    hide HasBaseline, IsShortName;
    if !HasBaseline(g, SnapshotsOf(w.src, v.DatasetPath())) {
      var b := CreateSnapshot(v.DatasetPath(), Baseline(g));
      var w1 := Apply(w, b);
      assert ApplyAll(w, [b]) == w1;
      var s, was := Listed(w1.src, v.DatasetPath()), Listed(w.src, v.DatasetPath());
      assert s == was + [s[|was|]] && s[|was|].name == Baseline(g) && s[|was|] in s;
    }
  }

  lemma {:induction false} MembersSettle(g: Group, w: World, vols: seq<ID>)
    ensures var w' := ApplyAll(w, Members(g, w, vols));
            && (forall v :: v in vols ==> Settled(g, w', v)) && (forall u :: Settled(g, w, u) ==> Settled(g, w', u))
            && w'.dst == w.dst && w'.stored == w.stored && w'.src.tasks == w.src.tasks
            && w'.src.datasets == w.src.datasets
    decreases |vols|
  {
    if vols != [] {
      var c := Member(g, w, vols[0]);
      MemberSettles(g, w, vols[0]);
      MembersSettle(g, ApplyAll(w, c), vols[1..]);
      ApplyAllConcat(w, c, Members(g, ApplyAll(w, c), vols[1..]));
    }
  }

  lemma {:induction false} NothingToCreate(g: Group, w: World, vols: seq<ID>)
    requires forall v :: v in vols ==> Settled(g, w, v)
    ensures Members(g, w, vols) == []
    decreases |vols|
  {
    if vols != [] {
      assert Settled(g, w, vols[0]);
      BaselineIff(g, w.src, vols[0].DatasetPath());
      NothingToCreate(g, w, vols[1..]);
    }
  }

  /** Creating a group twice is creating it once: after success every member is scheduled and has
      its baseline, the stream exists and has been run if it is new, the group is recorded as
      suspended exactly when the stream is off, the target was not touched, and a second Create
      writes nothing but the state it already stored. */
  lemma CreateSettles(g: Group, w: World)
    requires Create(g, w).ok
    ensures var w' := ApplyAll(w, Create(g, w).calls);
            && (forall v :: v in g.volumes ==> Settled(g, w', v)) && TaskName(g) in w'.src.tasks
            && (w'.src.tasks == if TaskName(g) in w.src.tasks then w.src.tasks else w.src.tasks[TaskName(g) := true])
            && (RunTask(Source, TaskName(g)) in Create(g, w).calls <==> TaskName(g) !in w.src.tasks)
            && w'.dst == w.dst && w'.src.datasets == w.src.datasets
            && w'.stored.suspended == !w'.src.tasks[TaskName(g)]
            && w'.stored.phase == (if w.stored.phase !in {Unknown, Ready} then w.stored.phase
                                   else if w'.stored.suspended then Suspended else Ready)
            && w'.stored.marks == w.stored.marks && w'.stored.test == w.stored.test
            && Create(g, w') == Script([Save(w'.stored)], true)
  {
    var c := Tasks(g, w);
    TasksSettle(g, w);
    hide Forward, Members;
    var w1 := ApplyAll(w, c);
    var st := Created(g, w.stored, w1);
    ApplyAllConcat(w, c, [Save(st)]);
    assert ApplyAll(w1, [Save(st)]) == Apply(w1, Save(st));
    var w2 := Apply(w1, Save(st));
    CreateAgain(g, w1, st);
    assert w2 == w1.(stored := st);
    assert MembersOwned(g, w2);
  }

  lemma CreateAgain(g: Group, w: World, st: State)
    requires (forall v :: v in g.volumes ==> Settled(g, w, v)) && TaskName(g) in w.src.tasks
    requires Created(g, st, w) == st
    ensures var w' := w.(stored := st);
            && (forall v :: v in g.volumes ==> Settled(g, w', v))
            && Tasks(g, w') == [] && Created(g, st, w') == st
  {
    var w' := w.(stored := st);
    forall v | v in g.volumes ensures Settled(g, w', v) { assert Settled(g, w, v); }
    NothingToCreate(g, w', g.volumes);
  }

  lemma ForwardSettles(g: Group, w: World)
    ensures var w' := ApplyAll(w, Forward(g, w));
            && (forall v :: Settled(g, w, v) ==> Settled(g, w', v)) && TaskName(g) in w'.src.tasks
            && (w'.src.tasks == if TaskName(g) in w.src.tasks then w.src.tasks else w.src.tasks[TaskName(g) := true])
            && (RunTask(Source, TaskName(g)) in Forward(g, w) <==> TaskName(g) !in w.src.tasks)
            && w'.dst == w.dst && w'.src.datasets == w.src.datasets && w'.stored == w.stored
  {
    var f := Forward(g, w);
    if f != [] {
      assert f[1..] == [f[1]];
      assert ApplyAll(w, f) == ApplyAll(Apply(w, f[0]), [f[1]]) == Apply(Apply(w, f[0]), f[1]);
    }
  }

  lemma TasksSettle(g: Group, w: World)
    ensures var w' := ApplyAll(w, Tasks(g, w));
            && (forall v :: v in g.volumes ==> Settled(g, w', v)) && TaskName(g) in w'.src.tasks
            && (w'.src.tasks == if TaskName(g) in w.src.tasks then w.src.tasks else w.src.tasks[TaskName(g) := true])
            && (RunTask(Source, TaskName(g)) in Tasks(g, w) <==> TaskName(g) !in w.src.tasks)
            && w'.dst == w.dst && w'.src.datasets == w.src.datasets && w'.stored == w.stored
  {
    var m := Members(g, w, g.volumes);
    MembersSettle(g, w, g.volumes);
    hide Members, Settled;
    var w1 := ApplyAll(w, m);
    ForwardSettles(g, w1);
    ApplyAllConcat(w, m, Forward(g, w1));
  }

  // Delete

  /** Every dataset any operation names to be destroyed, forced or not, at that moment carried the
      driver's own marker for that very path. */
  lemma DestroysOnlyOwned(g: Group, w: World, s: Step, j: nat)
    requires j < |Landed(g, w, s)| && Landed(g, w, s)[j].DeleteDataset?
    ensures OwnedAt(ApplyAll(w, Landed(g, w, s)[..j]).dst, Landed(g, w, s)[j].id)
  {
    var calls := ScriptOf(g, w, s.op).calls;
    assert Landed(g, w, s)[..j] == calls[..j] && calls[j] in calls;
    if !s.op.DeleteGroup? && !s.op.StopTest? { OnlyTheseDestroy(g, w, s.op); }
    hide Delete, StopTestFailover, ApplyAll;
    if s.op.DeleteGroup? {
      DeleteDestroysOwned(g, w, s.op.remove, j);
    } else {
      StopDestroysOwned(g, w, s.op.names, j);
    }
  }

  lemma StopDestroysOwned(g: Group, w: World, names: seq<string>, j: nat)
    requires var calls := StopTestFailover(g, w, names).calls; j < |calls| && calls[j].DeleteDataset?
    ensures var calls := StopTestFailover(g, w, names).calls;
            OwnedAt(ApplyAll(w, calls[..j]).dst, calls[j].id)
  {
    var calls := StopTestFailover(g, w, names).calls;
    var root := w.stored.test.value.root;
    var d := DropDatasets(w, names + [root]);
    var s := Guarded(root, d);
    assert j < |s.calls|;
    assert calls[..j] == s.calls[..j] == d.calls[..j] && calls[j] == d.calls[j];
    DropsOwned(w, names + [root], j);
  }

  lemma OnlyTheseDestroy(g: Group, w: World, op: Op)
    requires !op.DeleteGroup? && !op.StopTest?
    ensures forall c :: c in ScriptOf(g, w, op).calls ==> !c.DeleteDataset?
  {
    hide Create, TestFailover, Failover, Failback, SetSuspended;
    match op
    case CreateGroup => CreateWrites(g, w);
    case StartTest => TestFailoverWrites(g, w);
    case FailoverGroup(force, cut) => FailoverWrites(g, w, force, cut);
    case FailbackGroup(force) => FailbackWrites(g, w, force);
    case _ =>
  }

  lemma {:induction false} DropsOwned(w: World, ids: seq<string>, j: nat)
    requires j < |DropDatasets(w, ids).calls|
    ensures OwnedAt(ApplyAll(w, DropDatasets(w, ids).calls[..j]).dst, DropDatasets(w, ids).calls[j].id)
    decreases |ids|
  {
    if ids[0] !in w.dst.datasets {
      DropsOwned(w, ids[1..], j);
    } else if j > 0 {
      var w1 := Apply(w, DeleteDataset(ids[0]));
      var calls := DropDatasets(w, ids).calls;
      DropsOwned(w1, ids[1..], j - 1);
      assert calls[..j][1..] == DropDatasets(w1, ids[1..]).calls[..j - 1];
    }
  }

  lemma DeleteDestroysOwned(g: Group, w: World, remove: bool, j: nat)
    requires j < |Delete(g, w, remove).calls| && Delete(g, w, remove).calls[j].DeleteDataset?
    ensures OwnedAt(ApplyAll(w, Delete(g, w, remove).calls[..j]).dst, Delete(g, w, remove).calls[j].id)
  {
    hide OwnedAt, Untasked, DropDatasets, Apply;
    var calls := Delete(g, w, remove).calls;
    var t := Untasked(g, w);
    var w1 := ApplyAll(w, t);
    var d := if remove then DropDatasets(w1, Targets(g)) else Script([], true);
    assert t + d.calls <= calls;
    assert forall i :: 0 <= i < |t| ==> calls[i] == t[i] && t[i] in t;
    assert |t| <= j < |t| + |d.calls| && remove;
    assert calls[j] == d.calls[j - |t|];
    DropsOwned(w1, Targets(g), j - |t|);
    assert calls[..j] == t + d.calls[..j - |t|];
    ApplyAllConcat(w, t, d.calls[..j - |t|]);
  }
}
