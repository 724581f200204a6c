/** What disappears. Destroying a dataset takes everything beneath it as well, so what goes is more
    than what the calls name. */
module Destruction {
  import opened Wrappers
  import opened Text
  import opened Volume
  import opened Replication
  import opened Scripts
  import opened Lifecycle
  import opened Outcomes
  import opened Transfers
  import opened Rehearsals

  /** The datasets these calls name to be destroyed. */
  function Dropped(calls: seq<Call>): set<string> {
    set i | 0 <= i < |calls| && calls[i].DeleteDataset? :: calls[i].id
  }

  predicate Beneath(d: string, ids: set<string>) {
    exists id :: id in ids && AtOrUnder(d, id)
  }

  predicate MakesDataset(c: Call) {
    c.CreateDataset? || c.CloneSnapshot? || c.Drift?
  }

  /** The target appliance's datasets are those it had but for what is beneath what was dropped, and
      each still there is the driver's exactly if it was. */
  ghost predicate Thinned(w: World, w': World, ids: set<string>) {
    && w'.src.datasets.Keys == w.src.datasets.Keys
    && (forall d :: d in w'.dst.datasets <==> d in w.dst.datasets && !Beneath(d, ids))
    && (forall d :: d in w'.dst.datasets && d in w.dst.datasets ==> w'.dst.datasets[d].props == w.dst.datasets[d].props)
  }

  lemma {:induction false} CallsThin(w: World, calls: seq<Call>)
    requires forall c :: c in calls ==> !MakesDataset(c) && !c.Stamp?
    ensures Thinned(w, ApplyAll(w, calls), Dropped(calls))
    decreases |calls|
  {
    hide AtOrUnder;
    if calls != [] {
      var c, rest := calls[0], calls[1..];
      var w1 := Apply(w, c);
      assert c in calls && forall x :: x in rest ==> x in calls;
      CallThins(w, c);
      CallsThin(w1, rest);
      DroppedSplits(calls);
      ThinnedTwice(w, w1, ApplyAll(w1, rest), if c.DeleteDataset? then {c.id} else {}, Dropped(rest));
    }
  }

  lemma CallThins(w: World, c: Call)
    requires !MakesDataset(c) && !c.Stamp?
    ensures Thinned(w, Apply(w, c), if c.DeleteDataset? then {c.id} else {})
  {
    hide AtOrUnder;
    if c.DeleteDataset? {
      assert forall d :: Beneath(d, {c.id}) <==> AtOrUnder(d, c.id);
    }
  }

  lemma DroppedSplits(calls: seq<Call>)
    requires calls != []
    ensures Dropped(calls) == (if calls[0].DeleteDataset? then {calls[0].id} else {}) + Dropped(calls[1..])
  {
    var rest := calls[1..];
    forall id | id in Dropped(rest) ensures id in Dropped(calls) {
      var i :| 0 <= i < |rest| && rest[i].DeleteDataset? && rest[i].id == id;
      assert calls[i + 1] == rest[i];
    }
    forall id | id in Dropped(calls) ensures (calls[0].DeleteDataset? && id == calls[0].id) || id in Dropped(rest) {
      var i :| 0 <= i < |calls| && calls[i].DeleteDataset? && calls[i].id == id;
      if i > 0 { assert rest[i - 1] == calls[i]; }
    }
  }

  lemma ThinnedTwice(w: World, w1: World, w2: World, a: set<string>, b: set<string>)
    requires Thinned(w, w1, a) && Thinned(w1, w2, b)
    ensures Thinned(w, w2, a + b)
  {
    hide AtOrUnder;
    forall d ensures Beneath(d, a + b) <==> Beneath(d, a) || Beneath(d, b) {
      assert forall id :: id in a + b <==> id in a || id in b;
    }
  }

  /** Writes that destroy nothing take no dataset away. */
  lemma {:induction false} OthersKeep(w: World, calls: seq<Call>)
    requires forall c :: c in calls ==> !c.DeleteDataset? && !c.Drift?
    ensures w.src.datasets.Keys <= ApplyAll(w, calls).src.datasets.Keys
    ensures w.dst.datasets.Keys <= ApplyAll(w, calls).dst.datasets.Keys
    decreases |calls|
  {
    if calls != [] {
      assert calls[0] in calls && forall x :: x in calls[1..] ==> x in calls;
      OthersKeep(Apply(w, calls[0]), calls[1..]);
    }
  }

  /** The step takes the dataset away. */
  predicate Vanishes(g: Group, w: World, s: Step, d: string) {
    d in w.dst.datasets && d !in Next(g, w, s).dst.datasets
  }

  lemma DestroyersOnly(g: Group, w: World, op: Op)
    requires op.DeleteGroup? || op.StopTest?
    ensures forall c :: c in ScriptOf(g, w, op).calls ==> !MakesDataset(c) && !c.Stamp?
  {
    hide OwnedAt, ApplyAll, ForeignTarget;
    if op.StopTest? && w.stored.test.Some? {
      var root := w.stored.test.value.root;
      var d := DropDatasets(w, op.names + [root]);
      var s := Guarded(root, d);
      assert forall c :: c in s.calls ==> c in d.calls;
    }
  }

  /** Whatever part of an operation landed, exactly what is at or beneath a dataset it dropped is
      gone from the target; nothing goes from the source. */
  lemma VanishedIff(g: Group, w: World, s: Step, d: string)
    requires !s.op.Outside?
    ensures w.src.datasets.Keys <= Next(g, w, s).src.datasets.Keys
    ensures Vanishes(g, w, s, d) <==> d in w.dst.datasets && Beneath(d, Dropped(Landed(g, w, s)))
  {
    hide ScriptOf, ApplyAll, AtOrUnder;
    var calls := ScriptOf(g, w, s.op).calls;
    assert forall c :: c in Landed(g, w, s) ==> c in calls;
    if s.op.DeleteGroup? || s.op.StopTest? {
      DestroyersOnly(g, w, s.op);
      CallsThin(w, Landed(g, w, s));
    } else {
      OnlyTheseDestroy(g, w, s.op);
      NoDrift(g, w, s.op);
      OthersKeep(w, Landed(g, w, s));
    }
  }

  lemma NoDrift(g: Group, w: World, op: Op)
    requires !op.Outside?
    ensures forall c :: c in ScriptOf(g, w, op).calls ==> !c.Drift?
  {
    hide Create, TestFailover, Failover, Failback, SetSuspended, Delete, StopTestFailover;
    match op
    case CreateGroup => CreateHasNoDrift(g, w);
    case DeleteGroup(_) => DestroyersOnly(g, w, op);
    case FailoverGroup(force, cut) => FailoverHasNoDrift(g, w, force, cut);
    case FailbackGroup(force) => FailbackHasNoDrift(g, w, force);
    case SuspendGroup => SuspendHasNoDrift(g, w, true);
    case ResumeGroup => SuspendHasNoDrift(g, w, false);
    case StartTest => TestHasNoDrift(g, w);
    case StopTest(_) => DestroyersOnly(g, w, op);
  }

  lemma CreateHasNoDrift(g: Group, w: World)
    ensures forall c :: c in Create(g, w).calls ==> !c.Drift?
  {
    hide Tasks, Created, MembersOwned, ApplyAll;
  }

  lemma FailoverHasNoDrift(g: Group, w: World, force: bool, cut: nat)
    ensures forall c :: c in Failover(g, w, force, cut).calls ==> !c.Drift?
  {
    hide Stopped, Promote, Apply, ApplyAll, RefusesFailover;
  }

  lemma FailbackHasNoDrift(g: Group, w: World, force: bool)
    ensures forall c :: c in Failback(g, w, force).calls ==> !c.Drift?
  {
    hide Reverse, SetTransfers, Apply, ApplyAll, Diverged;
  }

  lemma SuspendHasNoDrift(g: Group, w: World, suspended: bool)
    ensures forall c :: c in SetSuspended(g, w, suspended).calls ==> !c.Drift?
  {
    hide SetTransfers, ApplyAll;
  }

  lemma TestHasNoDrift(g: Group, w: World)
    ensures forall c :: c in TestFailover(g, w).calls ==> !c.Drift?
  {
    hide StartWrites;
    if w.stored.test.None? {
      var r := StartWrites(g, w);
      var s := Guarded(ScratchRoot(g), Script(r.calls, r.ok));
      assert forall c :: c in s.calls ==> c in r.calls;
    }
  }

  /** Whatever disappears in an operation, forced or not, lies at or beneath a dataset that carried
      the driver's own marker for that very path when the operation began. */
  lemma VanishedUnderOwned(g: Group, w: World, s: Step, d: string) returns (id: string)
    requires !s.op.Outside? && Vanishes(g, w, s, d)
    ensures id in Dropped(Landed(g, w, s)) && AtOrUnder(d, id) && OwnedAt(w.dst, id)
  {
    hide ScriptOf, ApplyAll, AtOrUnder;
    VanishedIff(g, w, s, d);
    id :| id in Dropped(Landed(g, w, s)) && AtOrUnder(d, id);
    var calls := Landed(g, w, s);
    var j :| 0 <= j < |calls| && calls[j].DeleteDataset? && calls[j].id == id;
    DestroysOnlyOwned(g, w, s, j);
    if !s.op.DeleteGroup? && !s.op.StopTest? { OnlyTheseDestroy(g, w, s.op); }
    DestroyersOnly(g, w, s.op);
    assert forall c :: c in calls[..j] ==> c in ScriptOf(g, w, s.op).calls;
    CallsThin(w, calls[..j]);
  }

  /** Wherever it stops, the operation may take the dataset away. */
  ghost predicate EverTakes(g: Group, w: World, op: Op, d: string) {
    exists reach: nat :: Vanishes(g, w, Step(op, reach), d)
  }

  lemma EverTakesIff(g: Group, w: World, op: Op, d: string)
    requires !op.Outside?
    ensures EverTakes(g, w, op, d) <==> d in w.dst.datasets && Beneath(d, Dropped(ScriptOf(g, w, op).calls))
  {
    hide ScriptOf, ApplyAll, AtOrUnder, Vanishes;
    var calls := ScriptOf(g, w, op).calls;
    if EverTakes(g, w, op, d) {
      var reach: nat :| Vanishes(g, w, Step(op, reach), d);
      VanishedIff(g, w, Step(op, reach), d);
      PartDrops(g, w, Step(op, reach), d);
    }
    if d in w.dst.datasets && Beneath(d, Dropped(calls)) {
      VanishedIff(g, w, Step(op, |calls|), d);
      assert calls[..|calls|] == calls;
      assert Vanishes(g, w, Step(op, |calls|), d);
    }
  }

  lemma PartDrops(g: Group, w: World, s: Step, d: string)
    requires Beneath(d, Dropped(Landed(g, w, s)))
    ensures Beneath(d, Dropped(ScriptOf(g, w, s.op).calls))
  {
    hide ScriptOf, AtOrUnder;
    var part, calls := Landed(g, w, s), ScriptOf(g, w, s.op).calls;
    var id :| id in Dropped(part) && AtOrUnder(d, id);
    var j :| 0 <= j < |part| && part[j].DeleteDataset? && part[j].id == id;
    assert calls[j] == part[j];
  }

  // Deleting a group's targets

  lemma DropOne(w: World, id: string, rest: seq<Call>)
    ensures Dropped([DeleteDataset(id)] + rest) == {id} + Dropped(rest)
  {
    var calls := [DeleteDataset(id)] + rest;
    assert calls[1..] == rest;
    DroppedSplits(calls);
  }

  /** Dropping a list of owned datasets takes what is at or beneath any of them that is there: one
      that went with another before its turn was beneath that other. */
  lemma {:induction false} DropReach(w: World, ids: seq<string>, d: string)
    requires forall id :: id in ids && id in w.dst.datasets ==> OwnedAt(w.dst, id)
    ensures Beneath(d, Dropped(DropDatasets(w, ids).calls)) <==>
              exists id :: id in ids && id in w.dst.datasets && AtOrUnder(d, id)
    decreases |ids|
  {
    hide AtOrUnder, VerifyOwned;
    if ids != [] {
      var first, rest := ids[0], ids[1..];
      assert first in ids && (forall id :: id in ids <==> id == first || id in rest);
      if first !in w.dst.datasets {
        DropReach(w, rest, d);
      } else {
        var w1 := Apply(w, DeleteDataset(first));
        DropReach(w1, rest, d);
        var calls := DropDatasets(w1, rest).calls;
        DropOne(w, first, calls);
        BeneathOne(d, first, Dropped(calls));
        forall id | id in rest && id in w.dst.datasets && id !in w1.dst.datasets && AtOrUnder(d, id)
          ensures AtOrUnder(d, first)
        {
          AtOrUnderTransitive(d, id, first);
        }
      }
    }
  }

  lemma BeneathOne(d: string, id: string, ids: set<string>)
    ensures Beneath(d, {id} + ids) <==> AtOrUnder(d, id) || Beneath(d, ids)
  {
    hide AtOrUnder;
    assert forall x :: x in {id} + ids <==> x == id || x in ids;
  }

  /** The dataset is a target of the group that is there, or lies beneath one. */
  predicate UnderTarget(g: Group, w: World, d: string) {
    exists i :: 0 <= i < |g.volumes| && Target(g, g.volumes[i]) in w.dst.datasets
                && AtOrUnder(d, Target(g, g.volumes[i]))
  }

  lemma DeleteReach(g: Group, w: World, d: string)
    requires w.stored.test.None? && !ForeignTarget(g, w)
    ensures Beneath(d, Dropped(Delete(g, w, true).calls)) <==> UnderTarget(g, w, d)
  {
    hide Target, AtOrUnder, Untasked, VerifyOwned;
    var t := Untasked(g, w);
    var w1 := ApplyAll(w, t);
    UntaskedKeeps(w, t);
    var r := DropDatasets(w1, Targets(g));
    forall id | id in Targets(g) && id in w1.dst.datasets ensures OwnedAt(w1.dst, id) {
      var i :| 0 <= i < |g.volumes| && Target(g, g.volumes[i]) == id;
    }
    DropReach(w1, Targets(g), d);
    var calls := Delete(g, w, true).calls;
    assert calls == t + r.calls || calls == t + r.calls + [Save(NEW_STATE)];
    SameDropped(t, r.calls, calls);
    assert forall i :: 0 <= i < |g.volumes| ==> Targets(g)[i] == Target(g, g.volumes[i]) && Targets(g)[i] in Targets(g);
  }

  lemma SameDropped(before: seq<Call>, drops: seq<Call>, calls: seq<Call>)
    requires forall c :: c in before ==> !c.DeleteDataset?
    requires before + drops <= calls && forall i :: |before| + |drops| <= i < |calls| ==> !calls[i].DeleteDataset?
    ensures Dropped(calls) == Dropped(drops)
  {
    var n := |before|;
    assert forall i :: 0 <= i < n ==> calls[i] == before[i] && before[i] in before;
    forall id | id in Dropped(calls) ensures id in Dropped(drops) {
      var i :| 0 <= i < |calls| && calls[i].DeleteDataset? && calls[i].id == id;
      assert calls[i] == drops[i - n];
    }
    forall id | id in Dropped(drops) ensures id in Dropped(calls) {
      var i :| 0 <= i < |drops| && drops[i].DeleteDataset? && drops[i].id == id;
      assert calls[n + i] == drops[i];
    }
  }

  /** Deleting a group destroys nothing but the driver's own, wherever it stops, if and only if it is
      refused, leaves the targets alone, or everything at or beneath the targets is the driver's. */
  lemma DeleteOwnedIff(g: Group, w: World, remove: bool)
    ensures (forall d :: EverTakes(g, w, DeleteGroup(remove), d) ==> OwnedAt(w.dst, d))
            <==> || w.stored.test.Some? || !remove || ForeignTarget(g, w)
                 || (forall d :: d in w.dst.datasets && UnderTarget(g, w, d) ==> OwnedAt(w.dst, d))
  {
    hide EverTakes, Delete, UnderTarget, OwnedAt, ForeignTarget, Beneath;
    var refused := w.stored.test.Some? || !remove || ForeignTarget(g, w);
    forall d
      ensures EverTakes(g, w, DeleteGroup(remove), d) <==> !refused && d in w.dst.datasets && UnderTarget(g, w, d)
    {
      EverTakesIff(g, w, DeleteGroup(remove), d);
      if refused {
        RefusedDropsNothing(g, w, remove, d);
      } else {
        DeleteReach(g, w, d);
      }
    }
  }

  lemma RefusedDropsNothing(g: Group, w: World, remove: bool, d: string)
    requires w.stored.test.Some? || !remove || ForeignTarget(g, w)
    ensures !Beneath(d, Dropped(Delete(g, w, remove).calls))
  {
    hide Untasked, ForeignTarget, DropDatasets, AtOrUnder;
    var calls, t := Delete(g, w, remove).calls, Untasked(g, w);
    if calls != [] {
      assert calls == t + [Save(NEW_STATE)];
      assert forall i :: 0 <= i < |t| ==> calls[i] == t[i] && t[i] in t;
    }
    assert forall i :: 0 <= i < |calls| ==> !calls[i].DeleteDataset?;
  }

  /** It does happen otherwise: deleting a group with its targets takes a dataset somebody else made
      beneath a target. */
  lemma DeleteTakesForeign(g: Group, w: World, x: string)
    requires |g.volumes| == 1 && w.stored.test.None?
    requires var t := Target(g, g.volumes[0]);
             w.dst.datasets == map[t := Dataset(Stamped(map[], t), true, ""), t + "/" + x := Dataset(map[], false, "")]
    ensures var child, s := Target(g, g.volumes[0]) + "/" + x, Step(DeleteGroup(true), |Delete(g, w, true).calls|);
            Vanishes(g, w, s, child) && !OwnedAt(w.dst, child)
  {
    hide Untasked, Target, ApplyAll, Vanishes;
    var t := Target(g, g.volumes[0]);
    var child, s := t + "/" + x, Step(DeleteGroup(true), |Delete(g, w, true).calls|);
    var u := Untasked(g, w);
    var w1 := ApplyAll(w, u);
    UntaskedKeeps(w, u);
    assert Targets(g) == [t];
    var d := DropDatasets(w1, [t]);
    assert [t][1..] == [] && DropDatasets(Apply(w1, DeleteDataset(t)), []) == Script([], true);
    assert OwnedAt(w1.dst, t) && !ForeignTarget(g, w);
    assert d == Script([DeleteDataset(t)], true);
    var calls := Delete(g, w, true).calls;
    assert calls[|u|] == DeleteDataset(t);
    assert calls[..|calls|] == calls;
    assert t in Dropped(Landed(g, w, s)) && AtOrUnder(child, t);
    VanishedIff(g, w, s, child);
  }

  lemma {:induction false} UntaskedKeeps(w: World, calls: seq<Call>)
    requires forall c :: c in calls ==> c.DeleteTask? || c.DeleteSnapTask?
    ensures ApplyAll(w, calls).dst.datasets == w.dst.datasets
    decreases |calls|
  {
    if calls != [] {
      assert calls[0] in calls && forall x :: x in calls[1..] ==> x in calls;
      UntaskedKeeps(Apply(w, calls[0]), calls[1..]);
    }
  }

  // Deleting a group

  lemma {:induction false} DropsAll(w: World, ids: seq<string>)
    requires forall id :: id in ids && id in w.dst.datasets ==> OwnedAt(w.dst, id)
    ensures var r := DropDatasets(w, ids);
            var w' := ApplyAll(w, r.calls);
            && r.ok && w'.src == w.src && w'.dst.tasks == w.dst.tasks
            && w'.dst.datasets.Keys <= w.dst.datasets.Keys
            && (forall id :: id in ids ==> id !in w'.dst.datasets)
    decreases |ids|
  {
    hide AtOrUnder, VerifyOwned;
    if ids != [] {
      assert ids[0] in ids && (forall id :: id in ids[1..] ==> id in ids) && ids == [ids[0]] + ids[1..];
      if ids[0] !in w.dst.datasets {
        DropsAll(w, ids[1..]);
      } else {
        var c := DeleteDataset(ids[0]);
        var w1 := Apply(w, c);
        assert ids[0] !in w1.dst.datasets by { Itself(ids[0]); }
        DropsAll(w1, ids[1..]);
        var rest := DropDatasets(w1, ids[1..]).calls;
        assert ([c] + rest)[1..] == rest;
      }
    }
  }

  lemma Itself(d: string)
    ensures AtOrUnder(d, d)
  {
  }

  lemma {:induction false} SnapTasksDropped(g: Group, w: World, vols: seq<ID>)
    ensures var w' := ApplyAll(w, DropSnapTasks(g, w, vols));
            && w'.dst == w.dst && w'.stored == w.stored && w'.src.tasks == w.src.tasks
            && w'.src.datasets == w.src.datasets && w'.src.snapshots == w.src.snapshots
            && w'.src.snapTasks.Keys <= w.src.snapTasks.Keys
            && (forall v :: v in vols ==> SnapTask(g, v) !in w'.src.snapTasks)
    decreases |vols|
  {
    hide SnapTask;
    if vols != [] {
      var k := SnapTask(g, vols[0]);
      assert vols == [vols[0]] + vols[1..];
      if k !in w.src.snapTasks {
        SnapTasksDropped(g, w, vols[1..]);
      } else {
        var w1 := Apply(w, DeleteSnapTask(k));
        SnapTasksDropped(g, w1, vols[1..]);
        var rest := DropSnapTasks(g, w1, vols[1..]);
        assert ([DeleteSnapTask(k)] + rest)[1..] == rest;
      }
    }
  }

  lemma UntaskedDoes(g: Group, w: World)
    ensures var w' := ApplyAll(w, Untasked(g, w));
            && w'.dst == w.dst && w'.stored == w.stored
            && w'.src.datasets == w.src.datasets && w'.src.snapshots == w.src.snapshots
            && TaskName(g) !in w'.src.tasks && (forall v :: v in g.volumes ==> SnapTask(g, v) !in w'.src.snapTasks)
  {
    hide SnapTask, DropSnapTasks;
    var t := if TaskName(g) in w.src.tasks then [DeleteTask(Source, TaskName(g))] else [];
    assert TaskName(g) in w.src.tasks ==> t[1..] == [] && ApplyAll(w, t) == Apply(w, t[0]);
    SnapTasksDropped(g, ApplyAll(w, t), g.volumes);
    ApplyAllConcat(w, t, DropSnapTasks(g, ApplyAll(w, t), g.volumes));
  }

  /** Deleting a group, with its targets or without, succeeds unless a rehearsal runs or, when the
      targets are to go too, one of them is foreign. It leaves none of the group's tasks on the
      source and the source's data as it was, no target when they were to go, and nothing of the
      target appliance touched when they were not. */
  lemma DeleteAchieves(g: Group, w: World, remove: bool)
    ensures Delete(g, w, remove).ok <==> w.stored.test.None? && !(remove && ForeignTarget(g, w))
    ensures Delete(g, w, remove).ok ==>
              var w' := ApplyAll(w, Delete(g, w, remove).calls);
              && w'.stored == NEW_STATE
              && w'.src.datasets == w.src.datasets && w'.src.snapshots == w.src.snapshots
              && TaskName(g) !in w'.src.tasks && (forall v :: v in g.volumes ==> SnapTask(g, v) !in w'.src.snapTasks)
              && (remove ==> forall v :: v in g.volumes ==> Target(g, v) !in w'.dst.datasets)
              && (!remove ==> w'.dst == w.dst)
  {
    hide SnapTask, Untasked, Target, OwnedAt, DropDatasets;
    if w.stored.test.None? && !(remove && ForeignTarget(g, w)) {
      var t := Untasked(g, w);
      UntaskedDoes(g, w);
      var w1 := ApplyAll(w, t);
      var d := if remove then DropDatasets(w1, Targets(g)) else Script([], true);
      if remove {
        forall id | id in Targets(g) && id in w1.dst.datasets ensures OwnedAt(w1.dst, id) {
          var i :| 0 <= i < |g.volumes| && Target(g, g.volumes[i]) == id;
        }
        DropsAll(w1, Targets(g));
        forall v | v in g.volumes ensures Target(g, v) in Targets(g) {
          var i :| 0 <= i < |g.volumes| && g.volumes[i] == v;
          assert Targets(g)[i] == Target(g, v);
        }
      }
      ApplyAllConcat(w, t, d.calls);
      ApplyAllConcat(w, t + d.calls, [Save(NEW_STATE)]);
      assert [Save(NEW_STATE)][1..] == [];
    }
  }

  /** By the time Delete names a target to be destroyed, nothing of the group is left on the source that
      could push to it: neither its stream nor a member's schedule. */
  lemma DeleteUntasksFirst(g: Group, w: World, remove: bool, j: nat)
    requires j < |Delete(g, w, remove).calls| && Delete(g, w, remove).calls[j].DeleteDataset?
    ensures var u := ApplyAll(w, Delete(g, w, remove).calls[..j]);
            TaskName(g) !in u.src.tasks && forall v :: v in g.volumes ==> SnapTask(g, v) !in u.src.snapTasks
  {
    hide SnapTask, Untasked, DropDatasets, ForeignTarget, Apply, ApplyAll;
    var calls, t := Delete(g, w, remove).calls, Untasked(g, w);
    var w1 := ApplyAll(w, t);
    var d := if remove then DropDatasets(w1, Targets(g)) else Script([], true);
    UntaskedDoes(g, w);
    assert t + d.calls <= calls;
    assert forall i :: 0 <= i < |t| ==> calls[i] == t[i] && t[i] in t;
    assert calls == t + d.calls + calls[|t| + |d.calls|..];
    var rest := d.calls[..j - |t|];
    assert calls[..j] == t + rest;
    ApplyAllConcat(w, t, rest);
    assert forall c :: c in rest ==> c in d.calls;
    SourceKept(w1, rest);
  }

  // Rehearsing

  function CloneOf(g: Group, v: ID): string {
    ScratchRoot(g) + "/" + v.name
  }

  ghost predicate IsClone(g: Group, vols: seq<ID>, d: string) {
    exists v :: v in vols && d == CloneOf(g, v)
  }

  /** What stamping the clones of these volumes did: each is there and the driver's own, whoever made
      it; nothing else was made, and everything else is as it was. */
  ghost predicate Cloned(g: Group, w: World, w': World, vols: seq<ID>) {
    && (forall d :: d in w'.dst.datasets <==> d in w.dst.datasets || IsClone(g, vols, d))
    && (forall v :: v in vols ==> OwnedAt(w'.dst, CloneOf(g, v)))
    && (forall d :: d in w.dst.datasets && d in w'.dst.datasets && !IsClone(g, vols, d) ==>
          w'.dst.datasets[d] == w.dst.datasets[d])
  }

  lemma CloneDoes(w: World, latest: Snapshot, id: string)
    ensures var w' := ApplyAll(w, Clone(w, latest, id));
            && w'.dst.datasets.Keys == w.dst.datasets.Keys + {id} && OwnedAt(w'.dst, id)
            && w'.dst.datasets[id].origin == (if id in w.dst.datasets then w.dst.datasets[id].origin else latest.id)
            && (forall d :: d in w.dst.datasets && d != id ==> w'.dst.datasets[d] == w.dst.datasets[d])
  {
    var c := Clone(w, latest, id);
    var w1 := Apply(w, c[0]);
    if |c| == 2 {
      assert c[1..] == [Stamp(id)] && c[1..][1..] == [];
      assert ApplyAll(w, c) == ApplyAll(w1, [Stamp(id)]) == ApplyAll(Apply(w1, Stamp(id)), []);
    } else {
      assert c[1..] == [] && ApplyAll(w, c) == ApplyAll(w1, []);
    }
  }

  lemma {:induction false} RehearseDoes(g: Group, w: World, vols: seq<ID>, run: TestRun)
    requires Rehearse(g, w, vols, run).ok
    ensures Cloned(g, w, ApplyAll(w, Rehearse(g, w, vols, run).calls), vols)
    decreases |vols|
  {
    hide OwnedAt, Latest, ShortName, Clone, Apply, ScratchRoot;
    if vols != [] {
      var v, rest := vols[0], vols[1..];
      var latest, id := Latest(w.dst, Target(g, v)).value, CloneOf(g, v);
      var c := Clone(w, latest, id);
      var w1 := ApplyAll(w, c);
      CloneDoes(w, latest, id);
      var run' := run.(datasets := run.datasets[v.name := id],
                       snapshots := run.snapshots[v.name := ShortName(latest.id)]);
      RehearseDoes(g, w1, rest, run');
      var r := Rehearse(g, w1, rest, run');
      ApplyAllConcat(w, c, r.calls);
      ClonedMore(g, w, w1, ApplyAll(w1, r.calls), vols);
    }
  }

  lemma ClonedMore(g: Group, w: World, w1: World, w2: World, vols: seq<ID>)
    requires vols != [] && Cloned(g, w1, w2, vols[1..])
    requires var id := CloneOf(g, vols[0]);
             && w1.dst.datasets.Keys == w.dst.datasets.Keys + {id} && OwnedAt(w1.dst, id)
             && (forall d :: d in w.dst.datasets && d != id ==> w1.dst.datasets[d] == w.dst.datasets[d])
    ensures Cloned(g, w, w2, vols)
  {
    hide OwnedAt, CloneOf;
    var id := CloneOf(g, vols[0]);
    assert forall v :: v in vols <==> v == vols[0] || v in vols[1..];
    assert forall d :: IsClone(g, vols, d) <==> d == id || IsClone(g, vols[1..], d);
    hide IsClone;
    if IsClone(g, vols[1..], id) {
      assert OwnedAt(w2.dst, id) by { SomeClone(g, vols[1..], id); }
    } else {
      assert OwnedAt(w2.dst, id) by { OwnedSame(w1.dst, w2.dst, id); }
    }
  }

  lemma SomeClone(g: Group, vols: seq<ID>, d: string)
    requires IsClone(g, vols, d)
    ensures exists v :: v in vols && CloneOf(g, v) == d
  {
  }

  lemma OwnedSame(a: Appliance, b: Appliance, id: string)
    requires OwnedAt(a, id) && id in b.datasets && b.datasets[id] == a.datasets[id]
    ensures OwnedAt(b, id)
  {
  }

  /** The record names each volume's clone, and nothing else. */
  lemma {:induction false} RehearseRecords(g: Group, w: World, vols: seq<ID>, run: TestRun)
    requires Rehearse(g, w, vols, run).ok
    ensures var m := Rehearse(g, w, vols, run).run.datasets;
            && (forall k :: k in run.datasets ==> k in m)
            && (forall v :: v in vols ==> v.name in m)
            && (forall k :: k in m ==>
                  || (k in run.datasets && m[k] == run.datasets[k])
                  || (IsClone(g, vols, m[k]) && m[k] == ScratchRoot(g) + "/" + k))
    decreases |vols|
  {
    hide OwnedAt, Latest, ShortName, Clone, Apply, ScratchRoot;
    if vols != [] {
      var v, rest := vols[0], vols[1..];
      var latest, id := Latest(w.dst, Target(g, v)).value, CloneOf(g, v);
      var w1 := ApplyAll(w, Clone(w, latest, id));
      var run' := run.(datasets := run.datasets[v.name := id],
                       snapshots := run.snapshots[v.name := ShortName(latest.id)]);
      RehearseRecords(g, w1, rest, run');
      assert forall u :: u in vols <==> u == v || u in rest;
    }
  }

  /** The scratch root will be the driver's to destroy. */
  predicate RootIsOurs(g: Group, w: World) {
    ScratchRoot(g) !in w.dst.datasets || OwnedAt(w.dst, ScratchRoot(g))
  }

  /** The world once a rehearsal has started: the root is there, and the driver's exactly if it was
      absent or the driver's; every clone is the driver's; nothing else was made or touched. */
  ghost predicate Rehearsing(g: Group, w: World, w1: World) {
    var root := ScratchRoot(g);
    && root in w1.dst.datasets && (OwnedAt(w1.dst, root) <==> RootIsOurs(g, w))
    && (forall d :: d in w1.dst.datasets <==> d in w.dst.datasets || d == root || IsClone(g, g.volumes, d))
    && (forall v :: v in g.volumes ==> OwnedAt(w1.dst, CloneOf(g, v)))
  }

  lemma StartDoes(g: Group, w: World)
    requires StartWrites(g, w).ok
    ensures Rehearsing(g, w, ApplyAll(w, StartWrites(g, w).calls))
  {
    hide Rehearse, ScratchRoot, VerifyOwned;
    var root, c := ScratchRoot(g), Scratch(g, w);
    var w0 := ApplyAll(w, c);
    var run := TestRun(root, map[], map[]);
    if c != [] {
      assert c == [CreateDataset(root)] && c[1..] == [];
      assert w0 == ApplyAll(Apply(w, c[0]), []) == Apply(w, c[0]);
    }
    RehearseDoes(g, w0, g.volumes, run);
    ApplyAllConcat(w, c, Rehearse(g, w0, g.volumes, run).calls);
    forall v ensures CloneOf(g, v) != root {
      assert |CloneOf(g, v)| > |root|;
    }
  }

  /** The rehearsal on record is of every volume, each under its clone's name. */
  ghost predicate RecordsClones(g: Group, run: TestRun) {
    && ScratchOnly(g, run)
    && (forall v :: v in g.volumes ==> v.name in run.datasets)
    && (forall k :: k in run.datasets ==>
          IsClone(g, g.volumes, run.datasets[k]) && run.datasets[k] == ScratchRoot(g) + "/" + k)
  }

  lemma StartRecordsClones(g: Group, w: World)
    requires StartWrites(g, w).ok
    ensures RecordsClones(g, StartWrites(g, w).run)
  {
    var w0, run := ApplyAll(w, Scratch(g, w)), TestRun(ScratchRoot(g), map[], map[]);
    RehearsalRecord(g, w0, g.volumes, run);
    hide Rehearse, Scratch, ScratchRoot, ApplyAll;
    RehearseRecords(g, w0, g.volumes, run);
  }

  lemma Started(g: Group, w: World)
    requires w.stored.test.None? && TestFailover(g, w).ok
    ensures var w1, run := ApplyAll(w, TestFailover(g, w).calls), StartWrites(g, w).run;
            Rehearsing(g, w, w1) && w1.stored.test == Some(run) && RecordsClones(g, run)
  {
    hide StartWrites, Guarded, OwnedAt, IsClone, RecordsClones, ScratchRoot, RootIsOurs;
    var r := StartWrites(g, w);
    StartNeverRefused(g, w);
    StartDoes(g, w);
    StartRecordsClones(g, w);
    var st := w.stored.(test := Some(r.run));
    assert TestFailover(g, w).calls == r.calls + [Save(st)];
    ApplyAllConcat(w, r.calls, [Save(st)]);
    var w0 := ApplyAll(w, r.calls);
    assert [Save(st)][1..] == [];
    assert ApplyAll(w0, [Save(st)]) == ApplyAll(Apply(w0, Save(st)), []) == Apply(w0, Save(st));
  }

  /** Dropping owned datasets and then the root takes what is beneath them, and what is beneath the
      root exactly if the root is the driver's. */
  lemma {:induction false} DropThenRoot(w: World, names: seq<string>, root: string, d: string)
    requires forall n :: n in names && n in w.dst.datasets ==> OwnedAt(w.dst, n)
    requires root in w.dst.datasets && forall n :: n in names ==> !AtOrUnder(root, n)
    ensures Beneath(d, Dropped(DropDatasets(w, names + [root]).calls)) <==>
              || (exists n :: n in names && n in w.dst.datasets && AtOrUnder(d, n))
              || (OwnedAt(w.dst, root) && AtOrUnder(d, root))
    decreases |names|
  {
    hide AtOrUnder, VerifyOwned;
    var ids := names + [root];
    if names == [] {
      assert ids == [root] && ids[1..] == [];
      var calls := DropDatasets(w, ids).calls;
      if OwnedAt(w.dst, root) {
        assert DropDatasets(Apply(w, DeleteDataset(root)), []).calls == [];
        assert calls == [DeleteDataset(root)] + [];
        DropOne(w, root, []);
        BeneathOne(d, root, Dropped([]));
      } else {
        assert calls == [];
      }
    } else {
      var first, rest := names[0], names[1..];
      assert first in names && (forall n :: n in names <==> n == first || n in rest);
      assert ids[0] == first && ids[1..] == rest + [root];
      if first !in w.dst.datasets {
        DropThenRoot(w, rest, root, d);
      } else {
        var w1 := Apply(w, DeleteDataset(first));
        DropThenRoot(w1, rest, root, d);
        var calls := DropDatasets(w1, rest + [root]).calls;
        DropOne(w, first, calls);
        BeneathOne(d, first, Dropped(calls));
        forall id | id in rest && id in w.dst.datasets && id !in w1.dst.datasets && AtOrUnder(d, id)
          ensures AtOrUnder(d, first)
        {
          AtOrUnderTransitive(d, id, first);
        }
      }
    }
  }

  /** The dataset is in the way of a rehearsal: at or beneath a clone it will stamp, or in a scratch
      tree whose root it will be able to destroy. */
  ghost predicate InTheWay(g: Group, w: World, d: string) {
    (exists v :: v in g.volumes && AtOrUnder(d, CloneOf(g, v))) || (RootIsOurs(g, w) && AtOrUnder(d, ScratchRoot(g)))
  }

  lemma StopReach(g: Group, w: World, w1: World, names: seq<string>, d: string)
    requires Rehearsing(g, w, w1) && w1.stored.test.Some?
    requires RecordsClones(g, w1.stored.test.value) && Lists(names, w1.stored.test.value.datasets)
    ensures Beneath(d, Dropped(StopTestFailover(g, w1, names).calls)) <==> InTheWay(g, w, d)
  {
    hide OwnedAt, AtOrUnder, RootIsOurs, ScratchRoot, DropDatasets, Guarded;
    var run, root := w1.stored.test.value, ScratchRoot(g);
    forall n ensures n in names <==> IsClone(g, g.volumes, n) {
      if n in names {
        var i :| 0 <= i < |names| && names[i] == n;
        assert n in run.datasets.Values;
        var k :| k in run.datasets && run.datasets[k] == n;
      }
      if IsClone(g, g.volumes, n) {
        var v :| v in g.volumes && n == CloneOf(g, v);
        assert run.datasets[v.name] == n;
      }
    }
    forall n | n in names ensures !AtOrUnder(root, n) && n in w1.dst.datasets && OwnedAt(w1.dst, n) {
      var v :| v in g.volumes && n == CloneOf(g, v);
      NotAboveRoot(g, v);
    }
    DropThenRoot(w1, names, root, d);
    StopNeverRefused(g, w1, names);
    var drops := DropDatasets(w1, names + [root]);
    var calls := StopTestFailover(g, w1, names).calls;
    assert calls == drops.calls || calls == drops.calls + [Save(w1.stored.(test := None))];
    assert [] + drops.calls == drops.calls;
    SameDropped([], drops.calls, calls);
  }

  lemma NotAboveRoot(g: Group, v: ID)
    ensures !AtOrUnder(ScratchRoot(g), CloneOf(g, v))
  {
    assert |CloneOf(g, v)| > |ScratchRoot(g)|;
  }

  /** Starting a rehearsal and stopping it destroys nothing but what was the driver's own or what it
      made itself, wherever the stop is cut short, if and only if everything in its way was the
      driver's own: the start stamps whatever already lies where a clone belongs. */
  lemma RehearsalOwnedIff(g: Group, w: World, names: seq<string>)
    requires w.stored.test.None? && TestFailover(g, w).ok && Lists(names, StartWrites(g, w).run.datasets)
    ensures var w1 := ApplyAll(w, TestFailover(g, w).calls);
            (forall d :: EverTakes(g, w1, StopTest(names), d) && d in w.dst.datasets ==> OwnedAt(w.dst, d))
            <==> (forall d :: d in w.dst.datasets && InTheWay(g, w, d) ==> OwnedAt(w.dst, d))
  {
    hide EverTakes, InTheWay, OwnedAt, TestFailover, StartWrites, ApplyAll;
    var w1 := ApplyAll(w, TestFailover(g, w).calls);
    forall d | d in w.dst.datasets ensures EverTakes(g, w1, StopTest(names), d) <==> InTheWay(g, w, d) {
      StopTakesIff(g, w, names, d);
    }
  }

  /** Of what was there before a rehearsal started, stopping it may take exactly what is in its way. */
  lemma StopTakesIff(g: Group, w: World, names: seq<string>, d: string)
    requires w.stored.test.None? && TestFailover(g, w).ok && Lists(names, StartWrites(g, w).run.datasets)
    requires d in w.dst.datasets
    ensures EverTakes(g, ApplyAll(w, TestFailover(g, w).calls), StopTest(names), d) <==> InTheWay(g, w, d)
  {
    hide EverTakes, InTheWay, OwnedAt, TestFailover, StartWrites, StopTestFailover, ApplyAll, IsClone, Beneath,
      RecordsClones, RootIsOurs;
    var w1 := ApplyAll(w, TestFailover(g, w).calls);
    Started(g, w);
    EverTakesIff(g, w1, StopTest(names), d);
    StopReach(g, w, w1, names, d);
  }

  /** It does happen: a dataset of somebody else's lying where a clone belongs is stamped by the start
      and destroyed by the stop. */
  lemma RehearsalTakesForeign(g: Group, w: World)
    requires |g.volumes| == 1 && w.stored.test.None? && Latest(w.dst, Target(g, g.volumes[0])).Some?
    requires var root, clone := ScratchRoot(g), CloneOf(g, g.volumes[0]);
             w.dst.datasets == map[root := Dataset(Stamped(map[], root), false, ""), clone := Dataset(map[], false, "")]
    ensures var clone, w1 := CloneOf(g, g.volumes[0]), ApplyAll(w, TestFailover(g, w).calls);
            && TestFailover(g, w).ok && !OwnedAt(w.dst, clone) && OwnedAt(w1.dst, clone)
            && EverTakes(g, w1, StopTest([clone]), clone)
  {
    hide Latest, ScratchRoot, EverTakes, InTheWay, TestFailover, StartWrites, ApplyAll, RootIsOurs;
    var v := g.volumes[0];
    var clone, m := CloneOf(g, v), StartWrites(g, w).run.datasets;
    SingleStarts(g, w);
    Started(g, w);
    assert v in g.volumes && m[v.name] == clone;
    assert clone in m.Values;
    forall k | k in m ensures m[k] == clone {
      assert IsClone(g, g.volumes, m[k]);
    }
    assert Lists([clone], m);
    CloneInTheWay(g, w, v);
    StopTakesIff(g, w, [clone], clone);
  }

  lemma CloneInTheWay(g: Group, w: World, v: ID)
    requires v in g.volumes
    ensures InTheWay(g, w, CloneOf(g, v))
  {
    Itself(CloneOf(g, v));
  }

  lemma SingleStarts(g: Group, w: World)
    requires |g.volumes| == 1 && w.stored.test.None? && Latest(w.dst, Target(g, g.volumes[0])).Some?
    requires ScratchRoot(g) in w.dst.datasets
    ensures TestFailover(g, w).ok
  {
    hide Latest, ScratchRoot, Apply;
    assert Scratch(g, w) == [] && ApplyAll(w, []) == w;
    assert g.volumes == [g.volumes[0]];
    RehearseOne(g, w, g.volumes[0], TestRun(ScratchRoot(g), map[], map[]));
    assert StartWrites(g, w).ok;
    StartNeverRefused(g, w);
  }

  lemma RehearseOne(g: Group, w: World, v: ID, run: TestRun)
    requires Latest(w.dst, Target(g, v)).Some?
    ensures Rehearse(g, w, [v], run).ok
  {
    hide Latest, ScratchRoot, Apply;
    var latest, id := Latest(w.dst, Target(g, v)).value, CloneOf(g, v);
    var run' := run.(datasets := run.datasets[v.name := id],
                     snapshots := run.snapshots[v.name := ShortName(latest.id)]);
    assert [v][1..] == [];
    assert Rehearse(g, ApplyAll(w, Clone(w, latest, id)), [], run').ok;
  }
}
