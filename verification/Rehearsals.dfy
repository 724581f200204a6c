/** A test failover reaches nothing but its own scratch tree, and leaves nothing behind. */
module Rehearsals {
  import opened Wrappers
  import opened Text
  import opened Volume
  import opened Replication
  import opened Scripts
  import opened Lifecycle
  import opened Transfers

  lemma AtOrUnderTransitive(a: string, b: string, c: string)
    requires AtOrUnder(a, b) && AtOrUnder(b, c)
    ensures AtOrUnder(a, c)
  {
  }

  /** Everything on both appliances except the datasets of one tree on the target. */
  ghost predicate SameOutside(w: World, w': World, root: string) {
    && w'.src == w.src && w'.dst.tasks == w.dst.tasks && w'.dst.snapTasks == w.dst.snapTasks
    && (forall d :: !AtOrUnder(d, root) ==>
          && (d in w'.dst.datasets <==> d in w.dst.datasets)
          && (d in w.dst.datasets ==> w'.dst.datasets[d] == w.dst.datasets[d])
          && (d in w'.dst.snapshots <==> d in w.dst.snapshots)
          && (d in w.dst.snapshots ==> w'.dst.snapshots[d] == w.dst.snapshots[d]))
  }

  /** Whatever is sent through the guard, in whatever order, stays inside the scratch tree. */
  lemma {:induction false} GuardConfines(w: World, root: string, calls: seq<Call>)
    requires forall c :: c in calls ==> Permit(root, c) || c.Save?
    ensures SameOutside(w, ApplyAll(w, calls), root)
    decreases |calls|
  {
    if calls != [] {
      assert forall c :: c in calls[1..] ==> c in calls;
      var w1 := Apply(w, calls[0]);
      assert SameOutside(w, w1, root) by { PermittedConfines(w, root, calls[0]); }
      GuardConfines(w1, root, calls[1..]);
    }
  }

  lemma PermittedConfines(w: World, root: string, c: Call)
    requires Permit(root, c) || c.Save?
    ensures SameOutside(w, Apply(w, c), root)
  {
    if c.DeleteDataset? {
      forall d | AtOrUnder(d, c.id) ensures AtOrUnder(d, root) { AtOrUnderTransitive(d, c.id, root); }
    }
  }

  lemma StartWriteInScratch(g: Group, w: World, x: Call)
    requires x in StartWrites(g, w).calls
    ensures Permit(ScratchRoot(g), x)
  {
    hide Rehearse, Apply, ApplyAll;
    if x !in Scratch(g, w) {
      var r := Rehearse(g, ApplyAll(w, Scratch(g, w)), g.volumes, TestRun(ScratchRoot(g), map[], map[]));
      assert x in r.calls;
    }
  }

  /** The guard never refuses a write a test failover makes to start. */
  lemma StartNeverRefused(g: Group, w: World)
    ensures var r := StartWrites(g, w);
            Guarded(ScratchRoot(g), Script(r.calls, r.ok)) == Script(r.calls, r.ok)
  {
    var r := StartWrites(g, w);
    forall x | x in r.calls ensures Permit(ScratchRoot(g), x) { StartWriteInScratch(g, w, x); }
  }

  /** ... nor one it makes to stop, given what a start records. */
  lemma StopNeverRefused(g: Group, w: World, names: seq<string>)
    requires w.stored.test.Some? && ScratchOnly(g, w.stored.test.value)
    requires Lists(names, w.stored.test.value.datasets)
    ensures var root := w.stored.test.value.root;
            Guarded(root, DropDatasets(w, names + [root])) == DropDatasets(w, names + [root])
  {
    var run := w.stored.test.value;
    forall c | c in DropDatasets(w, names + [run.root]).calls ensures Permit(run.root, c) {
      if c.id != run.root {
        var k :| k in run.datasets && run.datasets[k] == c.id;
      }
    }
  }

  /** Any rehearsal on record is one of the group's own scratch tree. */
  predicate Recorded(g: Group, st: State) {
    st.test.Some? ==> ScratchOnly(g, st.test.value)
  }

  /** No operation, forced ones and Delete included, records any other. */
  lemma SavesRecorded(g: Group, w: World, op: Op)
    requires Recorded(g, w.stored)
    ensures forall c :: c in ScriptOf(g, w, op).calls && c.Save? ==> Recorded(g, c.st)
  {
    hide Create, Delete, TestFailover, Failover, Failback, SetSuspended, StopTestFailover;
    match op
    case CreateGroup => CreateRecords(g, w);
    case DeleteGroup(remove) => DeleteRecords(g, w, remove);
    case FailoverGroup(force, cut) => FailoverRecords(g, w, force, cut);
    case FailbackGroup(force) => FailbackRecords(g, w, force);
    case SuspendGroup => SuspendRecords(g, w, true);
    case ResumeGroup => SuspendRecords(g, w, false);
    case StartTest => StartRecords(g, w);
    case StopTest(names) => StopRecords(g, w, names);
    case Outside(_, _) =>
  }

  lemma CreateRecords(g: Group, w: World)
    requires Recorded(g, w.stored)
    ensures forall c :: c in Create(g, w).calls && c.Save? ==> Recorded(g, c.st)
  {
    hide Tasks, MembersOwned, ApplyAll, ScratchOnly;
  }

  lemma DeleteRecords(g: Group, w: World, remove: bool)
    ensures forall c :: c in Delete(g, w, remove).calls && c.Save? ==> Recorded(g, c.st)
  {
    hide Untasked, DropDatasets, ForeignTarget, ApplyAll, ScratchOnly;
  }

  lemma FailoverRecords(g: Group, w: World, force: bool, cut: nat)
    requires Recorded(g, w.stored)
    ensures forall c :: c in Failover(g, w, force, cut).calls && c.Save? ==> Recorded(g, c.st)
  {
    hide Stopped, Promote, RefusesFailover, ApplyAll, ScratchOnly;
  }

  lemma FailbackRecords(g: Group, w: World, force: bool)
    requires Recorded(g, w.stored)
    ensures forall c :: c in Failback(g, w, force).calls && c.Save? ==> Recorded(g, c.st)
  {
    hide Reverse, SetTransfers, Diverged, ApplyAll, ScratchOnly;
  }

  lemma SuspendRecords(g: Group, w: World, suspended: bool)
    requires Recorded(g, w.stored)
    ensures forall c :: c in SetSuspended(g, w, suspended).calls && c.Save? ==> Recorded(g, c.st)
  {
    hide SetTransfers, ApplyAll, ScratchOnly;
  }

  lemma StartRecords(g: Group, w: World)
    ensures forall c :: c in TestFailover(g, w).calls && c.Save? ==> Recorded(g, c.st)
  {
    if w.stored.test.None? {
      RehearsalRecord(g, ApplyAll(w, Scratch(g, w)), g.volumes, TestRun(ScratchRoot(g), map[], map[]));
      var r := StartWrites(g, w);
      assert ScratchOnly(g, r.run);
      hide StartWrites, ScratchOnly;
      var s := Guarded(ScratchRoot(g), Script(r.calls, r.ok));
      assert forall c :: c in s.calls ==> c in r.calls;
    }
  }

  lemma StopRecords(g: Group, w: World, names: seq<string>)
    ensures forall c :: c in StopTestFailover(g, w, names).calls && c.Save? ==> Recorded(g, c.st)
  {
    hide DropDatasets, ScratchOnly;
    if w.stored.test.Some? {
      var root := w.stored.test.value.root;
      var d := DropDatasets(w, names + [root]);
      var s := Guarded(root, d);
      assert forall c :: c in s.calls ==> c in d.calls;
    }
  }

  lemma {:induction false} RecordedAlways(g: Group, w: World, steps: seq<Step>)
    requires Recorded(g, w.stored)
    ensures Recorded(g, Run(g, w, steps).stored)
    decreases |steps|
  {
    hide ScriptOf, ScratchOnly, ApplyAll;
    if steps != [] {
      var n := |steps| - 1;
      var u := Run(g, w, steps[..n]);
      RecordedAlways(g, w, steps[..n]);
      SavesRecorded(g, u, steps[n].op);
      StoredIsSaved(u, Landed(g, u, steps[n]));
      assert forall c :: c in Landed(g, u, steps[n]) ==> c in ScriptOf(g, u, steps[n].op).calls;
    }
  }

  /** Started, stopped, or stopped halfway, in any history of the group whatever, forced operations
      and Delete included, a rehearsal changes no dataset outside its scratch tree and no task on
      either appliance. */
  lemma RehearsalsConfined(g: Group, w: World, steps: seq<Step>, i: nat)
    requires Recorded(g, w.stored) && i < |steps|
    requires steps[i].op.StartTest? || steps[i].op.StopTest?
    ensures SameOutside(Run(g, w, steps[..i]), Run(g, w, steps[..i + 1]), ScratchRoot(g))
  {
    hide ScriptOf, SameOutside, Permit, ScratchOnly, ApplyAll;
    var u := Run(g, w, steps[..i]);
    RecordedAlways(g, w, steps[..i]);
    RunStep(g, w, steps, i);
    RehearsalWrites(g, u, steps[i]);
    GuardConfines(u, ScratchRoot(g), Landed(g, u, steps[i]));
  }

  lemma RehearsalWrites(g: Group, w: World, s: Step)
    requires s.op.StartTest? || s.op.StopTest?
    requires w.stored.test.Some? ==> ScratchOnly(g, w.stored.test.value)
    ensures forall c :: c in Landed(g, w, s) ==> Permit(ScratchRoot(g), c) || c.Save?
  {
    var calls := ScriptOf(g, w, s.op).calls;
    assert forall c :: c in Landed(g, w, s) ==> c in calls;
  }

  // Start then stop

  ghost predicate NothingUnder(a: Appliance, root: string) {
    forall d :: AtOrUnder(d, root) ==> d !in a.datasets && d !in a.snapshots
  }

  predicate AllOwnedUnder(a: Appliance, root: string) {
    forall d :: d in a.datasets && AtOrUnder(d, root) ==> OwnedAt(a, d)
  }

  /** What a start leaves under the scratch root is stamped, so the stop may destroy it. */
  lemma {:induction false} RehearseStamps(g: Group, w: World, vols: seq<ID>, run: TestRun)
    requires AllOwnedUnder(w.dst, ScratchRoot(g))
    ensures var w' := ApplyAll(w, Rehearse(g, w, vols, run).calls);
            AllOwnedUnder(w'.dst, ScratchRoot(g)) && w'.dst.snapshots == w.dst.snapshots
    decreases |vols|
  {
    if vols != [] && Latest(w.dst, Target(g, vols[0])).Some? {
      var latest := Latest(w.dst, Target(g, vols[0])).value;
      var id := ScratchRoot(g) + "/" + vols[0].name;
      var c := Clone(w, latest, id);
      var run' := run.(datasets := run.datasets[vols[0].name := id],
                       snapshots := run.snapshots[vols[0].name := ShortName(latest.id)]);
      var w1 := ApplyAll(w, c);
      CloneStamps(w, latest, id, ScratchRoot(g));
      RehearseStamps(g, w1, vols[1..], run');
      ApplyAllConcat(w, c, Rehearse(g, w1, vols[1..], run').calls);
    }
  }

  lemma CloneStamps(w: World, latest: Snapshot, id: string, root: string)
    requires AllOwnedUnder(w.dst, root)
    ensures var w1 := ApplyAll(w, Clone(w, latest, id));
            AllOwnedUnder(w1.dst, root) && w1.dst.snapshots == w.dst.snapshots
  {
    var c := Clone(w, latest, id);
    if |c| == 2 {
      assert c[1..] == [Stamp(id)];
      assert ApplyAll(Apply(w, c[0]), c[1..]) == Apply(Apply(w, c[0]), c[1]);
    }
  }

  /** Where everything under the root is owned, dropping a list ending in the root empties it. */
  lemma {:induction false} DropEmpties(w: World, ids: seq<string>, root: string)
    requires AllOwnedUnder(w.dst, root)
    requires forall d :: d in w.dst.snapshots && AtOrUnder(d, root) ==> d in w.dst.datasets
    requires forall i :: 0 <= i < |ids| ==> AtOrUnder(ids[i], root)
    requires ids != [] && ids[|ids| - 1] == root
    requires root !in w.dst.datasets ==> forall d :: AtOrUnder(d, root) ==> d !in w.dst.datasets
    ensures DropDatasets(w, ids).ok
    ensures NothingUnder(ApplyAll(w, DropDatasets(w, ids).calls).dst, root)
    decreases |ids|
  {
    if ids[0] in w.dst.datasets {
      var w1 := Apply(w, DeleteDataset(ids[0]));
      if |ids| > 1 {
        assert AtOrUnder(root, ids[0]) ==> ids[0] == root;
        DropEmpties(w1, ids[1..], root);
      }
    } else if |ids| > 1 {
      DropEmpties(w, ids[1..], root);
    }
  }

  lemma SameAgain(w: World, w': World, root: string)
    requires SameOutside(w, w', root) && NothingUnder(w.dst, root) && NothingUnder(w'.dst, root)
    ensures w'.src == w.src && w'.dst == w.dst
  {
    assert w'.dst.datasets == w.dst.datasets;
    assert w'.dst.snapshots == w.dst.snapshots;
  }

  lemma StartWritesLeave(g: Group, w: World)
    requires NothingUnder(w.dst, ScratchRoot(g))
    ensures var w1 := ApplyAll(w, StartWrites(g, w).calls);
            && AllOwnedUnder(w1.dst, ScratchRoot(g)) && ScratchRoot(g) in w1.dst.datasets
            && w1.dst.snapshots == w.dst.snapshots && ScratchOnly(g, StartWrites(g, w).run)
  {
    var root := ScratchRoot(g);
    var run := TestRun(root, map[], map[]);
    var w0 := Apply(w, CreateDataset(root));
    assert ApplyAll(w, [CreateDataset(root)]) == ApplyAll(w0, []) == w0;
    RehearseStamps(g, w0, g.volumes, run);
    RehearseKeeps(g, w0, g.volumes, run);
    RehearsalRecord(g, w0, g.volumes, run);
    ApplyAllConcat(w, [CreateDataset(root)], Rehearse(g, w0, g.volumes, run).calls);
  }

  lemma {:induction false} KeepsDatasets(w: World, calls: seq<Call>)
    requires forall c :: c in calls ==> c.CloneSnapshot? || c.Stamp?
    ensures w.dst.datasets.Keys <= ApplyAll(w, calls).dst.datasets.Keys
    decreases |calls|
  {
    if calls != [] {
      assert forall c :: c in calls[1..] ==> c in calls;
      KeepsDatasets(Apply(w, calls[0]), calls[1..]);
    }
  }

  lemma RehearseKeeps(g: Group, w: World, vols: seq<ID>, run: TestRun)
    ensures w.dst.datasets.Keys <= ApplyAll(w, Rehearse(g, w, vols, run).calls).dst.datasets.Keys
  {
    KeepsDatasets(w, Rehearse(g, w, vols, run).calls);
  }

  lemma StopEmpties(g: Group, w: World, names: seq<string>)
    requires w.stored.test.Some? && ScratchOnly(g, w.stored.test.value)
    requires Lists(names, w.stored.test.value.datasets)
    requires AllOwnedUnder(w.dst, ScratchRoot(g)) && ScratchRoot(g) in w.dst.datasets
    requires forall d :: d in w.dst.snapshots && AtOrUnder(d, ScratchRoot(g)) ==> d in w.dst.datasets
    ensures var stop := StopTestFailover(g, w, names);
            var w' := ApplyAll(w, stop.calls);
            && stop.ok && NothingUnder(w'.dst, ScratchRoot(g))
            && w'.stored == w.stored.(test := None) && SameOutside(w, w', ScratchRoot(g))
  {
    var root := ScratchRoot(g);
    var run := w.stored.test.value;
    forall i | 0 <= i < |names| ensures AtOrUnder(names[i], root) {
      assert names[i] in run.datasets.Values;
      var k :| k in run.datasets && run.datasets[k] == names[i];
    }
    StopNeverRefused(g, w, names);
    DropEmpties(w, names + [root], root);
    var d := DropDatasets(w, names + [root]);
    ApplyAllConcat(w, d.calls, [Save(w.stored.(test := None))]);
    assert ApplyAll(w, StopTestFailover(g, w, names).calls).dst == ApplyAll(w, d.calls).dst;
    RehearsalWrites(g, w, Step(StopTest(names), |d.calls| + 1));
    GuardConfines(w, root, StopTestFailover(g, w, names).calls);
  }

  /** A rehearsal that starts where there was no scratch tree and is then stopped restores both
      appliances and the stored state exactly, whatever order the clones are destroyed in. */
  lemma StartThenStopRestores(g: Group, w: World, names: seq<string>)
    requires w.stored.test.None? && NothingUnder(w.dst, ScratchRoot(g))
    requires TestFailover(g, w).ok
    requires Lists(names, StartWrites(g, w).run.datasets)
    ensures var w1 := ApplyAll(w, TestFailover(g, w).calls);
            var stop := StopTestFailover(g, w1, names);
            && w1.stored.test.Some?
            && stop.ok
            && ApplyAll(w1, stop.calls) == w
  {
    var root := ScratchRoot(g);
    var r := StartWrites(g, w);
    var st := w.stored.(test := Some(r.run));
    StartNeverRefused(g, w);
    StartWritesLeave(g, w);
    assert TestFailover(g, w).calls == r.calls + [Save(st)];
    ApplyAllConcat(w, r.calls, [Save(st)]);
    var w1 := ApplyAll(w, TestFailover(g, w).calls);
    assert w1 == ApplyAll(w, r.calls).(stored := st);
    RehearsalWrites(g, w, Step(StartTest, |r.calls| + 1));
    GuardConfines(w, root, TestFailover(g, w).calls);
    StopEmpties(g, w1, names);
    SameAgain(w, ApplyAll(w1, StopTestFailover(g, w1, names).calls), root);
  }
}
