/** While a target is being promoted, and for as long as it stays primary, the source pushes
    nothing: its replication task and every member's snapshot task are off. */
module Transfers {
  import opened Wrappers
  import opened Text
  import opened Volume
  import opened Replication
  import opened Scripts
  import opened Lifecycle

  predicate AllScheduled(g: Group, w: World) {
    forall v :: v in g.volumes ==> SnapTask(g, v) in w.src.snapTasks
  }

  predicate Halted(g: Group, w: World) {
    && TaskName(g) in w.src.tasks && !w.src.tasks[TaskName(g)]
    && AllScheduled(g, w)
    && forall v :: v in g.volumes ==> !w.src.snapTasks[SnapTask(g, v)]
  }

  predicate AllMarked(g: Group, st: State) {
    forall v :: v in g.volumes ==> v.name in st.marks
  }

  /** A recorded rehearsal only ever names its own scratch tree. */
  predicate ScratchOnly(g: Group, run: TestRun) {
    && run.root == ScratchRoot(g)
    && (forall k :: k in run.datasets ==> ScratchRoot(g) + "/" <= run.datasets[k])
  }

  /** Holds at every moment of an unforced, Delete-free run from a group's first creation. */
  predicate Inv(g: Group, w: World) {
    && (TaskName(g) in w.src.tasks ==> AllScheduled(g, w))
    && (w.stored.phase == FailedOver ==> Halted(g, w) && AllMarked(g, w.stored))
    && (w.stored.test.Some? ==> ScratchOnly(g, w.stored.test.value))
  }

  /** The condition under which one write keeps the invariant and promotes only when halted. */
  predicate Allowed(g: Group, w: World, c: Call) {
    match c
    case Save(st) =>
      && (st.phase == FailedOver ==> Halted(g, w) && AllMarked(g, st))
      && (st.test.Some? ==> ScratchOnly(g, st.test.value))
    case SetTask(_, on) => on ==> w.stored.phase != FailedOver
    case SetSnapTask(_, on) => on ==> w.stored.phase != FailedOver
    case CreateSnapTask(_) => w.stored.phase != FailedOver
    case CreateTask(side, n) => side == Source ==> AllScheduled(g, w) && w.stored.phase != FailedOver
    case DeleteTask(side, _) => side == Dest
    case DeleteSnapTask(_) => false
    case SetWritable(side, _) => side == Dest ==> Halted(g, w)
    case _ => true
  }

  lemma AllowedKeeps(g: Group, w: World, c: Call)
    requires Inv(g, w) && Allowed(g, w, c)
    ensures Inv(g, Apply(w, c))
  {
  }

  predicate Chain(g: Group, w: World, calls: seq<Call>)
    decreases |calls|
  {
    calls == [] || (Allowed(g, w, calls[0]) && Chain(g, Apply(w, calls[0]), calls[1..]))
  }

  lemma {:induction false} ChainConcat(g: Group, w: World, a: seq<Call>, b: seq<Call>)
    requires Chain(g, w, a) && Chain(g, ApplyAll(w, a), b)
    ensures Chain(g, w, a + b)
    decreases |a|
  {
    if a == [] {
      assert a + b == b;
    } else {
      ChainConcat(g, Apply(w, a[0]), a[1..], b);
      assert (a + b)[1..] == a[1..] + b;
    }
  }

  /** Every prefix of a chain keeps the invariant, and its next write is allowed there. */
  lemma {:induction false} ChainPrefix(g: Group, w: World, calls: seq<Call>, k: nat)
    requires Inv(g, w) && Chain(g, w, calls) && k <= |calls|
    ensures Inv(g, ApplyAll(w, calls[..k]))
    ensures k < |calls| ==> Allowed(g, ApplyAll(w, calls[..k]), calls[k])
    decreases k
  {
    if k > 0 {
      AllowedKeeps(g, w, calls[0]);
      ChainPrefix(g, Apply(w, calls[0]), calls[1..], k - 1);
      assert calls[..k][1..] == calls[1..][..k - 1];
    }
  }

  /** Writes that need nothing of the state but its phase form a chain in any order. */
  predicate Harmless(st: State, c: Call) {
    match c
    case SetTask(_, on) => on ==> st.phase != FailedOver
    case SetSnapTask(_, on) => on ==> st.phase != FailedOver
    case CreateSnapTask(_) => st.phase != FailedOver
    case CreateTask(side, _) => side == Dest
    case DeleteTask(side, _) => side == Dest
    case SetWritable(side, _) => side == Source
    case Save(_) => false
    case DeleteSnapTask(_) => false
    case _ => true
  }

  lemma {:induction false} HarmlessChain(g: Group, w: World, calls: seq<Call>)
    requires forall c :: c in calls ==> Harmless(w.stored, c)
    ensures Chain(g, w, calls) && ApplyAll(w, calls).stored == w.stored
    decreases |calls|
  {
    if calls != [] {
      assert forall c :: c in calls[1..] ==> c in calls;
      assert Harmless(w.stored, calls[0]);
      HarmlessChain(g, Apply(w, calls[0]), calls[1..]);
    }
  }

  lemma FinishChain(g: Group, w: World, s: Script, done: State)
    requires forall c :: c in s.calls ==> Harmless(w.stored, c)
    requires s.ok ==> Allowed(g, ApplyAll(w, s.calls), Save(done))
    ensures Chain(g, w, Finish(s, done).calls)
  {
    HarmlessChain(g, w, s.calls);
    if s.ok { ChainConcat(g, w, s.calls, [Save(done)]); }
  }

  // What setTransfers achieves

  lemma {:induction false} SnapTasksSet(g: Group, w: World, vols: seq<ID>, on: bool)
    ensures var w' := ApplyAll(w, SetSnapTasks(g, w, vols, on));
            && w'.src.tasks == w.src.tasks && w'.src.snapTasks.Keys == w.src.snapTasks.Keys
            && w'.dst == w.dst && w'.stored == w.stored
            && w'.src.datasets == w.src.datasets && w'.src.snapshots == w.src.snapshots
            && (forall k :: k in w.src.snapTasks && w'.src.snapTasks[k] != w.src.snapTasks[k] ==>
                  w'.src.snapTasks[k] == on && exists v :: v in vols && k == SnapTask(g, v))
            && (forall v :: v in vols && SnapTask(g, v) in w.src.snapTasks ==> w'.src.snapTasks[SnapTask(g, v)] == on)
    decreases |vols|
  {
    if vols != [] {
      var k := SnapTask(g, vols[0]);
      assert forall v :: v in vols ==> v == vols[0] || v in vols[1..];
      if k !in w.src.snapTasks || w.src.snapTasks[k] == on {
        SnapTasksSet(g, w, vols[1..], on);
      } else {
        var c := SetSnapTask(k, on);
        SnapTasksSet(g, Apply(w, c), vols[1..], on);
        assert SetSnapTasks(g, w, vols, on)[1..] == SetSnapTasks(g, Apply(w, c), vols[1..], on);
      }
    }
  }

  /** Either the replication task is missing and nothing is written, or afterwards it and every
      existing member snapshot task has the wanted setting and nothing else has changed. */
  lemma TransfersSet(g: Group, w: World, on: bool)
    ensures var t := SetTransfers(g, w, on);
            var w' := ApplyAll(w, t.calls);
            && (t.ok ==> TaskName(g) in w'.src.tasks && w'.src.tasks[TaskName(g)] == on)
            && (t.ok ==> w'.src.tasks == w.src.tasks[TaskName(g) := on])
            && w'.src.tasks.Keys == w.src.tasks.Keys && w'.src.snapTasks.Keys == w.src.snapTasks.Keys
            && (forall k :: k in w.src.snapTasks && w'.src.snapTasks[k] != w.src.snapTasks[k] ==>
                  w'.src.snapTasks[k] == on && exists v :: v in g.volumes && k == SnapTask(g, v))
            && (t.ok ==> forall v :: v in g.volumes && SnapTask(g, v) in w.src.snapTasks ==>
                           w'.src.snapTasks[SnapTask(g, v)] == on)
            && w'.dst == w.dst && w'.stored == w.stored
            && w'.src.datasets == w.src.datasets && w'.src.snapshots == w.src.snapshots
  {
    var t := TaskName(g);
    if t in w.src.tasks {
      var c := if w.src.tasks[t] != on then [SetTask(t, on)] else [];
      SnapTasksSet(g, ApplyAll(w, c), g.volumes, on);
      ApplyAllConcat(w, c, SetSnapTasks(g, ApplyAll(w, c), g.volumes, on));
    }
  }

  // Each operation is a chain

  lemma {:induction false} PromoteChain(g: Group, w: World, vols: seq<ID>, marks: map<string, string>)
    requires Halted(g, w)
    ensures var p := Promote(g, w, vols, marks, false);
            && Chain(g, w, p.calls)
            && Halted(g, ApplyAll(w, p.calls)) && ApplyAll(w, p.calls).stored == w.stored
            && p.marks.Keys >= marks.Keys
            && (p.ok ==> forall v :: v in vols ==> v.name in p.marks)
    decreases |vols|
  {
    var p := Promote(g, w, vols, marks, false);
    var target := if vols == [] then "" else Target(g, vols[0]);
    if vols != [] && OwnedAt(w.dst, target) && Latest(w.dst, target).Some? {
      var c := PromoteOne(w, target);
      var marks' := marks[vols[0].name := ShortName(Latest(w.dst, target).value.id)];
      var w1 := ApplyAll(w, c);
      assert w1.src == w.src && w1.stored == w.stored && Chain(g, w, c) by { PromoteOneChain(g, w, target); }
      PromoteChain(g, w1, vols[1..], marks');
      ChainConcat(g, w, c, Promote(g, w1, vols[1..], marks', false).calls);
      ApplyAllConcat(w, c, Promote(g, w1, vols[1..], marks', false).calls);
      assert forall v :: v in vols ==> v == vols[0] || v in vols[1..];
    }
  }

  lemma PromoteOneChain(g: Group, w: World, target: string)
    requires Halted(g, w) && target in w.dst.datasets
    ensures var w1 := ApplyAll(w, PromoteOne(w, target));
            w1.src == w.src && w1.stored == w.stored && Chain(g, w, PromoteOne(w, target))
  {
    var c := PromoteOne(w, target);
    var w1 := Apply(w, c[0]);
    if |c| == 2 {
      assert c[1..] == [PromoteClone(target)];
      assert Apply(w1, c[1]).src == w.src;
      assert ApplyAll(w1, c[1..]) == Apply(w1, c[1]);
    }
  }

  lemma FailoverChain(g: Group, w: World, cut: nat)
    requires Inv(g, w)
    ensures Chain(g, w, Failover(g, w, false, cut).calls)
  {
    if w.stored.phase != FailedOver && !RefusesFailover(w.stored, false) {
      var started := w.stored.(phase := FailingOver);
      var w1 := Apply(w, Save(started));
      var t := SetTransfers(g, w1, false);
      HarmlessChain(g, w1, t.calls);
      TransfersSet(g, w1, false);
      var r := Switched(g, w1, started, false, cut);
      assert Failover(g, w, false, cut).calls[1..] == r.calls;
      if t.ok {
        var w2 := ApplyAll(w1, t.calls);
        PromoteChain(g, w2, g.volumes, started.marks);
        var p := Promote(g, w2, g.volumes, started.marks, false);
        if p.ok { ChainConcat(g, w2, p.calls, [Save(started.(phase := FailedOver, marks := p.marks))]); }
        ChainConcat(g, w1, t.calls, Promoted(g, w2, started, false).calls);
      }
    }
  }

  lemma FailbackChain(g: Group, w: World)
    requires Inv(g, w)
    ensures Chain(g, w, Failback(g, w, false).calls)
  {
    var s := Failback(g, w, false);
    if s.calls != [] {
      var started := w.stored.(phase := FailingBack);
      var w1 := Apply(w, Save(started));
      ReturnedChain(g, w1, started);
      assert s.calls[1..] == Returned(g, w1, started).calls;
    }
  }

  lemma ReturnedChain(g: Group, w: World, started: State)
    requires Inv(g, w) && w.stored == started && started.phase == FailingBack
    ensures Chain(g, w, Returned(g, w, started).calls)
  {
    var c := Reverse(g, w);
    var t := SetTransfers(g, ApplyAll(w, c), true);
    assert forall x :: x in c + t.calls ==> x in c || x in t.calls;
    FinishChain(g, w, Script(c + t.calls, t.ok), started.(phase := Ready, suspended := false, marks := map[]));
  }

  lemma SetSuspendedChain(g: Group, w: World, suspended: bool)
    requires Inv(g, w)
    ensures Chain(g, w, SetSuspended(g, w, suspended).calls)
  {
    if !Locked(w.stored) {
      FinishChain(g, w, SetTransfers(g, w, !suspended),
                  w.stored.(suspended := suspended, phase := if suspended then Suspended else Ready));
    }
  }

  lemma {:induction false} MembersChain(g: Group, w: World, vols: seq<ID>)
    requires Inv(g, w) && (forall v :: v in vols ==> v in g.volumes)
    ensures var m := Members(g, w, vols);
            var w' := ApplyAll(w, m);
            && Chain(g, w, m) && w'.stored == w.stored && w'.src.tasks == w.src.tasks
            && w'.src.snapTasks.Keys >= w.src.snapTasks.Keys
            && forall v :: v in vols ==> SnapTask(g, v) in w'.src.snapTasks
    decreases |vols|
  {
    if vols != [] {
      var c := Member(g, w, vols[0]);
      MemberChain(g, w, vols[0]);
      ChainPrefix(g, w, c, |c|);
      assert c[..|c|] == c;
      var w1 := ApplyAll(w, c);
      MembersChain(g, w1, vols[1..]);
      ChainConcat(g, w, c, Members(g, w1, vols[1..]));
      ApplyAllConcat(w, c, Members(g, w1, vols[1..]));
    }
  }

  lemma MemberChain(g: Group, w: World, v: ID)
    requires Inv(g, w) && v in g.volumes
    ensures var c := Member(g, w, v);
            var w1 := ApplyAll(w, c);
            && Chain(g, w, c) && w1.stored == w.stored && w1.src.tasks == w.src.tasks
            && w1.src.snapTasks.Keys == w.src.snapTasks.Keys + {SnapTask(g, v)}
  {
    var c := Member(g, w, v);
    HarmlessChain(g, w, c);
    if |c| > 0 {
      var w1 := Apply(w, c[0]);
      if |c| == 2 { assert ApplyAll(w1, c[1..]) == Apply(w1, c[1]); }
    }
  }

  lemma CreateChain(g: Group, w: World)
    requires Inv(g, w)
    ensures Chain(g, w, Create(g, w).calls)
  {
    if MembersOwned(g, w) {
      var m := Members(g, w, g.volumes);
      var w1 := ApplyAll(w, m);
      MembersChain(g, w, g.volumes);
      ChainPrefix(g, w, m, |m|);
      assert m[..|m|] == m;
      var f := Forward(g, w1);
      var w2 := ApplyAll(w1, f);
      ForwardChain(g, w1);
      ChainConcat(g, w, m, f);
      ApplyAllConcat(w, m, f);
      ChainConcat(g, w, m + f, [Save(Created(g, w.stored, w2))]);
    }
  }

  lemma ForwardChain(g: Group, w: World)
    requires Inv(g, w) && AllScheduled(g, w)
    ensures var f := Forward(g, w);
            var w' := ApplyAll(w, f);
            Chain(g, w, f) && w'.stored == w.stored && (w.stored.phase == FailedOver ==> w'.src == w.src)
  {
    var f := Forward(g, w);
    if f != [] {
      var w1 := Apply(w, f[0]);
      assert f[1..] == [RunTask(Source, TaskName(g))];
      assert ApplyAll(w1, f[1..]) == Apply(w1, f[1]);
    }
  }

  lemma TestChain(g: Group, w: World)
    requires Inv(g, w)
    ensures Chain(g, w, TestFailover(g, w).calls)
  {
    if w.stored.test.None? {
      RehearsalRecord(g, ApplyAll(w, Scratch(g, w)), g.volumes, TestRun(ScratchRoot(g), map[], map[]));
      var r := StartWrites(g, w);
      assert ScratchOnly(g, r.run);
      hide StartWrites, Apply, ApplyAll, ScratchOnly;
      var s := Guarded(ScratchRoot(g), Script(r.calls, r.ok));
      assert forall c :: c in s.calls ==> c in r.calls;
      SourceKept(w, s.calls);
      FinishChain(g, w, s, w.stored.(test := Some(r.run)));
    }
  }

  lemma {:induction false} RehearsalRecord(g: Group, w: World, vols: seq<ID>, run: TestRun)
    requires ScratchOnly(g, run)
    ensures ScratchOnly(g, Rehearse(g, w, vols, run).run)
    decreases |vols|
  {
    if vols != [] && Latest(w.dst, Target(g, vols[0])).Some? {
      var latest := Latest(w.dst, Target(g, vols[0])).value;
      var id := ScratchRoot(g) + "/" + vols[0].name;
      RehearsalRecord(g, ApplyAll(w, Clone(w, latest, id)), vols[1..],
                      run.(datasets := run.datasets[vols[0].name := id],
                           snapshots := run.snapshots[vols[0].name := ShortName(latest.id)]));
    }
  }

  lemma {:induction false} SourceKept(w: World, calls: seq<Call>)
    requires forall c :: c in calls ==> !OnSource(c) && !c.Drift?
    ensures ApplyAll(w, calls).src == w.src
    decreases |calls|
  {
    if calls != [] {
      assert forall c :: c in calls[1..] ==> c in calls;
      SourceKept(Apply(w, calls[0]), calls[1..]);
    }
  }

  lemma StopChain(g: Group, w: World, names: seq<string>)
    requires Inv(g, w)
    ensures Chain(g, w, StopTestFailover(g, w, names).calls)
  {
    if w.stored.test.Some? {
      var root := w.stored.test.value.root;
      var s := Guarded(root, DropDatasets(w, names + [root]));
      assert forall c :: c in s.calls ==> c.DeleteDataset?;
      SourceKept(w, s.calls);
      FinishChain(g, w, s, w.stored.(test := None));
    }
  }

  lemma StepChain(g: Group, w: World, s: Step)
    requires Inv(g, w) && Unforced(s.op) && !s.op.DeleteGroup?
    ensures Chain(g, w, ScriptOf(g, w, s.op).calls)
  {
    match s.op
    case CreateGroup => CreateChain(g, w);
    case FailoverGroup(_, cut) => FailoverChain(g, w, cut);
    case FailbackGroup(_) => FailbackChain(g, w);
    case SuspendGroup => SetSuspendedChain(g, w, true);
    case ResumeGroup => SetSuspendedChain(g, w, false);
    case StartTest => TestChain(g, w);
    case StopTest(names) => StopChain(g, w, names);
    case Outside(src, dst) => HarmlessChain(g, w, [Drift(src, dst)]);
  }

  /** The invariant holds at every point a step can be stopped at. */
  lemma StepPrefix(g: Group, w: World, s: Step, j: nat)
    requires Inv(g, w) && Unforced(s.op) && !s.op.DeleteGroup? && j <= |Landed(g, w, s)|
    ensures Inv(g, ApplyAll(w, Landed(g, w, s)[..j]))
    ensures j == |Landed(g, w, s)| ==> Inv(g, Next(g, w, s))
    ensures j < |Landed(g, w, s)| ==> Allowed(g, ApplyAll(w, Landed(g, w, s)[..j]), Landed(g, w, s)[j])
  {
    var calls := ScriptOf(g, w, s.op).calls;
    StepChain(g, w, s);
    ChainPrefix(g, w, calls, j);
    assert Landed(g, w, s)[..j] == calls[..j];
    if j == |Landed(g, w, s)| { assert Landed(g, w, s)[..j] == Landed(g, w, s); }
  }

  // Whole runs

  predicate CleanStart(g: Group, w: World) {
    w.stored == NEW_STATE && TaskName(g) !in w.src.tasks
  }

  predicate Ordinary(steps: seq<Step>) {
    forall i :: 0 <= i < |steps| ==> Unforced(steps[i].op) && !steps[i].op.DeleteGroup?
  }

  lemma {:induction false} InvAlways(g: Group, w: World, steps: seq<Step>)
    requires CleanStart(g, w) && Ordinary(steps)
    ensures Inv(g, Run(g, w, steps))
    decreases |steps|
  {
    if steps != [] {
      var n := |steps| - 1;
      var u := Run(g, w, steps[..n]);
      InvAlways(g, w, steps[..n]);
      StepPrefix(g, u, steps[n], |Landed(g, u, steps[n])|);
    }
  }

  /** Every promoting write happens while the source's stream is fully stopped, however the run
      got there; and whenever the group is recorded as failed over, it still is, and every member
      has the mark failback will measure against. */
  lemma PromotionsWhileHalted(g: Group, w: World, steps: seq<Step>, i: nat, j: nat)
    requires CleanStart(g, w) && Ordinary(steps) && i < |steps|
    requires j < |Trace(g, w, steps, i)| && IsPromotion(Trace(g, w, steps, i)[j])
    ensures Halted(g, ApplyAll(Run(g, w, steps[..i]), Trace(g, w, steps, i)[..j]))
  {
    var u := Run(g, w, steps[..i]);
    InvAlways(g, w, steps[..i]);
    StepPrefix(g, u, steps[i], j);
  }

  lemma FailedOverIsHalted(g: Group, w: World, steps: seq<Step>, i: nat, j: nat)
    requires CleanStart(g, w) && Ordinary(steps) && i < |steps| && j <= |Trace(g, w, steps, i)|
    ensures var u := ApplyAll(Run(g, w, steps[..i]), Trace(g, w, steps, i)[..j]);
            u.stored.phase == FailedOver ==> Halted(g, u) && AllMarked(g, u.stored)
  {
    var u := Run(g, w, steps[..i]);
    InvAlways(g, w, steps[..i]);
    StepPrefix(g, u, steps[i], j);
  }
}
