/** The operations beside one another: when each succeeds, what a rehearsal shows, in which order a
    failback works, and that a failover can be undone. */
module RoundTrips {
  import opened Wrappers
  import opened Text
  import opened Volume
  import opened Replication
  import opened Scripts
  import opened Lifecycle
  import opened Transfers
  import opened Divergence
  import opened Outcomes
  import opened Rehearsals
  import opened Destruction

  // When each succeeds

  /** A failover succeeds exactly when the group is failed over already, or it is not refused, the
      source's stream could be stopped, and every target is the driver's own and has a snapshot;
      force does without the snapshots and without the stream. */
  lemma FailoverSucceedsIff(g: Group, w: World, force: bool, cut: nat)
    ensures Failover(g, w, force, cut).ok <==>
            || w.stored.phase == FailedOver
            || (&& (force || (w.stored.phase !in {FailingOver, FailingBack} && w.stored.test.None?))
                && (force || TaskName(g) in w.src.tasks)
                && forall v :: v in g.volumes ==> Promotable(g, w.dst, v, force))
  {
    hide Promote, Apply, ApplyAll, SetTransfers, Promotable;
    if w.stored.phase != FailedOver && !RefusesFailover(w.stored, force) {
      var started := w.stored.(phase := FailingOver);
      var w1 := Apply(w, Save(started));
      var w2 := ApplyAll(w1, Stopped(g, w1, force, cut).calls);
      assert w1.src == w.src && w2.dst == w.dst by { StoppingKeepsTarget(g, w, started, force, cut); }
      PromoteOkIff(g, w2, g.volumes, started.marks, force);
    }
  }

  lemma StoppingKeepsTarget(g: Group, w: World, started: State, force: bool, cut: nat)
    ensures var w1 := Apply(w, Save(started));
            w1.src == w.src && ApplyAll(w1, Stopped(g, w1, force, cut).calls).dst == w.dst
  {
    var w1 := Apply(w, Save(started));
    TargetKept(w1, Stopped(g, w1, force, cut).calls);
  }

  lemma {:induction false} TargetKept(w: World, calls: seq<Call>)
    requires forall c :: c in calls ==> OnSource(c)
    ensures ApplyAll(w, calls).dst == w.dst
    decreases |calls|
  {
    if calls != [] {
      assert forall c :: c in calls[1..] ==> c in calls;
      assert OnSource(calls[0]);
      TargetKept(Apply(w, calls[0]), calls[1..]);
    }
  }

  /** A failback succeeds exactly when the source is primary already, or a failover is there to be
      undone, the source is still at every mark, and its stream is there to be restarted; force
      does without the marks, and takes up a failback that stopped. */
  lemma FailbackSucceedsIff(g: Group, w: World, force: bool)
    ensures Failback(g, w, force).ok <==>
            || w.stored.phase in {Ready, Suspended}
            || (&& (w.stored.phase == FailedOver || (w.stored.phase == FailingBack && force))
                && (force || (w.stored.test.None? && forall v :: v in g.volumes ==> AtMark(w, v)))
                && TaskName(g) in w.src.tasks)
  {
    hide Diverged, AtMark, Apply, ApplyAll, Reverse, SetTransfers;
    DivergedIff(g, w);
    var w1 := Apply(w, Save(w.stored.(phase := FailingBack)));
    assert w1.src == w.src by { StateAlone(w, w.stored.(phase := FailingBack)); }
    assert ApplyAll(w1, Reverse(g, w1)).src.tasks == w1.src.tasks by { ReverseDoes(g, w1); }
  }

  lemma StateAlone(w: World, st: State)
    ensures Apply(w, Save(st)) == w.(stored := st)
  {
  }

  /** Suspending and resuming succeed exactly when no failover has begun and the stream is there. */
  lemma SuspendSucceedsIff(g: Group, w: World, suspended: bool)
    ensures SetSuspended(g, w, suspended).ok <==>
            w.stored.phase !in {FailingOver, FailedOver} && TaskName(g) in w.src.tasks
  {
    hide SetTransfers;
  }

  /** A group can be created, or created again, exactly when it has members, all of the source, within
      its configured dataset, the driver's own and of different names. */
  lemma CreateSucceedsIff(g: Group, w: World)
    ensures Create(g, w).ok <==>
            && g.volumes != []
            && (forall v :: v in g.volumes ==>
                  && v.backend == g.source && Confine(v, g.srcPool, g.srcParent)
                  && OwnedAt(w.src, v.DatasetPath()))
            && (forall i, j :: 0 <= i < |g.volumes| && 0 <= j < |g.volumes| && i != j ==>
                  g.volumes[i].name != g.volumes[j].name)
  {
    hide Tasks, Created, Confine, OwnedAt, ID.DatasetPath;
  }

  lemma {:induction false} RehearseOkIff(g: Group, w: World, vols: seq<ID>, run: TestRun)
    ensures Rehearse(g, w, vols, run).ok <==> forall v :: v in vols ==> Listed(w.dst, Target(g, v)) != []
    decreases |vols|
  {
    hide Apply, ApplyAll, Clone, Latest, ShortName, Target, ScratchRoot;
    if vols != [] {
      var v := vols[0];
      LatestIsNewest(w.dst, Target(g, v));
      assert forall u :: u in vols <==> u == v || u in vols[1..];
      if Listed(w.dst, Target(g, v)) != [] {
        var latest, id := Latest(w.dst, Target(g, v)).value, CloneOf(g, v);
        var run' := run.(datasets := run.datasets[v.name := id],
                         snapshots := run.snapshots[v.name := ShortName(latest.id)]);
        CloneKeepsSnapshots(w, latest, id);
        RehearseOkIff(g, ApplyAll(w, Clone(w, latest, id)), vols[1..], run');
      }
    }
  }

  lemma CloneKeepsSnapshots(w: World, latest: Snapshot, id: string)
    ensures ApplyAll(w, Clone(w, latest, id)).dst.snapshots == w.dst.snapshots
  {
    var c := Clone(w, latest, id);
    if |c| == 2 {
      assert c[1..] == [Stamp(id)];
      assert ApplyAll(Apply(w, c[0]), c[1..]) == Apply(Apply(w, c[0]), c[1]);
    }
  }

  /** A rehearsal starts exactly when one is running already or every target has a snapshot. */
  lemma TestSucceedsIff(g: Group, w: World)
    ensures TestFailover(g, w).ok <==>
            w.stored.test.Some? || forall v :: v in g.volumes ==> Listed(w.dst, Target(g, v)) != []
  {
    var root := ScratchRoot(g);
    StartNeverRefused(g, w);
    RehearseOkIff(g, ApplyAll(w, Scratch(g, w)), g.volumes, TestRun(root, map[], map[]));
    hide Rehearse;
    assert ApplyAll(w, Scratch(g, w)).dst.snapshots == w.dst.snapshots by { ScratchKeeps(g, w); }
  }

  lemma ScratchKeeps(g: Group, w: World)
    ensures ApplyAll(w, Scratch(g, w)).dst.snapshots == w.dst.snapshots
  {
    var c := Scratch(g, w);
    if c != [] { assert ApplyAll(w, c) == Apply(w, c[0]); }
  }

  // What is run

  function TasksOn(w: World, side: Side): map<string, bool> {
    if side == Source then w.src.tasks else w.dst.tasks
  }

  /** Whatever these calls run is there when it is run. */
  predicate Runnable(w: World, calls: seq<Call>)
    decreases |calls|
  {
    calls == [] || ((calls[0].RunTask? ==> calls[0].name in TasksOn(w, calls[0].side))
                    && Runnable(Apply(w, calls[0]), calls[1..]))
  }

  lemma {:induction false} RunnableConcat(w: World, a: seq<Call>, b: seq<Call>)
    requires Runnable(w, a) && Runnable(ApplyAll(w, a), b)
    ensures Runnable(w, a + b)
    decreases |a|
  {
    hide Apply;
    if a == [] {
      assert a + b == b;
    } else {
      RunnableConcat(Apply(w, a[0]), a[1..], b);
      assert (a + b)[1..] == a[1..] + b;
    }
  }

  lemma {:induction false} NothingRun(w: World, calls: seq<Call>)
    requires forall c :: c in calls ==> !c.RunTask?
    ensures Runnable(w, calls)
    decreases |calls|
  {
    hide Apply;
    if calls != [] {
      assert !calls[0].RunTask? && forall c :: c in calls[1..] ==> c in calls;
      NothingRun(Apply(w, calls[0]), calls[1..]);
    }
  }

  lemma {:induction false} RunnableAt(w: World, calls: seq<Call>, j: nat)
    requires Runnable(w, calls) && j < |calls| && calls[j].RunTask?
    ensures calls[j].name in TasksOn(ApplyAll(w, calls[..j]), calls[j].side)
    decreases j
  {
    hide Apply;
    if j > 0 {
      RunnableAt(Apply(w, calls[0]), calls[1..], j - 1);
      assert calls[..j][1..] == calls[1..][..j - 1];
    }
  }

  lemma ForwardRuns(g: Group, w: World)
    ensures Runnable(w, Forward(g, w))
  {
    var f := Forward(g, w);
    if f != [] {
      var w1 := Apply(w, f[0]);
      assert f[1..] == [f[1]] && TaskName(g) in w1.src.tasks;
      assert Runnable(w1, [f[1]]);
    }
  }

  lemma CreateRuns(g: Group, w: World)
    ensures Runnable(w, Create(g, w).calls)
  {
    hide Members, Forward, MembersOwned, Created, ApplyAll, Runnable;
    if MembersOwned(g, w) {
      var m := Members(g, w, g.volumes);
      var w1 := ApplyAll(w, m);
      var f := Forward(g, w1);
      var done := [Save(Created(g, w.stored, ApplyAll(w, m + f)))];
      NothingRun(w, m);
      ForwardRuns(g, w1);
      RunnableConcat(w, m, f);
      NothingRun(ApplyAll(w, m + f), done);
      RunnableConcat(w, m + f, done);
    } else {
      NothingRun(w, []);
    }
  }

  /** How a failback begins: the state, the reverse task unless it is there, its run and its end. */
  function Opening(g: Group, w: World): seq<Call> {
    [Save(w.stored.(phase := FailingBack))]
    + (if ReverseTaskName(g) in w.dst.tasks then [] else [CreateTask(Dest, ReverseTaskName(g))])
    + [RunTask(Dest, ReverseTaskName(g)), DeleteTask(Dest, ReverseTaskName(g))]
  }

  lemma FailbackOpens(g: Group, w: World, force: bool)
    requires Failback(g, w, force).calls != []
    ensures var calls, open := Failback(g, w, force).calls, Opening(g, w);
            open <= calls && forall c :: c in calls[|open|..] ==> !c.CreateTask? && !c.RunTask?
  {
    var started := w.stored.(phase := FailingBack);
    StateAlone(w, started);
    hide SetTransfers, Diverged, Apply, ApplyAll, Writables;
    var w1 := Apply(w, Save(started));
    var open, rest := Opening(g, w), Writables(g.volumes) + Reopened(g, w1, started);
    ReturnedIs(g, w1, started);
    assert Failback(g, w, force).calls == open + rest;
    assert (open + rest)[|open|..] == rest;
  }

  function Reopened(g: Group, w: World, started: State): (r: seq<Call>)
    ensures forall c :: c in r ==> !c.CreateTask? && !c.RunTask?
  {
    var t := SetTransfers(g, ApplyAll(w, Reverse(g, w)), true);
    t.calls + if t.ok then [Save(started.(phase := Ready, suspended := false, marks := map[]))] else []
  }

  lemma ReturnedIs(g: Group, w: World, started: State)
    ensures Returned(g, w, started).calls == Reverse(g, w) + Reopened(g, w, started)
  {
    hide SetTransfers, Reverse, ApplyAll;
  }

  lemma OpeningRuns(g: Group, w: World)
    ensures Runnable(w, Opening(g, w))
  {
    var t, open := ReverseTaskName(g), Opening(g, w);
    var n := |open| - 2;
    var a, b := open[..n], open[n..];
    var w1 := ApplyAll(w, a);
    assert t in w1.dst.tasks by {
      if n == 2 {
        assert a == [a[0]] + [a[1]] && a[1] == CreateTask(Dest, t);
        ApplyAllConcat(w, [a[0]], [a[1]]);
        assert w1 == Apply(ApplyAll(w, [a[0]]), a[1]);
      } else {
        assert a == [a[0]] && a[1..] == [];
        assert w1 == ApplyAll(Apply(w, a[0]), []);
      }
    }
    assert b[0] == RunTask(Dest, t) && b[1..] == [DeleteTask(Dest, t)];
    NothingRun(Apply(w1, b[0]), b[1..]);
    NothingRun(w, a);
    RunnableConcat(w, a, b);
    assert open == a + b;
  }

  lemma FailbackRuns(g: Group, w: World, force: bool)
    ensures Runnable(w, Failback(g, w, force).calls)
  {
    hide Failback, Opening, ApplyAll, Runnable;
    var calls := Failback(g, w, force).calls;
    if calls != [] {
      var open := Opening(g, w);
      FailbackOpens(g, w, force);
      OpeningRuns(g, w);
      NothingRun(ApplyAll(w, open), calls[|open|..]);
      RunnableConcat(w, open, calls[|open|..]);
      assert calls == open + calls[|open|..];
    } else {
      NothingRun(w, calls);
    }
  }

  lemma OthersRunNothing(g: Group, w: World, op: Op)
    requires !op.CreateGroup? && !op.FailbackGroup?
    ensures forall c :: c in ScriptOf(g, w, op).calls ==> !c.RunTask?
  {
    match op
    case DeleteGroup(remove) => hide Untasked, DropDatasets, ForeignTarget, ApplyAll;
    case FailoverGroup(force, cut) => FailoverRunsNothing(g, w, force, cut);
    case StartTest => StartRunsNothing(g, w);
    case StopTest(names) => StopRunsNothing(g, w, names);
    case _ => hide SetTransfers;
  }

  lemma FailoverRunsNothing(g: Group, w: World, force: bool, cut: nat)
    ensures forall c :: c in Failover(g, w, force, cut).calls ==> !c.RunTask?
  {
    hide Stopped, Promoted, Apply, ApplyAll;
  }

  lemma StartRunsNothing(g: Group, w: World)
    ensures forall c :: c in TestFailover(g, w).calls ==> !c.RunTask?
  {
    hide StartWrites;
    if w.stored.test.None? {
      var r := StartWrites(g, w);
      var s := Guarded(ScratchRoot(g), Script(r.calls, r.ok));
      assert forall c :: c in s.calls ==> c in r.calls;
    }
  }

  lemma StopRunsNothing(g: Group, w: World, names: seq<string>)
    ensures forall c :: c in StopTestFailover(g, w, names).calls ==> !c.RunTask?
  {
    hide DropDatasets;
    if w.stored.test.Some? {
      var root := w.stored.test.value.root;
      var d := DropDatasets(w, names + [root]);
      assert forall c :: c in Guarded(root, d).calls ==> c in d.calls;
    }
  }

  /** Whatever operation runs a replication task, forced or not and however far it gets, that task is
      there on that appliance at that moment. */
  lemma RunsExist(g: Group, w: World, s: Step, j: nat)
    requires j < |Landed(g, w, s)| && Landed(g, w, s)[j].RunTask?
    ensures var c := Landed(g, w, s)[j];
            c.name in TasksOn(ApplyAll(w, Landed(g, w, s)[..j]), c.side)
  {
    hide Create, Failback, ApplyAll, Runnable, TasksOn;
    var calls := ScriptOf(g, w, s.op).calls;
    assert Landed(g, w, s)[..j] == calls[..j] && Landed(g, w, s)[j] == calls[j] && calls[j] in calls;
    if !s.op.CreateGroup? && !s.op.FailbackGroup? { OthersRunNothing(g, w, s.op); }
    if s.op.CreateGroup? {
      CreateRuns(g, w);
    } else {
      FailbackRuns(g, w, s.op.force);
    }
    RunnableAt(w, calls, j);
  }

  /** A stream is first run when every member is scheduled and has its baseline, so there is something to
      send. */
  lemma BaselinesBeforeRun(g: Group, w: World, j: nat)
    requires j < |Create(g, w).calls| && Create(g, w).calls[j].RunTask?
    ensures forall v :: v in g.volumes ==> Settled(g, ApplyAll(w, Create(g, w).calls[..j]), v)
  {
    hide Members, MembersOwned, Created, Settled, Apply, ApplyAll;
    var calls, m := Create(g, w).calls, Members(g, w, g.volumes);
    var w1 := ApplyAll(w, m);
    var f := Forward(g, w1);
    assert m + f <= calls;
    assert forall i :: 0 <= i < |m| ==> calls[i] == m[i] && m[i] in m;
    assert calls == m + f + calls[|m| + |f|..];
    assert j == |m| + 1 && calls[..j] == m + [f[0]];
    MembersSettle(g, w, g.volumes);
    ApplyAllConcat(w, m, [f[0]]);
    forall v | v in g.volumes ensures Settled(g, ApplyAll(w1, [f[0]]), v) { TaskSettles(g, w1, f[0].name, v); }
  }

  lemma TaskSettles(g: Group, w: World, n: string, v: ID)
    requires Settled(g, w, v)
    ensures Settled(g, ApplyAll(w, [CreateTask(Source, n)]), v)
  {
    var c := CreateTask(Source, n);
    assert ApplyAll(w, [c]) == Apply(w, c);
  }

  // The order of a failback

  /** A write that lets the source be used, or says that it may be. */
  predicate Reopens(c: Call) {
    || c.SetWritable?
    || ((c.SetTask? || c.SetSnapTask?) && c.on)
    || (c.Save? && c.st.phase != FailingBack)
  }

  lemma {:induction false} StaysGone(w: World, calls: seq<Call>, n: string)
    requires n !in w.dst.tasks && forall c :: c in calls ==> !c.CreateTask? && (c.SetTask? ==> OnSource(c))
    ensures n !in ApplyAll(w, calls).dst.tasks
    decreases |calls|
  {
    if calls != [] {
      assert !calls[0].CreateTask? && forall c :: c in calls[1..] ==> c in calls;
      StaysGone(Apply(w, calls[0]), calls[1..], n);
    }
  }

  lemma OpeningEnds(g: Group, w: World)
    ensures ReverseTaskName(g) !in ApplyAll(w, Opening(g, w)).dst.tasks
  {
    var open := Opening(g, w);
    var n := |open| - 1;
    var last := open[n];
    assert open == open[..n] + [last] && last == DeleteTask(Dest, ReverseTaskName(g));
    ApplyAllConcat(w, open[..n], [last]);
    var u := ApplyAll(w, open[..n]);
    assert ApplyAll(u, [last]) == Apply(u, last);
  }

  lemma OpeningReopensNothing(g: Group, w: World)
    ensures var open := Opening(g, w);
            && |open| > 2 && open[|open| - 2] == RunTask(Dest, ReverseTaskName(g))
            && forall i :: 0 <= i < |open| ==> !Reopens(open[i])
  {
  }

  /** A failback, forced or not and however far it gets, makes the source writable, restarts its stream
      or records it as primary only after the reverse run, and with the reverse task gone. */
  lemma RunsBeforeReopening(g: Group, w: World, s: Step, j: nat)
    requires s.op.FailbackGroup? && j < |Landed(g, w, s)| && Reopens(Landed(g, w, s)[j])
    ensures RunTask(Dest, ReverseTaskName(g)) in Landed(g, w, s)[..j]
    ensures ReverseTaskName(g) !in ApplyAll(w, Landed(g, w, s)[..j]).dst.tasks
  {
    hide Failback, ApplyAll, Reopens;
    var calls := Failback(g, w, s.op.force).calls;
    assert Landed(g, w, s)[..j] == calls[..j] && Landed(g, w, s)[j] == calls[j];
    ReopensLate(g, w, s.op.force, j);
  }

  lemma ReopensLate(g: Group, w: World, force: bool, j: nat)
    requires var calls := Failback(g, w, force).calls; j < |calls| && Reopens(calls[j])
    ensures var calls := Failback(g, w, force).calls;
            && RunTask(Dest, ReverseTaskName(g)) in calls[..j]
            && ReverseTaskName(g) !in ApplyAll(w, calls[..j]).dst.tasks
  {
    hide Failback, ApplyAll, Opening, Reopens;
    var calls, open := Failback(g, w, force).calls, Opening(g, w);
    FailbackOpens(g, w, force);
    OpeningReopensNothing(g, w);
    assert forall i :: 0 <= i < |open| ==> calls[i] == open[i];
    assert calls[..j][|open| - 2] == RunTask(Dest, ReverseTaskName(g));
    var rest := calls[|open|..j];
    assert calls[..j] == open + rest;
    assert forall c :: c in rest ==> c in calls[|open|..];
    OpeningEnds(g, w);
    StaysGone(ApplyAll(w, open), rest, ReverseTaskName(g));
    ApplyAllConcat(w, open, rest);
  }

  // What a rehearsal shows

  /** The run has this volume's clone on record, as a clone of its target's newest snapshot. */
  predicate OnRecord(g: Group, a: Appliance, run: TestRun, v: ID) {
    var latest := Latest(a, Target(g, v));
    && latest.Some? && v.name in run.snapshots && run.snapshots[v.name] == ShortName(latest.value.id)
    && v.name in run.datasets && run.datasets[v.name] == CloneOf(g, v)
  }

  /** Further volumes change nothing about a clone that is there. */
  lemma {:induction false} RehearseKeepsClone(g: Group, w: World, vols: seq<ID>, run: TestRun, v: ID)
    requires OnRecord(g, w.dst, run, v) && CloneOf(g, v) in w.dst.datasets
    ensures var r := Rehearse(g, w, vols, run);
            var w', id := ApplyAll(w, r.calls), CloneOf(g, v);
            && OnRecord(g, w.dst, r.run, v)
            && id in w'.dst.datasets && w'.dst.datasets[id].origin == w.dst.datasets[id].origin
    decreases |vols|
  {
    hide OwnedAt, Latest, ShortName, Clone, Apply, ScratchRoot;
    if vols != [] && Latest(w.dst, Target(g, vols[0])).Some? {
      var latest, id := Latest(w.dst, Target(g, vols[0])).value, CloneOf(g, vols[0]);
      var c := Clone(w, latest, id);
      var w1 := ApplyAll(w, c);
      var run' := run.(datasets := run.datasets[vols[0].name := id],
                       snapshots := run.snapshots[vols[0].name := ShortName(latest.id)]);
      CloneDoes(w, latest, id);
      CloneKeepsLatest(w, latest, id, Target(g, v));
      RehearseKeepsClone(g, w1, vols[1..], run', v);
      ApplyAllConcat(w, c, Rehearse(g, w1, vols[1..], run').calls);
    }
  }

  lemma CloneKeepsLatest(w: World, latest: Snapshot, id: string, target: string)
    ensures Latest(ApplyAll(w, Clone(w, latest, id)).dst, target) == Latest(w.dst, target)
  {
    hide Latest, Apply, ApplyAll, Clone;
    CloneKeepsSnapshots(w, latest, id);
    LatestSame(w.dst, ApplyAll(w, Clone(w, latest, id)).dst, target);
  }

  /** Where the clone's place is taken, what is there stays; where it is free, the clone is of the
      target's newest snapshot. */
  predicate Shows(g: Group, a: Appliance, b: Appliance, v: ID) {
    var id, latest := CloneOf(g, v), Latest(a, Target(g, v));
    && latest.Some? && id in b.datasets
    && b.datasets[id].origin == if id in a.datasets then a.datasets[id].origin else latest.value.id
  }

  lemma {:induction false} RehearseShows(g: Group, w: World, vols: seq<ID>, run: TestRun, i: nat)
    requires Rehearse(g, w, vols, run).ok && i < |vols|
    ensures var r := Rehearse(g, w, vols, run);
            OnRecord(g, w.dst, r.run, vols[i]) && Shows(g, w.dst, ApplyAll(w, r.calls).dst, vols[i])
    decreases |vols|
  {
    hide OwnedAt, Latest, ShortName, Clone, Apply, ScratchRoot;
    var latest, id := Latest(w.dst, Target(g, vols[0])).value, CloneOf(g, vols[0]);
    var c := Clone(w, latest, id);
    var w1 := ApplyAll(w, c);
    var run' := run.(datasets := run.datasets[vols[0].name := id],
                     snapshots := run.snapshots[vols[0].name := ShortName(latest.id)]);
    CloneDoes(w, latest, id);
    CloneKeepsLatest(w, latest, id, Target(g, vols[i]));
    ApplyAllConcat(w, c, Rehearse(g, w1, vols[1..], run').calls);
    if i == 0 || CloneOf(g, vols[i]) == id {
      SameClone(g, vols[0], vols[i]);
      RehearseKeepsClone(g, w1, vols[1..], run', vols[i]);
    } else {
      RehearseShows(g, w1, vols[1..], run', i - 1);
    }
  }

  lemma SameClone(g: Group, u: ID, v: ID)
    requires CloneOf(g, u) == CloneOf(g, v)
    ensures u.name == v.name && Target(g, u) == Target(g, v)
  {
    var n := |ScratchRoot(g) + "/"|;
    assert u.name == CloneOf(g, u)[n..] && v.name == CloneOf(g, v)[n..];
  }

  /** A rehearsal that starts records, for each volume, its own clone and the name of a snapshot than
      which its target lists none newer; where nothing was in the clone's place, it is that snapshot
      which is exposed, and where something was, it stays what it is. */
  lemma RehearsalShows(g: Group, w: World, v: ID)
    requires w.stored.test.None? && TestFailover(g, w).ok && v in g.volumes
    ensures var w' := ApplyAll(w, TestFailover(g, w).calls);
            w'.stored.test.Some? && Exposes(g, w, w', w'.stored.test.value, v)
  {
    hide Latest, ShortName, StartWrites, Apply, ApplyAll, Rehearse, ScratchRoot;
    var i :| 0 <= i < |g.volumes| && g.volumes[i] == v;
    StartShows(g, w, i);
    Started(g, w);
    var r := StartWrites(g, w);
    StartNeverRefused(g, w);
    var st := w.stored.(test := Some(r.run));
    assert TestFailover(g, w).calls == r.calls + [Save(st)];
    SavedLast(w, r.calls, st);
    LatestIsNewest(w.dst, Target(g, v));
    var s := Latest(w.dst, Target(g, v)).value;
    ShortNameIff(s.id, r.run.snapshots[v.name]);
    assert Newest(Listed(w.dst, Target(g, v)), s);
  }

  lemma SavedLast(w: World, calls: seq<Call>, st: State)
    ensures ApplyAll(w, calls + [Save(st)]) == ApplyAll(w, calls).(stored := st)
  {
    ApplyAllConcat(w, calls, [Save(st)]);
    var u := ApplyAll(w, calls);
    assert ApplyAll(u, [Save(st)]) == Apply(u, Save(st));
  }

  lemma StartShows(g: Group, w: World, i: nat)
    requires StartWrites(g, w).ok && i < |g.volumes|
    ensures var r := StartWrites(g, w);
            OnRecord(g, w.dst, r.run, g.volumes[i]) && Shows(g, w.dst, ApplyAll(w, r.calls).dst, g.volumes[i])
  {
    hide Rehearse, Latest;
    var v, c, run := g.volumes[i], Scratch(g, w), TestRun(ScratchRoot(g), map[], map[]);
    var w0 := ApplyAll(w, c);
    ScratchKeeps(g, w);
    LatestSame(w.dst, w0.dst, Target(g, v));
    assert CloneOf(g, v) != ScratchRoot(g) by { assert |CloneOf(g, v)| > |ScratchRoot(g)|; }
    if c != [] { assert w0 == Apply(w, c[0]); }
    RehearseShows(g, w0, g.volumes, run, i);
    ApplyAllConcat(w, c, Rehearse(g, w0, g.volumes, run).calls);
  }

  ghost predicate Exposes(g: Group, w: World, w': World, run: TestRun, v: ID) {
    var id := CloneOf(g, v);
    && v.name in run.datasets && run.datasets[v.name] == id && v.name in run.snapshots && id in w'.dst.datasets
    && exists s :: Newest(Listed(w.dst, Target(g, v)), s) && IsShortName(s.id, run.snapshots[v.name])
         && w'.dst.datasets[id].origin == if id in w.dst.datasets then w.dst.datasets[id].origin else s.id
  }

  /** The record can name a snapshot that is not the one shown: a clone left by a start that stopped is
      kept, and the newest snapshot since then is recorded for it. */
  lemma StaleCloneMisrecorded() returns (g: Group, w: World, v: ID)
    ensures v in g.volumes && w.stored == NEW_STATE && TestFailover(g, w).ok
    ensures var w', id := ApplyAll(w, TestFailover(g, w).calls), CloneOf(g, v);
            && id in w'.dst.datasets && w'.dst.datasets[id].origin == "b/v@s1"
            && w'.stored.test.Some? && v.name in w'.stored.test.value.snapshots
            && w'.stored.test.value.snapshots[v.name] == "s2"
  {
    hide TestFailover, ApplyAll, ShortName, IsShortName, CloneOf;
    v := ID("s", "nfs", "p", "q", "", "v");
    g := Group("g", "s", "p", "q", "b", [v]);
    var listing := [Snapshot("b/v@s1", "s1", 1), Snapshot("b/v@s2", "s2", 2)];
    var nothing := Appliance(map[], map[], map[], map[]);
    var stale := Dataset(map[], false, "b/v@s1");
    var dst := nothing.(datasets := map[CloneOf(g, v) := stale], snapshots := map["b/v" := listing]);
    w := World(nothing, dst, NEW_STATE);
    assert Target(g, v) == "b/v" && Listed(w.dst, "b/v") == listing;
    TestSucceedsIff(g, w);
    assert listing[1].id == "b/v" + "@" + "s2";
    ShortNameOfSnapshot("b/v", "s2");
    ShortNameIff(listing[1].id, "s2");
    RecordIs(g, w, v, listing[1], "s2");
  }

  lemma RecordIs(g: Group, w: World, v: ID, s: Snapshot, n: string)
    requires w.stored.test.None? && TestFailover(g, w).ok && v in g.volumes && IsShortName(s.id, n)
    requires var listing := Listed(w.dst, Target(g, v));
             s in listing && forall t :: t in listing && t != s ==> t.txg < s.txg
    ensures var w', id := ApplyAll(w, TestFailover(g, w).calls), CloneOf(g, v);
            && w'.stored.test.Some? && v.name in w'.stored.test.value.snapshots && id in w'.dst.datasets
            && w'.stored.test.value.snapshots[v.name] == n
            && w'.dst.datasets[id].origin == if id in w.dst.datasets then w.dst.datasets[id].origin else s.id
  {
    hide TestFailover, ApplyAll, ShortName, IsShortName, CloneOf, Listed;
    RehearsalShows(g, w, v);
    var w' := ApplyAll(w, TestFailover(g, w).calls);
    var m := w'.stored.test.value.snapshots[v.name];
    var t :| Newest(Listed(w.dst, Target(g, v)), t) && IsShortName(t.id, m);
    assert s.txg <= t.txg;
    OneShortName(s.id, n, m);
  }

  /** What is recorded is what is shown exactly when the clone's place was free or held a clone of a
      snapshot of that name already. */
  lemma RecordedIsShownIff(g: Group, w: World, v: ID)
    requires w.stored.test.None? && TestFailover(g, w).ok && v in g.volumes
    requires DistinctTxgs(Listed(w.dst, Target(g, v)))
    ensures var w', id := ApplyAll(w, TestFailover(g, w).calls), CloneOf(g, v);
            && w'.stored.test.Some? && v.name in w'.stored.test.value.snapshots && id in w'.dst.datasets
            && (IsShortName(w'.dst.datasets[id].origin, w'.stored.test.value.snapshots[v.name]) <==>
                  id in w.dst.datasets ==>
                    forall s :: Newest(Listed(w.dst, Target(g, v)), s) ==>
                      ShortName(w.dst.datasets[id].origin) == ShortName(s.id))
  {
    hide TestFailover, ApplyAll, ShortName, IsShortName, CloneOf, Listed;
    RehearsalShows(g, w, v);
    var w', id, listing := ApplyAll(w, TestFailover(g, w).calls), CloneOf(g, v), Listed(w.dst, Target(g, v));
    var n := w'.stored.test.value.snapshots[v.name];
    var s :| Newest(listing, s) && IsShortName(s.id, n)
             && w'.dst.datasets[id].origin == if id in w.dst.datasets then w.dst.datasets[id].origin else s.id;
    forall t | Newest(listing, t) ensures t == s { assert t.txg == s.txg; }
    ShortNameIff(s.id, n);
    ShortNameIff(w'.dst.datasets[id].origin, n);
  }

  // Over and back

  /** The source, as it is later, has for this volume one snapshot called `n` and nothing newer, and
      `n` is what the target's newest was called when it was promoted. */
  predicate Level(g: Group, before: World, later: World, v: ID, n: string) {
    && TipIs(Listed(before.dst, Target(g, v)), n)
    && TipIs(Listed(later.src, v.DatasetPath()), n) && NamedOnce(Listed(later.src, v.DatasetPath()), n)
  }

  ghost predicate IsLevel(g: Group, before: World, later: World, v: ID) {
    exists n :: Level(g, before, later, v, n)
  }

  /** No two snapshots of this volume, as listed then on the target and later on the source, are of
      the same moment. */
  predicate Timed(g: Group, before: World, later: World, v: ID) {
    DistinctTxgs(Listed(before.dst, Target(g, v))) && DistinctTxgs(Listed(later.src, v.DatasetPath()))
  }

  lemma LevelIsAtMark(g: Group, before: World, later: World, v: ID)
    requires Marked(g, before, later.stored.marks, v)
    ensures IsLevel(g, before, later, v) ==> AtMark(later, v)
    ensures Timed(g, before, later, v) && AtMark(later, v) ==> IsLevel(g, before, later, v)
  {
    hide ShortName, IsShortName, Latest, NamedOnce, EndsAt, ByTxg, Target, ID.DatasetPath;
    var target, source := Listed(before.dst, Target(g, v)), Listed(later.src, v.DatasetPath());
    var latest, mark := Latest(before.dst, Target(g, v)).value, later.stored.marks[v.name];
    LatestIsNewest(before.dst, Target(g, v));
    ShortNameIff(latest.id, mark);
    if IsLevel(g, before, later, v) {
      var n :| Level(g, before, later, v, n);
      OneShortName(latest.id, n, mark);
      TipEnds(source, mark);
      assert SnapshotsOf(later.src, v.DatasetPath()) == ByTxg(source) by { assert source != []; }
    }
    if Timed(g, before, later, v) && AtMark(later, v) {
      forall s | s in target && Newest(target, s) ensures s == latest { assert s.txg == latest.txg; }
      EmptyNeverEnds(mark);
      assert SnapshotsOf(later.src, v.DatasetPath()) == ByTxg(source) by { assert source != []; }
      EndsAtNewest(source, mark);
      assert Level(g, before, later, v, mark);
    }
  }

  lemma EmptyNeverEnds(mark: string)
    ensures !EndsAt([], mark)
  {
  }

  lemma MemberMarked(g: Group, w: World, later: World, v: ID)
    requires v in g.volumes && Promotable(g, w.dst, v, false)
    requires Marking(g, w, g.volumes, v) ==> Marked(g, w, later.stored.marks, v)
    ensures Marked(g, w, later.stored.marks, v)
  {
    LatestIsNewest(w.dst, Target(g, v));
  }

  /** After a failover that succeeded, at any later time at which its record stands and the source's
      stream is still there, and whatever the target has gained since: an unforced failback goes
      ahead if each volume's newest snapshot on the source, the only one of its name there, is called
      what the newest on the target was called, and, where no two snapshots are of the same moment,
      only if. */
  lemma FailsBackAfter(g: Group, w: World, later: World)
    requires w.stored.phase != FailedOver && Failover(g, w, false, 0).ok
    requires later.stored == ApplyAll(w, Failover(g, w, false, 0).calls).stored && TaskName(g) in later.src.tasks
    ensures (forall v :: v in g.volumes ==> IsLevel(g, w, later, v)) ==>
              Failback(g, later, false).ok && RunTask(Dest, ReverseTaskName(g)) in Failback(g, later, false).calls
    ensures (forall v :: v in g.volumes ==> Timed(g, w, later, v)) && Failback(g, later, false).ok ==>
              forall v :: v in g.volumes ==> IsLevel(g, w, later, v)
  {
    hide Failover, Failback, ApplyAll, AtMark, IsLevel, Timed, Promotable, Marking, Marked, PromotedFrom;
    FailoverAchieves(g, w, false, 0);
    FailoverSucceedsIff(g, w, false, 0);
    FailbackSucceedsIff(g, later, false);
    ReverseOnlyAtMark(g, later);
    forall v | v in g.volumes ensures Marked(g, w, later.stored.marks, v) { MemberMarked(g, w, later, v); }
    forall v | v in g.volumes
      ensures IsLevel(g, w, later, v) ==> AtMark(later, v)
      ensures Timed(g, w, later, v) && AtMark(later, v) ==> IsLevel(g, w, later, v)
    {
      LevelIsAtMark(g, w, later, v);
    }
  }

  /** A group in service: its stream is on, its members are writable and nothing else is going on. */
  predicate InService(g: Group, w: World) {
    && w.stored == State(Ready, false, map[], None) && TaskName(g) in w.src.tasks && w.src.tasks[TaskName(g)]
    && (forall v :: v in g.volumes && SnapTask(g, v) in w.src.snapTasks ==> w.src.snapTasks[SnapTask(g, v)])
    && (forall v :: v in g.volumes && v.DatasetPath() in w.src.datasets ==> !w.src.datasets[v.DatasetPath()].readonly)
  }

  /** A failover and a failback at once, of a group in service whose source is level with its target,
      put the source and the stored state back exactly as they were; on the target the members stay
      writable and free of their origins, and nothing else has changed but that a reverse task left
      from before is gone. */
  lemma OverAndBack(g: Group, w: World)
    requires InService(g, w) && Failover(g, w, false, 0).ok && forall v :: v in g.volumes ==> IsLevel(g, w, w, v)
    ensures var w1 := ApplyAll(w, Failover(g, w, false, 0).calls);
            var w2 := ApplyAll(w1, Failback(g, w1, false).calls);
            && Failback(g, w1, false).ok && w2.src == w.src && w2.stored == w.stored
            && PromotedFrom(w.dst.(tasks := w.dst.tasks - {ReverseTaskName(g)}), w2.dst, TargetSet(g, g.volumes))
  {
    hide Failover, Failback, ApplyAll, IsLevel, Marked, Opened, Streaming, PromotedFrom;
    var w1 := ApplyAll(w, Failover(g, w, false, 0).calls);
    FailoverAchieves(g, w, false, 0);
    forall v | v in g.volumes ensures IsLevel(g, w, w1, v) { LevelSame(g, w, w1, v); }
    assert TaskName(g) in w1.src.tasks by { StreamIsThere(g, w.src, w1.src); }
    FailsBackAfter(g, w, w1);
    FailbackAchieves(g, w1, false);
    var w2 := ApplyAll(w1, Failback(g, w1, false).calls);
    SourceRestored(g, w, w1.src, w2.src);
    assert PromotedFrom(w.dst.(tasks := w.dst.tasks - {ReverseTaskName(g)}), w2.dst, TargetSet(g, g.volumes)) by {
      PromotedSame(w.dst, w1.dst, TargetSet(g, g.volumes), ReverseTaskName(g));
    }
  }

  lemma StreamIsThere(g: Group, a: Appliance, b: Appliance)
    requires Streaming(g, a, b, false)
    ensures TaskName(g) in b.tasks
  {
  }

  lemma PromotedSame(a: Appliance, b: Appliance, targets: set<string>, n: string)
    requires PromotedFrom(a, b, targets)
    ensures PromotedFrom(a.(tasks := a.tasks - {n}), b.(tasks := b.tasks - {n}), targets)
  {
  }

  lemma SourceRestored(g: Group, w: World, b: Appliance, c: Appliance)
    requires InService(g, w) && Streaming(g, w.src, b, false) && Streaming(g, b, c, true)
    requires Opened(b.datasets, c.datasets, g.volumes)
    requires b.datasets == w.src.datasets && b.snapshots == w.src.snapshots == c.snapshots
    ensures c == w.src
  {
    hide ID.DatasetPath, SnapTask;
    assert c.tasks == w.src.tasks;
    assert c.snapTasks == w.src.snapTasks;
    assert c.datasets == w.src.datasets;
  }

  lemma LevelSame(g: Group, w: World, w1: World, v: ID)
    requires IsLevel(g, w, w, v) && w1.src.snapshots == w.src.snapshots
    ensures IsLevel(g, w, w1, v)
  {
    var n :| Level(g, w, w, v, n);
    assert Level(g, w, w1, v, n);
  }

  // Again

  /** A failover, a failback, and the start or stop of a rehearsal, once it has succeeded, is done:
      asked for again, forced or not, it succeeds without a single write. */
  lemma AgainWritesNothing(g: Group, w: World, op: Op, again: Op)
    requires op.FailoverGroup? || op.FailbackGroup? || op.StartTest? || op.StopTest?
    requires match op
             case FailoverGroup(_, _) => again.FailoverGroup?
             case FailbackGroup(_) => again.FailbackGroup?
             case StartTest => again.StartTest?
             case _ => again.StopTest?
    requires ScriptOf(g, w, op).ok
    ensures ScriptOf(g, ApplyAll(w, ScriptOf(g, w, op).calls), again) == Script([], true)
  {
    var w' := ApplyAll(w, ScriptOf(g, w, op).calls);
    match op
    case FailoverGroup(force, cut) =>
      if w.stored.phase != FailedOver { FailoverAchieves(g, w, force, cut); }
    case FailbackGroup(force) =>
      if w.stored.phase !in {Ready, Suspended} { FailbackAchieves(g, w, force); }
    case StartTest =>
      if w.stored.test.None? { Started(g, w); }
    case StopTest(names) =>
      StopClears(g, w, names);
  }

  lemma StopClears(g: Group, w: World, names: seq<string>)
    requires StopTestFailover(g, w, names).ok
    ensures ApplyAll(w, StopTestFailover(g, w, names).calls).stored.test.None?
  {
    hide DropDatasets, Guarded;
    if w.stored.test.Some? {
      var root := w.stored.test.value.root;
      SavedLast(w, Guarded(root, DropDatasets(w, names + [root])).calls, w.stored.(test := None));
    }
  }
}
