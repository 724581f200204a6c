/** The group operations as they run: reading, deciding and writing one call at a time, where any
    call may fail, with or without having taken effect. */
module Manager {
  import Faults
  import opened Wrappers
  import opened Text
  import opened Volume
  import opened Replication
  import opened Scripts
  import opened Outcomes
  import opened Divergence
  import opened Rehearsals

  /** An execution made some first part of its script's writes and nothing else; success means
      all of it, and where no call fails the execution is the script. */
  ghost predicate Follows(before: World, after: World, s: Script, ok: bool, done: seq<Call>, reliable: bool) {
    && done <= s.calls
    && after == ApplyAll(before, done)
    && (ok ==> s.ok && done == s.calls)
    && (reliable ==> ok == s.ok && done == s.calls)
  }

  /** One stretch of a script, made in part or in full. */
  lemma Advance(w0: World, all: seq<Call>, done: seq<Call>, part: seq<Call>, rest: seq<Call>, d: seq<Call>)
    requires all == done + (part + rest) && d <= part
    ensures done + d <= all
    ensures d == part ==> all == (done + d) + rest
    ensures ApplyAll(w0, done + d) == ApplyAll(ApplyAll(w0, done), d)
  {
    ApplyAllConcat(w0, done, d);
    assert part + rest == d + ((part + rest)[|d|..]);
  }

  class GroupManager {
    const g: Group
    const reliable: bool
    var w: World

    constructor (g: Group, w: World, reliable: bool)
      ensures this.g == g && this.w == w && this.reliable == reliable
    {
      this.g := g;
      this.w := w;
      this.reliable := reliable;
    }

    /** A call that writes. A failed one may have landed all the same. */
    method Write(c: Call) returns (ok: bool, ghost landed: seq<Call>)
      modifies this
      ensures w == ApplyAll(old(w), landed) && (landed == [] || landed == [c])
      ensures ok ==> landed == [c]
      ensures reliable ==> ok
    {
      var reached := Faults.Reach(reliable);
      if !reached { return false, []; }
      w := Apply(w, c);
      landed := [c];
      assert ApplyAll(old(w), [c]) == Apply(old(w), c);
      ok := Faults.Reach(reliable);
    }

    method VerifyMembership() returns (ok: bool)
      ensures ok ==> MembersOwned(g, w)
      ensures reliable ==> ok == MembersOwned(g, w)
    {
      hide OwnedAt, Confine, ID.DatasetPath;
      if g.volumes == [] { return false; }
      var seen: set<string> := {};
      for i := 0 to |g.volumes|
        invariant forall k :: 0 <= k < i ==>
                    && g.volumes[k].backend == g.source && Confine(g.volumes[k], g.srcPool, g.srcParent)
                    && OwnedAt(w.src, g.volumes[k].DatasetPath())
        invariant forall n :: n in seen <==> exists k :: 0 <= k < i && g.volumes[k].name == n
        invariant forall j, k :: 0 <= j < k < i ==> g.volumes[j].name != g.volumes[k].name
      {
        var v := g.volumes[i];
        if v.backend != g.source || !Confine(v, g.srcPool, g.srcParent) || v.name in seen { return false; }
        seen := seen + {v.name};
        var reached := Faults.Reach(reliable);
        if !reached || !OwnedAt(w.src, v.DatasetPath()) { return false; }
      }
      return true;
    }

    method SetTransfersNow(on: bool) returns (ok: bool, ghost done: seq<Call>)
      modifies this
      ensures Follows(old(w), w, SetTransfers(g, old(w), on), ok, done, reliable)
    {
      done := [];
      var reached := Faults.Reach(reliable);
      if !reached || TaskName(g) !in w.src.tasks { return false, []; }
      if w.src.tasks[TaskName(g)] != on {
        ok, done := Write(SetTask(TaskName(g), on));
        if !ok { return; }
      }
      ghost var d;
      ok, d := SetSnapTasksNow(on);
      ApplyAllConcat(old(w), done, d);
      done := done + d;
    }

    method SetSnapTasksNow(on: bool) returns (ok: bool, ghost done: seq<Call>)
      modifies this
      ensures Follows(old(w), w, Script(SetSnapTasks(g, old(w), g.volumes, on), true), ok, done, reliable)
    {
      hide Apply, SnapTask;
      done := [];
      ghost var s := SetSnapTasks(g, w, g.volumes, on);
      for i := 0 to |g.volumes|
        invariant w == ApplyAll(old(w), done)
        invariant s == done + SetSnapTasks(g, w, g.volumes[i..], on)
      {
        assert g.volumes[i..][1..] == g.volumes[i + 1..];
        var reached := Faults.Reach(reliable);
        if !reached { return false, done; }
        var k := SnapTask(g, g.volumes[i]);
        if k in w.src.snapTasks && w.src.snapTasks[k] != on {
          ghost var c := SetSnapTask(k, on);
          ghost var rest := SetSnapTasks(g, Apply(w, c), g.volumes[i + 1..], on);
          assert SetSnapTasks(g, w, g.volumes[i..], on) == [c] + rest;
          ghost var landed;
          ok, landed := Write(SetSnapTask(k, on));
          Advance(old(w), s, done, [c], rest, landed);
          done := done + landed;
          if !ok { return; }
          assert w == Apply(ApplyAll(old(w), done[..|done| - 1]), c);
        }
      }
      return true, done;
    }

    /** Saves the state as the last act of an operation whose script ends that way. */
    method Save(st: State, ghost w0: World, ghost before: seq<Call>) returns (ok: bool, ghost done: seq<Call>)
      requires w == ApplyAll(w0, before)
      modifies this
      ensures w == ApplyAll(w0, done) && (done == before || done == before + [Call.Save(st)])
      ensures ok ==> done == before + [Call.Save(st)]
      ensures reliable ==> ok
    {
      ghost var landed;
      ok, landed := Write(Call.Save(st));
      ApplyAllConcat(w0, before, landed);
      done := before + landed;
    }

    method CreateNow() returns (ok: bool, ghost done: seq<Call>)
      modifies this
      ensures Follows(old(w), w, Create(g, old(w)), ok, done, reliable)
    {
      ok := VerifyMembership();
      if !ok { return false, []; }
      var st := w.stored;
      ghost var w0 := w;
      ok, done := CreateTasks();
      if !ok { return; }
      ok, done := Save(Created(g, st, w), w0, done);
    }

    method CreateTasks() returns (ok: bool, ghost done: seq<Call>)
      modifies this
      ensures Follows(old(w), w, Script(Tasks(g, old(w)), true), ok, done, reliable)
    {
      done := [];
      ghost var w0 := w;
      ghost var m := Members(g, w, g.volumes);
      for i := 0 to |g.volumes|
        invariant w == ApplyAll(w0, done)
        invariant m == done + Members(g, w, g.volumes[i..])
      {
        assert g.volumes[i..][1..] == g.volumes[i + 1..];
        ghost var part := Member(g, w, g.volumes[i]);
        ghost var rest := Members(g, ApplyAll(w, part), g.volumes[i + 1..]);
        ghost var d;
        ok, d := CreateMember(g.volumes[i]);
        Advance(w0, m, done, part, rest, d);
        done := done + d;
        if !ok { return; }
      }
      assert m == done;
      ghost var f;
      ok, f := CreateForward();
      ApplyAllConcat(w0, m, f);
      done := m + f;
    }

    method CreateForward() returns (ok: bool, ghost done: seq<Call>)
      modifies this
      ensures Follows(old(w), w, Script(Forward(g, old(w)), true), ok, done, reliable)
    {
      done := [];
      var reached := Faults.Reach(reliable);
      if !reached { return false, []; }
      if TaskName(g) !in w.src.tasks {
        ok, done := Write(CreateTask(Source, TaskName(g)));
        if !ok { return; }
        ghost var landed;
        ok, landed := Write(RunTask(Source, TaskName(g)));
        ApplyAllConcat(old(w), done, landed);
        done := done + landed;
        if !ok { return; }
      }
      return true, done;
    }

    method CreateMember(v: ID) returns (ok: bool, ghost done: seq<Call>)
      modifies this
      ensures Follows(old(w), w, Script(Member(g, old(w), v), true), ok, done, reliable)
    {
      done := [];
      var reached := Faults.Reach(reliable);
      if !reached { return false, []; }
      if SnapTask(g, v) !in w.src.snapTasks {
        ok, done := Write(CreateSnapTask(SnapTask(g, v)));
        if !ok { return; }
      }
      reached := Faults.Reach(reliable);
      if !reached { return false, done; }
      if !HasBaseline(g, SnapshotsOf(w.src, v.DatasetPath())) {
        ghost var landed;
        ok, landed := Write(CreateSnapshot(v.DatasetPath(), Baseline(g)));
        ApplyAllConcat(old(w), done, landed);
        done := done + landed;
        if !ok { return; }
      }
      return true, done;
    }

    // Delete

    method ForeignTargets() returns (ok: bool, foreign: bool)
      ensures ok ==> foreign == ForeignTarget(g, w)
      ensures reliable ==> ok
    {
      for i := 0 to |g.volumes|
        invariant forall k :: 0 <= k < i && Target(g, g.volumes[k]) in w.dst.datasets ==>
                    OwnedAt(w.dst, Target(g, g.volumes[k]))
      {
        var reached := Faults.Reach(reliable);
        if !reached { return false, false; }
        var target := Target(g, g.volumes[i]);
        if target in w.dst.datasets && !OwnedAt(w.dst, target) { return true, true; }
      }
      return true, false;
    }

    method DropTasks() returns (ok: bool, ghost done: seq<Call>)
      modifies this
      ensures Follows(old(w), w, Script(Untasked(g, old(w)), true), ok, done, reliable)
    {
      done := [];
      ghost var w0 := w;
      ghost var s := Untasked(g, w);
      var reached := Faults.Reach(reliable);
      if !reached { return false, []; }
      if TaskName(g) in w.src.tasks {
        ok, done := Write(DeleteTask(Source, TaskName(g)));
        if !ok { return; }
      }
      for i := 0 to |g.volumes|
        invariant w == ApplyAll(w0, done)
        invariant s == done + DropSnapTasks(g, w, g.volumes[i..])
      {
        assert g.volumes[i..][1..] == g.volumes[i + 1..];
        reached := Faults.Reach(reliable);
        if !reached { return false, done; }
        var k := SnapTask(g, g.volumes[i]);
        if k in w.src.snapTasks {
          ghost var landed;
          ok, landed := Write(DeleteSnapTask(k));
          ApplyAllConcat(w0, done, landed);
          done := done + landed;
          if !ok { return; }
        }
      }
      return true, done;
    }

    /** deleteIfOwned for each in turn. */
    method DropAll(ids: seq<string>) returns (ok: bool, ghost done: seq<Call>)
      modifies this
      ensures Follows(old(w), w, DropDatasets(old(w), ids), ok, done, reliable)
    {
      hide Apply, OwnedAt, DropDatasets;
      done := [];
      ghost var w0 := w;
      ghost var s := DropDatasets(w, ids);
      for i := 0 to |ids|
        invariant w == ApplyAll(w0, done)
        invariant s == Script(done + DropDatasets(w, ids[i..]).calls, DropDatasets(w, ids[i..]).ok)
      {
        DropsNext(w, ids, i);
        var reached := Faults.Reach(reliable);
        if !reached { return false, done; }
        if ids[i] in w.dst.datasets {
          if !OwnedAt(w.dst, ids[i]) { return false, done; }
          ghost var rest := DropDatasets(Apply(w, DeleteDataset(ids[i])), ids[i + 1..]);
          ghost var landed;
          ok, landed := Write(DeleteDataset(ids[i]));
          Advance(w0, s.calls, done, [DeleteDataset(ids[i])], rest.calls, landed);
          done := done + landed;
          if !ok { return; }
        }
      }
      DropsNothing(w);
      assert ids[|ids|..] == [];
      return true, done;
    }

    method DeleteNow(remove: bool) returns (ok: bool, ghost done: seq<Call>)
      modifies this
      ensures Follows(old(w), w, Delete(g, old(w), remove), ok, done, reliable)
    {
      done := [];
      ghost var w0 := w;
      var reached := Faults.Reach(reliable);
      if !reached || w.stored.test.Some? { return false, []; }
      if remove {
        var asked, foreign := ForeignTargets();
        if !asked || foreign { return false, []; }
      }
      ok, done := DropTasks();
      if !ok { return; }
      if remove {
        ghost var d;
        ok, d := DropAll(Targets(g));
        ApplyAllConcat(w0, done, d);
        done := done + d;
        if !ok { return; }
      }
      ok, done := Save(NEW_STATE, w0, done);
    }

    // Failover

    method PromoteNow(marks: map<string, string>, force: bool)
      returns (ok: bool, marks': map<string, string>, ghost done: seq<Call>)
      modifies this
      ensures var p := Promote(g, old(w), g.volumes, marks, force);
              && Follows(old(w), w, Script(p.calls, p.ok), ok, done, reliable)
              && (ok ==> marks' == p.marks)
    {
      hide ApplyTo, SnapshotsOf, ShortName, VerifyOwned;
      done := [];
      marks' := marks;
      ghost var w0 := w;
      ghost var p := Promote(g, w, g.volumes, marks, force);
      for i := 0 to |g.volumes|
        invariant w == ApplyAll(w0, done)
        invariant var r := Promote(g, w, g.volumes[i..], marks', force);
                  p.calls == done + r.calls && p.ok == r.ok && p.marks == r.marks
      {
        assert g.volumes[i..][1..] == g.volumes[i + 1..];
        var v := g.volumes[i];
        var target := Target(g, v);
        var reached := Faults.Reach(reliable);
        if !reached || !OwnedAt(w.dst, target) { return false, marks', done; }
        var latest := Latest(w.dst, target);
        if latest.None? && !force { return false, marks', done; }
        if latest.Some? {
          var mark := SnapshotShortName(latest.value.id);
          marks' := marks'[v.name := mark];
        }
        ghost var part := PromoteOne(w, target);
        ghost var rest := Promote(g, ApplyAll(w, part), g.volumes[i + 1..], marks', force);
        ghost var d;
        ok, d := PromoteTarget(target);
        Advance(w0, p.calls, done, part, rest.calls, d);
        done := done + d;
        if !ok { return; }
      }
      return true, marks', done;
    }

    method PromoteTarget(target: string) returns (ok: bool, ghost done: seq<Call>)
      requires target in w.dst.datasets
      modifies this
      ensures Follows(old(w), w, Script(PromoteOne(old(w), target), true), ok, done, reliable)
    {
      var origin := w.dst.datasets[target].origin;
      ok, done := Write(SetWritable(Dest, target));
      if !ok || origin == "" { return; }
      ghost var landed;
      ok, landed := Write(PromoteClone(target));
      ApplyAllConcat(old(w), done, landed);
      done := done + landed;
    }

    method FailoverNow(force: bool) returns (ok: bool, ghost done: seq<Call>, ghost cut: nat)
      modifies this
      ensures Follows(old(w), w, Failover(g, old(w), force, cut), ok, done, reliable)
    {
      done, cut := [], 0;
      var reached := Faults.Reach(reliable);
      if !reached { return false, [], 0; }
      var st := w.stored;
      if st.phase == FailedOver { return true, [], 0; }
      if (st.phase == FailingOver || st.phase == FailingBack) && !force { return false, [], 0; }
      if st.test.Some? && !force { return false, [], 0; }
      st := st.(phase := FailingOver);
      ok, done := Write(Call.Save(st));
      if !ok { return; }
      ghost var r;
      ok, r, cut := Switch(st, force);
      ApplyAllConcat(old(w), [Call.Save(st)], r);
      done := [Call.Save(st)] + r;
    }

    method Switch(started: State, force: bool) returns (ok: bool, ghost done: seq<Call>, ghost cut: nat)
      requires Locked(started)
      modifies this
      ensures Follows(old(w), w, Switched(g, old(w), started, force, cut), ok, done, reliable)
    {
      hide Apply, SetTransfers, Promoted;
      ok, done := SetTransfersNow(false);
      cut := |done|;
      if !ok && !force { return; }
      ghost var t := done;
      assert t == Stopped(g, old(w), force, cut).calls;
      ghost var p;
      ok, p := FinishFailover(started, force);
      ApplyAllConcat(old(w), t, p);
      done := t + p;
    }

    method FinishFailover(started: State, force: bool) returns (ok: bool, ghost done: seq<Call>)
      requires Locked(started)
      modifies this
      ensures Follows(old(w), w, Promoted(g, old(w), started, force), ok, done, reliable)
    {
      var marks;
      ok, marks, done := PromoteNow(started.marks, force);
      if !ok { return; }
      ok, done := Save(started.(phase := FailedOver, marks := marks), old(w), done);
    }

    // Failback

    method DivergenceNow() returns (ok: bool, out: map<string, seq<string>>)
      ensures ok ==> out == Report(w, g.volumes)
      ensures reliable ==> ok
    {
      out := map[];
      for i := 0 to |g.volumes|
        invariant out == Report(w, g.volumes[..i])
      {
        assert g.volumes[..i + 1][..i] == g.volumes[..i];
        var v := g.volumes[i];
        var gained;
        ok, gained := GainedNow(v);
        if !ok { return; }
        if gained != [] {
          var was := if v.name in out then out[v.name] else [];
          out := out[v.name := was + gained];
        }
      }
      assert g.volumes[..|g.volumes|] == g.volumes;
      return true, out;
    }

    method GainedNow(v: ID) returns (ok: bool, gained: seq<string>)
      ensures ok ==> gained == Gained(w, v)
      ensures reliable ==> ok
    {
      if v.name !in w.stored.marks { return true, ["no common snapshot was recorded at failover"]; }
      ok := Faults.Reach(reliable);
      if !ok { return false, []; }
      var mark := w.stored.marks[v.name];
      var snaps := SnapshotsOf(w.src, v.DatasetPath());
      gained := GainedSince(snaps, mark);
    }

    method FailbackNow(force: bool) returns (ok: bool, ghost done: seq<Call>)
      modifies this
      ensures Follows(old(w), w, Failback(g, old(w), force), ok, done, reliable)
    {
      done := [];
      var reached := Faults.Reach(reliable);
      if !reached { return false, []; }
      var st := w.stored;
      match st.phase {
        case Ready => return true, [];
        case Suspended => return true, [];
        case FailingBack => if !force { return false, []; }
        case FailedOver =>
        case _ => return false, [];
      }
      if st.test.Some? && !force { return false, []; }
      var asked, diverged := DivergenceNow();
      ReportExact(g, w);
      if !asked || (diverged != map[] && !force) { return false, []; }
      ok, done := StartFailback(st.(phase := FailingBack));
    }

    method StartFailback(started: State) returns (ok: bool, ghost done: seq<Call>)
      modifies this
      ensures var r := Returned(g, Apply(old(w), Call.Save(started)), started);
              Follows(old(w), w, Script([Call.Save(started)] + r.calls, r.ok), ok, done, reliable)
    {
      ok, done := Write(Call.Save(started));
      if !ok { return; }
      ghost var r;
      ok, r := FinishFailback(started);
      ApplyAllConcat(old(w), done, r);
      done := done + r;
    }

    method FinishFailback(started: State) returns (ok: bool, ghost done: seq<Call>)
      modifies this
      ensures Follows(old(w), w, Returned(g, old(w), started), ok, done, reliable)
    {
      ok, done := ReverseNow();
      if !ok { return; }
      ghost var t;
      ok, t := SetTransfersNow(true);
      ApplyAllConcat(old(w), done, t);
      done := done + t;
      if !ok { return; }
      ok, done := Save(started.(phase := Ready, suspended := false, marks := map[]), old(w), done);
    }

    method ReverseNow() returns (ok: bool, ghost done: seq<Call>)
      modifies this
      ensures Follows(old(w), w, Script(Reverse(g, old(w)), true), ok, done, reliable)
    {
      hide ApplyTo, Writables;
      done := [];
      ghost var w0 := w;
      ghost var s := Reverse(g, w);
      var name := ReverseTaskName(g);
      var reached := Faults.Reach(reliable);
      if !reached { return false, []; }
      if name !in w.dst.tasks {
        ok, done := Write(CreateTask(Dest, name));
        if !ok { return; }
      }
      ghost var landed;
      ok, landed := Write(RunTask(Dest, name));
      ApplyAllConcat(w0, done, landed);
      done := done + landed;
      if !ok { return; }
      ok, landed := Write(DeleteTask(Dest, name));
      ApplyAllConcat(w0, done, landed);
      done := done + landed;
      if !ok { return; }
      ghost var d;
      ok, d := WritableNow();
      Advance(w0, s, done, Writables(g.volumes), [], d);
      done := done + d;
    }

    method WritableNow() returns (ok: bool, ghost done: seq<Call>)
      modifies this
      ensures Follows(old(w), w, Script(Writables(g.volumes), true), ok, done, reliable)
    {
      hide Apply;
      done := [];
      for i := 0 to |g.volumes|
        invariant w == ApplyAll(old(w), done)
        invariant Writables(g.volumes) == done + Writables(g.volumes[i..])
      {
        assert g.volumes[i..][1..] == g.volumes[i + 1..];
        ghost var landed;
        ok, landed := Write(SetWritable(Source, g.volumes[i].DatasetPath()));
        ApplyAllConcat(old(w), done, landed);
        done := done + landed;
        if !ok { return; }
      }
      return true, done;
    }

    // Suspend and Resume

    method SetSuspendedNow(suspended: bool) returns (ok: bool, ghost done: seq<Call>)
      modifies this
      ensures Follows(old(w), w, SetSuspended(g, old(w), suspended), ok, done, reliable)
    {
      var reached := Faults.Reach(reliable);
      if !reached || w.stored.phase == FailedOver || w.stored.phase == FailingOver { return false, []; }
      var st := w.stored;
      ok, done := SetTransfersNow(!suspended);
      if !ok { return; }
      ok, done := Save(st.(suspended := suspended, phase := if suspended then Suspended else Ready), old(w), done);
    }

    // Test failover

    /** A write through the scratch guard: a call it does not permit never leaves the driver. */
    method GuardedWrite(prefix: string, c: Call) returns (ok: bool, ghost landed: seq<Call>)
      modifies this
      ensures w == ApplyAll(old(w), landed) && (landed == [] || landed == [c])
      ensures ok ==> landed == [c] && Permit(prefix, c)
      ensures landed != [] ==> Permit(prefix, c)
      ensures reliable ==> ok == Permit(prefix, c)
    {
      if !Permit(prefix, c) { return false, []; }
      ok, landed := Write(c);
    }

    method TestFailoverNow() returns (ok: bool, ghost done: seq<Call>)
      modifies this
      ensures Follows(old(w), w, TestFailover(g, old(w)), ok, done, reliable)
    {
      var reached := Faults.Reach(reliable);
      if !reached { return false, []; }
      if w.stored.test.Some? { return true, []; }
      var st := w.stored;
      var run;
      ok, run, done := StartNow();
      if !ok { return; }
      ok, done := Save(st.(test := Some(run)), old(w), done);
    }

    method StartNow() returns (ok: bool, run: TestRun, ghost done: seq<Call>)
      modifies this
      ensures var r := StartWrites(g, old(w));
              && Follows(old(w), w, Guarded(ScratchRoot(g), Script(r.calls, r.ok)), ok, done, reliable)
              && (ok ==> run == r.run)
    {
      done := [];
      var root := ScratchRoot(g);
      run := TestRun(root, map[], map[]);
      ghost var w0 := w;
      ghost var s := StartWrites(g, w);
      StartNeverRefused(g, w);
      var reached := Faults.Reach(reliable);
      if !reached { return false, run, []; }
      if root !in w.dst.datasets {
        ok, done := GuardedWrite(root, CreateDataset(root));
        if !ok { return; }
      }
      for i := 0 to |g.volumes|
        invariant w == ApplyAll(w0, done)
        invariant var r := Rehearse(g, w, g.volumes[i..], run);
                  s.calls == done + r.calls && s.ok == r.ok && s.run == r.run
      {
        assert g.volumes[i..][1..] == g.volumes[i + 1..];
        var v := g.volumes[i];
        reached := Faults.Reach(reliable);
        if !reached { return false, run, done; }
        var latest := Latest(w.dst, Target(g, v));
        if latest.None? { return false, run, done; }
        var id := root + "/" + v.name;
        var short := SnapshotShortName(latest.value.id);
        run := run.(datasets := run.datasets[v.name := id], snapshots := run.snapshots[v.name := short]);
        ghost var part := Clone(w, latest.value, id);
        ghost var rest := Rehearse(g, ApplyAll(w, part), g.volumes[i + 1..], run);
        ghost var d;
        ok, d := CloneNow(latest.value, id);
        Advance(w0, s.calls, done, part, rest.calls, d);
        done := done + d;
        if !ok { return; }
      }
      return true, run, done;
    }

    method CloneNow(latest: Snapshot, id: string) returns (ok: bool, ghost done: seq<Call>)
      requires ScratchRoot(g) + "/" <= id
      modifies this
      ensures Follows(old(w), w, Script(Clone(old(w), latest, id), true), ok, done, reliable)
    {
      done := [];
      var reached := Faults.Reach(reliable);
      if !reached { return false, []; }
      if id !in w.dst.datasets {
        ok, done := GuardedWrite(ScratchRoot(g), CloneSnapshot(latest.id, id));
        if !ok { return; }
      }
      ghost var landed;
      ok, landed := GuardedWrite(ScratchRoot(g), Stamp(id));
      ApplyAllConcat(old(w), done, landed);
      done := done + landed;
    }

    method StopTestFailoverNow() returns (ok: bool, ghost done: seq<Call>, names: seq<string>)
      modifies this
      ensures Follows(old(w), w, StopTestFailover(g, old(w), names), ok, done, reliable)
      ensures old(w).stored.test.Some? ==>
                Lists(names, old(w).stored.test.value.datasets) && SortedStrings(names)
    {
      done, names := [], [];
      var st := w.stored;
      if st.test.Some? { names := SortedValues(st.test.value.datasets); }
      var reached := Faults.Reach(reliable);
      if !reached { return false, [], names; }
      if st.test.None? { return true, [], names; }
      var root := st.test.value.root;
      DropGuardedIs(root, w, names + [root]);
      ok, done := GuardedDrop(root, names + [root]);
      if !ok { return; }
      ok, done := Save(st.(test := None), old(w), done);
    }

    /** deleteIfOwned through the guard, for one dataset. */
    method DropOne(prefix: string, id: string) returns (ok: bool, ghost done: seq<Call>)
      modifies this
      ensures Follows(old(w), w, DropGuarded(prefix, old(w), [id]), ok, done, reliable)
    {
      done := [];
      var reached := Faults.Reach(reliable);
      if !reached { return false, []; }
      if id !in w.dst.datasets { return true, []; }
      if !OwnedAt(w.dst, id) { return false, []; }
      ok, done := GuardedWrite(prefix, DeleteDataset(id));
    }

    method GuardedDrop(prefix: string, ids: seq<string>) returns (ok: bool, ghost done: seq<Call>)
      modifies this
      ensures Follows(old(w), w, DropGuarded(prefix, old(w), ids), ok, done, reliable)
    {
      done := [];
      ghost var s := DropGuarded(prefix, w, ids);
      for i := 0 to |ids|
        invariant w == ApplyAll(old(w), done)
        invariant s == Script(done + DropGuarded(prefix, w, ids[i..]).calls, DropGuarded(prefix, w, ids[i..]).ok)
      {
        assert ids[i..] == [ids[i]] + ids[i + 1..];
        ghost var one := DropGuarded(prefix, w, [ids[i]]);
        ghost var rest :=
          if one.ok then DropGuarded(prefix, ApplyAll(w, one.calls), ids[i + 1..]) else Script([], false);
        DropGuardedSplit(prefix, w, ids[i], ids[i + 1..]);
        ghost var d;
        ok, d := DropOne(prefix, ids[i]);
        Advance(old(w), s.calls, done, one.calls, rest.calls, d);
        done := done + d;
        if !ok { return; }
      }
      return true, done;
    }
  }

  lemma DropsNothing(w: World)
    ensures DropDatasets(w, []) == Script([], true)
  {
  }

  /** What is left to drop at `i`. */
  lemma DropsNext(w: World, ids: seq<string>, i: nat)
    requires i < |ids|
    ensures var c := DeleteDataset(ids[i]);
            var rest := DropDatasets(Apply(w, c), ids[i + 1..]);
            DropDatasets(w, ids[i..]) ==
            if ids[i] !in w.dst.datasets then DropDatasets(w, ids[i + 1..])
            else if !OwnedAt(w.dst, ids[i]) then Script([], false)
            else Script([c] + rest.calls, rest.ok)
    ensures ApplyAll(w, [DeleteDataset(ids[i])]) == Apply(w, DeleteDataset(ids[i]))
  {
    assert ids[i..][1..] == ids[i + 1..];
  }

  lemma DropGuardedSplit(prefix: string, w: World, id: string, ids: seq<string>)
    ensures var one := DropGuarded(prefix, w, [id]);
            var all := DropGuarded(prefix, w, [id] + ids);
            if one.ok
            then var rest := DropGuarded(prefix, ApplyAll(w, one.calls), ids);
                 all == Script(one.calls + rest.calls, rest.ok)
            else all == one
  {
    assert ([id] + ids)[1..] == ids;
    assert [id][1..] == [];
  }

  /** Dropping a list through the guard, one at a time. */
  function DropGuarded(prefix: string, w: World, ids: seq<string>): Script
    decreases |ids|
  {
    if ids == [] then Script([], true)
    else if ids[0] !in w.dst.datasets then DropGuarded(prefix, w, ids[1..])
    else
      var c := DeleteDataset(ids[0]);
      if !OwnedAt(w.dst, ids[0]) || !Permit(prefix, c) then Script([], false)
      else
        var rest := DropGuarded(prefix, Apply(w, c), ids[1..]);
        Script([c] + rest.calls, rest.ok)
  }

  lemma {:induction false} DropGuardedIs(prefix: string, w: World, ids: seq<string>)
    ensures DropGuarded(prefix, w, ids) == Guarded(prefix, DropDatasets(w, ids))
    decreases |ids|
  {
    if ids != [] {
      if ids[0] !in w.dst.datasets {
        DropGuardedIs(prefix, w, ids[1..]);
      } else if OwnedAt(w.dst, ids[0]) {
        var c := DeleteDataset(ids[0]);
        DropGuardedIs(prefix, Apply(w, c), ids[1..]);
        assert DropDatasets(w, ids).calls[1..] == DropDatasets(Apply(w, c), ids[1..]).calls;
      }
    }
  }

  /** What follows the last '@'. */
  method SnapshotShortName(id: string) returns (n: string)
    ensures IsShortName(id, n) && n == ShortName(id)
  {
    for i := |id| downto 0
      invariant '@' !in id[i..]
    {
      if id[i] == '@' {
        ShortNameIff(id, id[i + 1..]);
        return id[i + 1..];
      }
      assert id[i..] == [id[i]] + id[i + 1..];
    }
    assert id[0..] == id;
    ShortNameIff(id, id);
    n := id;
  }

  method GainedSince(snaps: seq<Snapshot>, mark: string) returns (gained: seq<string>)
    ensures gained == GainedAfter(snaps, mark)
  {
    hide ShortName, IsShortName;
    var idx := 0;
    while idx < |snaps|
      invariant 0 <= idx <= |snaps|
      invariant GainedAfter(snaps, mark) == GainedAfter(snaps[idx..], mark)
    {
      assert snaps[idx..][1..] == snaps[idx + 1..];
      var short := SnapshotShortName(snaps[idx].id);
      if short == mark { break; }
      idx := idx + 1;
    }
    if idx == |snaps| { return ["the common snapshot is gone from the source"]; }
    gained := [];
    for i := idx + 1 to |snaps|
      invariant ShortNames(snaps[idx + 1..]) == gained + ShortNames(snaps[i..])
    {
      assert snaps[i..][1..] == snaps[i + 1..];
      var short := SnapshotShortName(snaps[i].id);
      gained := gained + [short];
    }
  }

  method SortedValues(m: map<string, string>) returns (names: seq<string>)
    ensures Lists(names, m) && SortedStrings(names)
  {
    names := [];
    var keys := m.Keys;
    while keys != {}
      invariant keys <= m.Keys && SortedStrings(names)
      invariant forall k :: k in m && k !in keys ==> m[k] in names
      invariant forall x :: x in names ==> x in m.Values
    {
      var k :| k in keys;
      var bigger := Insert(m[k], names);
      InsertSorts(m[k], names);
      forall x ensures x in bigger <==> x in names || x == m[k] {
        assert x in multiset(bigger) <==> x in multiset(names) + multiset{m[k]};
      }
      names := bigger;
      keys := keys - {k};
    }
  }
}
