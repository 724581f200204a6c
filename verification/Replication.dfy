/** The state a protection group's operations work on: two appliances and the stored record. */
module Replication {
  import opened Wrappers
  import opened Text
  import opened Volume

  datatype Phase = Unknown | Ready | Suspended | FailingOver | FailedOver | FailingBack

  /** The scratch clones a running test failover has exposed. */
  datatype TestRun = TestRun(root: string, datasets: map<string, string>, snapshots: map<string, string>)

  datatype State = State(phase: Phase, suspended: bool, marks: map<string, string>, test: Option<TestRun>)

  const NEW_STATE := State(Unknown, false, map[], None)

  datatype Dataset = Dataset(props: map<string, Property>, readonly: bool, origin: string)

  datatype Snapshot = Snapshot(id: string, name: string, txg: int)

  /** One appliance: datasets, each dataset's snapshots in listing order, replication tasks by
      name and periodic snapshot tasks by dataset and naming schema, each with its enabled flag. */
  datatype Appliance = Appliance(datasets: map<string, Dataset>,
                                 snapshots: map<string, seq<Snapshot>>,
                                 tasks: map<string, bool>,
                                 snapTasks: map<(string, string), bool>)

  datatype World = World(src: Appliance, dst: Appliance, stored: State)

  datatype Group = Group(name: string, source: string, srcPool: string, srcParent: string,
                         dstRoot: string, volumes: seq<ID>)

  function TaskName(g: Group): string { "csi-" + g.name }

  function ReverseTaskName(g: Group): string { "csi-" + g.name + "-failback" }

  function Schema(g: Group): string { "csi-" + g.name + "-%Y-%m-%d_%H-%M" }

  function Baseline(g: Group): string { "csi-" + g.name + "-baseline" }

  function ScratchRoot(g: Group): string { g.dstRoot + "/csi-testfailover-" + g.name }

  function Target(g: Group, v: ID): string { g.dstRoot + "/" + v.name }

  function SnapTask(g: Group, v: ID): (string, string) { (v.DatasetPath(), Schema(g)) }

  // Snapshot queries

  function ShortName(id: string): string
  {
    if id == "" then ""
    else if id[|id| - 1] == '@' then ""
    else if '@' in id then ShortName(id[..|id| - 1]) + [id[|id| - 1]]
    else id
  }

  /** `n` is what follows the last '@' of `id`, or all of it when there is none. */
  predicate IsShortName(id: string, n: string) {
    '@' !in n && (id == n || exists k :: 0 <= k < |id| && id[k] == '@' && id[k + 1..] == n)
  }

  lemma ShortNameIff(id: string, n: string)
    ensures ShortName(id) == n <==> IsShortName(id, n)
  {
    ShortNameIs(id);
    if IsShortName(id, n) { OneShortName(id, n, ShortName(id)); }
  }

  lemma {:induction false} ShortNameIs(id: string)
    ensures IsShortName(id, ShortName(id))
  {
    if id == "" {
    } else if id[|id| - 1] == '@' {
      assert id[|id| - 1 + 1..] == "";
    } else if '@' in id {
      var init, last := id[..|id| - 1], id[|id| - 1];
      assert id == init + [last];
      ShortNameIs(init);
      var k :| 0 <= k < |init| && init[k] == '@' && init[k + 1..] == ShortName(init);
      assert id[k + 1..] == init[k + 1..] + [last];
    }
  }

  lemma OneShortName(id: string, a: string, b: string)
    requires IsShortName(id, a) && IsShortName(id, b)
    ensures a == b
  {
    if '@' in id {
      var i :| 0 <= i < |id| && id[i] == '@' && id[i + 1..] == a;
      var j :| 0 <= j < |id| && id[j] == '@' && id[j + 1..] == b;
      LastAt(id, i, j);
      LastAt(id, j, i);
    }
  }

  lemma LastAt(id: string, i: nat, j: nat)
    requires i < |id| && j < |id| && id[j] == '@' && '@' !in id[i + 1..]
    ensures j <= i
  {
    assert forall k :: i < k < |id| ==> id[k] == id[i + 1..][k - i - 1];
  }

  /** A snapshot of `dataset` called `n`, on whichever appliance, has the short name `n`. */
  lemma ShortNameOfSnapshot(dataset: string, n: string)
    requires '@' !in n
    ensures ShortName(dataset + "@" + n) == n && ShortName(n) == n
  {
    var id := dataset + "@" + n;
    assert id[|dataset|] == '@' && id[|dataset| + 1..] == n;
    ShortNameIff(id, n);
    ShortNameIff(n, n);
  }

  ghost predicate OrderedByTxg(s: seq<Snapshot>) {
    forall i, j :: 0 <= i < j < |s| ==> s[i].txg <= s[j].txg
  }

  function InsertByTxg(x: Snapshot, s: seq<Snapshot>): (r: seq<Snapshot>)
    ensures forall i :: 0 <= i < |r| ==> r[i] == x || r[i] in s
  {
    if s == [] || x.txg <= s[0].txg then [x] + s else [s[0]] + InsertByTxg(x, s[1..])
  }

  lemma {:induction false} InsertOrdered(x: Snapshot, s: seq<Snapshot>)
    requires OrderedByTxg(s)
    ensures OrderedByTxg(InsertByTxg(x, s))
    ensures multiset(InsertByTxg(x, s)) == multiset(s) + multiset{x}
  {
    InsertCounts(x, s);
    if s != [] && x.txg > s[0].txg {
      var rest := InsertByTxg(x, s[1..]);
      InsertOrdered(x, s[1..]);
      HeadOrdered(s[0], rest);
    }
  }

  lemma HeadOrdered(x: Snapshot, s: seq<Snapshot>)
    requires OrderedByTxg(s) && forall i :: 0 <= i < |s| ==> x.txg <= s[i].txg
    ensures OrderedByTxg([x] + s)
  {
  }

  lemma {:induction false} InsertCounts(x: Snapshot, s: seq<Snapshot>)
    ensures multiset(InsertByTxg(x, s)) == multiset(s) + multiset{x}
  {
    if s != [] && x.txg > s[0].txg {
      InsertCounts(x, s[1..]);
      assert s == [s[0]] + s[1..];
    }
  }

  /** A listing, oldest first. */
  function ByTxg(s: seq<Snapshot>): (r: seq<Snapshot>)
    ensures OrderedByTxg(r) && multiset(r) == multiset(s)
  {
    if s == [] then []
    else
      assert s == [s[0]] + s[1..];
      InsertOrdered(s[0], ByTxg(s[1..]));
      InsertByTxg(s[0], ByTxg(s[1..]))
  }

  function SnapshotsOf(a: Appliance, dataset: string): seq<Snapshot> {
    if dataset in a.snapshots then ByTxg(a.snapshots[dataset]) else []
  }

  function Latest(a: Appliance, dataset: string): Option<Snapshot> {
    var s := SnapshotsOf(a, dataset);
    if s == [] then None else Some(s[|s| - 1])
  }

  /** `s` is on the list and nothing on it is newer. */
  predicate Newest(listing: seq<Snapshot>, s: Snapshot) {
    s in listing && forall t :: t in listing ==> t.txg <= s.txg
  }

  /** What the appliance lists of a dataset's snapshots, in whatever order. */
  function Listed(a: Appliance, dataset: string): seq<Snapshot> {
    if dataset in a.snapshots then a.snapshots[dataset] else []
  }

  lemma SameMembers(listing: seq<Snapshot>)
    ensures forall s :: s in listing <==> s in ByTxg(listing)
  {
    forall s ensures s in listing <==> s in ByTxg(listing) {
      assert s in multiset(listing) <==> s in multiset(ByTxg(listing));
    }
  }

  lemma LastIsNewest(listing: seq<Snapshot>)
    requires listing != []
    ensures ByTxg(listing) != [] && Newest(listing, ByTxg(listing)[|ByTxg(listing)| - 1])
  {
    var r := ByTxg(listing);
    SameMembers(listing);
    assert listing[0] in r;
    forall t | t in listing ensures t.txg <= r[|r| - 1].txg { var k :| 0 <= k < |r| && r[k] == t; }
  }

  /** There is a latest snapshot exactly when there is any, and nothing listed is newer. */
  lemma LatestIsNewest(a: Appliance, dataset: string)
    ensures Latest(a, dataset).Some? <==> Listed(a, dataset) != []
    ensures Latest(a, dataset).Some? ==> Newest(Listed(a, dataset), Latest(a, dataset).value)
  {
    hide ByTxg, Newest;
    if Listed(a, dataset) != [] { LastIsNewest(Listed(a, dataset)); }
  }

  predicate HasBaseline(g: Group, s: seq<Snapshot>) {
    exists i :: 0 <= i < |s| && (s[i].name == Baseline(g) || ShortName(s[i].id) == Baseline(g))
  }

  predicate OwnedAt(a: Appliance, id: string) {
    id in a.datasets && VerifyOwned(id, a.datasets[id].props)
  }

  // Writes

  datatype Side = Source | Dest

  /** Every write an operation can make, on either appliance or in the store, and `Drift`, which
      is whatever happens to data outside the driver: pods writing, schedules, transfers. */
  datatype Call =
    | Save(st: State)
    | CreateSnapTask(key: (string, string))
    | SetSnapTask(key: (string, string), on: bool)
    | DeleteSnapTask(key: (string, string))
    | CreateTask(side: Side, name: string)
    | SetTask(name: string, on: bool)
    | DeleteTask(side: Side, name: string)
    | RunTask(side: Side, name: string)
    | CreateSnapshot(id: string, name: string)
    | SetWritable(side: Side, id: string)
    | PromoteClone(id: string)
    | CreateDataset(id: string)
    | CloneSnapshot(snapshot: string, id: string)
    | Stamp(id: string)
    | DeleteDataset(id: string)
    | Drift(src: Appliance, dst: Appliance)

  function Update(a: Appliance, id: string, d: Dataset): Appliance {
    a.(datasets := a.datasets[id := d])
  }

  function ApplyTo(a: Appliance, c: Call): Appliance {
    match c
    case CreateSnapTask(k) => a.(snapTasks := a.snapTasks[k := true])
    case SetSnapTask(k, on) => if k in a.snapTasks then a.(snapTasks := a.snapTasks[k := on]) else a
    case DeleteSnapTask(k) => a.(snapTasks := a.snapTasks - {k})
    case CreateTask(_, n) => a.(tasks := a.tasks[n := true])
    case SetTask(n, on) => if n in a.tasks then a.(tasks := a.tasks[n := on]) else a
    case DeleteTask(_, n) => a.(tasks := a.tasks - {n})
    case CreateSnapshot(id, n) =>
      var prior := if id in a.snapshots then a.snapshots[id] else [];
      a.(snapshots := a.snapshots[id := prior + [Snapshot(id + "@" + n, n, NextTxg(prior))]])
    case SetWritable(_, id) =>
      if id in a.datasets then Update(a, id, a.datasets[id].(readonly := false)) else a
    case PromoteClone(id) =>
      if id in a.datasets then Update(a, id, a.datasets[id].(origin := "")) else a
    case CreateDataset(id) => Update(a, id, Dataset(Stamped(map[], id), false, ""))
    case CloneSnapshot(s, id) => Update(a, id, Dataset(map[], false, s))
    case Stamp(id) =>
      if id in a.datasets then Update(a, id, a.datasets[id].(props := Stamped(a.datasets[id].props, id))) else a
    case DeleteDataset(id) =>
      // pool.dataset.delete is recursive here: everything beneath goes as well
      a.(datasets := map d | d in a.datasets && !AtOrUnder(d, id) :: a.datasets[d],
         snapshots := map d | d in a.snapshots && !AtOrUnder(d, id) :: a.snapshots[d])
    case _ => a
  }

  /** Transaction groups only ever increase. */
  function NextTxg(s: seq<Snapshot>): (t: int)
    ensures forall i :: 0 <= i < |s| ==> s[i].txg < t
  {
    if s == [] then 1
    else
      var t := NextTxg(s[..|s| - 1]);
      if s[|s| - 1].txg < t then t else s[|s| - 1].txg + 1
  }

  predicate OnSource(c: Call) {
    c.CreateSnapTask? || c.SetSnapTask? || c.DeleteSnapTask? || c.SetTask? || c.CreateSnapshot? ||
    ((c.CreateTask? || c.DeleteTask? || c.RunTask? || c.SetWritable?) && c.side == Source)
  }

  function Apply(w: World, c: Call): World {
    match c
    case Save(st) => w.(stored := st)
    case Drift(s, d) =>
      w.(src := w.src.(datasets := s.datasets, snapshots := s.snapshots),
         dst := w.dst.(datasets := d.datasets, snapshots := d.snapshots))
    case _ => if OnSource(c) then w.(src := ApplyTo(w.src, c)) else w.(dst := ApplyTo(w.dst, c))
  }

  function ApplyAll(w: World, calls: seq<Call>): World
    decreases |calls|
  {
    if calls == [] then w else ApplyAll(Apply(w, calls[0]), calls[1..])
  }

  lemma {:induction false} ApplyAllConcat(w: World, a: seq<Call>, b: seq<Call>)
    ensures ApplyAll(w, a + b) == ApplyAll(ApplyAll(w, a), b)
    decreases |a|
  {
    if a == [] {
      assert a + b == b;
    } else {
      ApplyAllConcat(Apply(w, a[0]), a[1..], b);
      assert (a + b)[1..] == a[1..] + b;
    }
  }
}

/** Each operation as the writes it makes, in order, when every call succeeds. */
module Scripts {
  import opened Wrappers
  import opened Text
  import opened Volume
  import opened Replication

  /** `ok` is false when the operation refuses after these writes. */
  datatype Script = Script(calls: seq<Call>, ok: bool)

  /** A failover has begun and has not been answered by a failback. */
  predicate Locked(st: State) {
    st.phase == FailingOver || st.phase == FailedOver
  }

  predicate IsPromotion(c: Call) {
    c.SetWritable? && c.side == Dest
  }

  /** No write of these promotes anything, and none of them takes the stored phase into or out
      of a failover. */
  predicate LeavesFailover(st: State, calls: seq<Call>) {
    forall c :: c in calls ==>
      && !IsPromotion(c)
      && (c.Save? ==> c.st.phase == st.phase || (!Locked(c.st) && !Locked(st)))
  }

  /** The state is saved last, and only when nothing was refused. */
  function Finish(s: Script, done: State): (r: Script)
    ensures r.ok == s.ok && s.calls <= r.calls
    ensures forall c :: c in r.calls ==> c in s.calls || c == Save(done)
  {
    if s.ok then Script(s.calls + [Save(done)], true) else s
  }

  // setTransfers

  function SetSnapTasks(g: Group, w: World, vols: seq<ID>, on: bool): (r: seq<Call>)
    ensures forall c :: c in r ==> c.SetSnapTask? && c.on == on
    decreases |vols|
  {
    if vols == [] then []
    else
      var k := SnapTask(g, vols[0]);
      if k !in w.src.snapTasks || w.src.snapTasks[k] == on then SetSnapTasks(g, w, vols[1..], on)
      else
        var c := SetSnapTask(k, on);
        [c] + SetSnapTasks(g, Apply(w, c), vols[1..], on)
  }

  function SetTransfers(g: Group, w: World, on: bool): (r: Script)
    ensures forall c :: c in r.calls ==> (c.SetTask? || c.SetSnapTask?) && c.on == on
    ensures r.ok <==> TaskName(g) in w.src.tasks
  {
    var t := TaskName(g);
    if t !in w.src.tasks then Script([], false)
    else
      var c := if w.src.tasks[t] != on then [SetTask(t, on)] else [];
      Script(c + SetSnapTasks(g, ApplyAll(w, c), g.volumes, on), true)
  }

  // Create

  predicate MembersOwned(g: Group, w: World) {
    && g.volumes != []
    && (forall i :: 0 <= i < |g.volumes| ==>
          var v := g.volumes[i];
          && v.backend == g.source
          && Confine(v, g.srcPool, g.srcParent)
          && OwnedAt(w.src, v.DatasetPath()))
    && (forall i, j :: 0 <= i < j < |g.volumes| ==> g.volumes[i].name != g.volumes[j].name)
  }

  function Member(g: Group, w: World, v: ID): (r: seq<Call>)
    ensures forall c :: c in r ==> c.CreateSnapTask? || c.CreateSnapshot?
  {
    (if SnapTask(g, v) in w.src.snapTasks then [] else [CreateSnapTask(SnapTask(g, v))])
    + (if HasBaseline(g, SnapshotsOf(w.src, v.DatasetPath())) then []
       else [CreateSnapshot(v.DatasetPath(), Baseline(g))])
  }

  function Members(g: Group, w: World, vols: seq<ID>): (r: seq<Call>)
    ensures forall c :: c in r ==> c.CreateSnapTask? || c.CreateSnapshot?
    decreases |vols|
  {
    if vols == [] then []
    else
      var c := Member(g, w, vols[0]);
      c + Members(g, ApplyAll(w, c), vols[1..])
  }

  function Forward(g: Group, w: World): (r: seq<Call>)
    ensures forall c :: c in r ==> c == CreateTask(Source, TaskName(g)) || c == RunTask(Source, TaskName(g))
  {
    if TaskName(g) in w.src.tasks then []
    else [CreateTask(Source, TaskName(g)), RunTask(Source, TaskName(g))]
  }

  function Created(g: Group, st: State, w: World): (r: State)
    ensures r.phase == st.phase || (!Locked(r) && !Locked(st))
  {
    var suspended := TaskName(g) in w.src.tasks && !w.src.tasks[TaskName(g)];
    var p := if st.phase == Unknown then Ready else st.phase;
    st.(suspended := suspended, phase := if suspended && p == Ready then Suspended else p)
  }

  function Tasks(g: Group, w: World): (r: seq<Call>)
    ensures forall c :: c in r ==>
              c.CreateSnapTask? || c.CreateSnapshot?
              || c == CreateTask(Source, TaskName(g)) || c == RunTask(Source, TaskName(g))
  {
    var m := Members(g, w, g.volumes);
    m + Forward(g, ApplyAll(w, m))
  }

  function Create(g: Group, w: World): Script {
    if !MembersOwned(g, w) then Script([], false)
    else
      var c := Tasks(g, w);
      Finish(Script(c, true), Created(g, w.stored, ApplyAll(w, c)))
  }

  lemma CreateWrites(g: Group, w: World)
    ensures LeavesFailover(w.stored, Create(g, w).calls)
    ensures forall c :: c in Create(g, w).calls ==> !c.DeleteDataset?
  {
    hide Tasks, Created, MembersOwned, ApplyAll;
  }

  // Delete

  predicate ForeignTarget(g: Group, w: World) {
    exists i :: 0 <= i < |g.volumes| &&
                Target(g, g.volumes[i]) in w.dst.datasets && !OwnedAt(w.dst, Target(g, g.volumes[i]))
  }

  function DropSnapTasks(g: Group, w: World, vols: seq<ID>): (r: seq<Call>)
    ensures forall c :: c in r ==> c.DeleteSnapTask?
    decreases |vols|
  {
    if vols == [] then []
    else
      var k := SnapTask(g, vols[0]);
      if k !in w.src.snapTasks then DropSnapTasks(g, w, vols[1..])
      else [DeleteSnapTask(k)] + DropSnapTasks(g, Apply(w, DeleteSnapTask(k)), vols[1..])
  }

  function Untasked(g: Group, w: World): (r: seq<Call>)
    ensures forall c :: c in r ==> c.DeleteTask? || c.DeleteSnapTask?
  {
    var t := if TaskName(g) in w.src.tasks then [DeleteTask(Source, TaskName(g))] else [];
    t + DropSnapTasks(g, ApplyAll(w, t), g.volumes)
  }

  /** deleteIfOwned over a list: absent is skipped, foreign stops the list. */
  function DropDatasets(w: World, ids: seq<string>): (r: Script)
    ensures forall c :: c in r.calls ==> c.DeleteDataset? && c.id in ids
    decreases |ids|
  {
    if ids == [] then Script([], true)
    else if ids[0] !in w.dst.datasets then DropDatasets(w, ids[1..])
    else if !OwnedAt(w.dst, ids[0]) then Script([], false)
    else
      var c := DeleteDataset(ids[0]);
      var rest := DropDatasets(Apply(w, c), ids[1..]);
      Script([c] + rest.calls, rest.ok)
  }

  function Targets(g: Group): seq<string> {
    seq(|g.volumes|, i requires 0 <= i < |g.volumes| => Target(g, g.volumes[i]))
  }

  function Delete(g: Group, w: World, remove: bool): (r: Script)
    ensures forall c :: c in r.calls ==> !IsPromotion(c)
    ensures w.stored.test.Some? || (remove && ForeignTarget(g, w)) ==> r.calls == [] && !r.ok
  {
    if w.stored.test.Some? then Script([], false)
    else if remove && ForeignTarget(g, w) then Script([], false)
    else
      var t := Untasked(g, w);
      var d := if remove then DropDatasets(ApplyAll(w, t), Targets(g)) else Script([], true);
      Finish(Script(t + d.calls, d.ok), NEW_STATE)
  }

  // Failover

  datatype Promotion = Promotion(calls: seq<Call>, ok: bool, marks: map<string, string>)

  function PromoteOne(w: World, target: string): seq<Call>
    requires target in w.dst.datasets
  {
    [SetWritable(Dest, target)]
    + (if w.dst.datasets[target].origin != "" then [PromoteClone(target)] else [])
  }

  function Promote(g: Group, w: World, vols: seq<ID>, marks: map<string, string>, force: bool): (r: Promotion)
    ensures forall c :: c in r.calls ==> c.PromoteClone? || (c.SetWritable? && c.side == Dest)
    decreases |vols|
  {
    if vols == [] then Promotion([], true, marks)
    else
      var target := Target(g, vols[0]);
      var latest := Latest(w.dst, target);
      if !OwnedAt(w.dst, target) || (latest.None? && !force) then Promotion([], false, marks)
      else
        var marks' := if latest.Some? then marks[vols[0].name := ShortName(latest.value.id)] else marks;
        var c := PromoteOne(w, target);
        var rest := Promote(g, ApplyAll(w, c), vols[1..], marks', force);
        Promotion(c + rest.calls, rest.ok, rest.marks)
  }

  /** A forced failover carries on when stopping the transfers fails, having landed some of those
      writes: `cut` is how many. An unforced one never reaches the promotions then. */
  function Stopped(g: Group, w: World, force: bool, cut: nat): (r: Script)
    ensures forall c :: c in r.calls ==> (c.SetTask? || c.SetSnapTask?) && !c.on
  {
    var t := SetTransfers(g, w, false);
    if force then Script(if cut <= |t.calls| then t.calls[..cut] else t.calls, true) else t
  }

  predicate RefusesFailover(st: State, force: bool) {
    !force && (st.phase == FailingOver || st.phase == FailingBack || st.test.Some?)
  }

  /** Promoting every member and recording that the target is primary now. */
  function Promoted(g: Group, w: World, started: State, force: bool): (r: Script)
    requires Locked(started)
    ensures forall c :: c in r.calls ==>
              c.PromoteClone? || IsPromotion(c) || (c.Save? && c.st.phase == FailedOver)
  {
    var p := Promote(g, w, g.volumes, started.marks, force);
    Finish(Script(p.calls, p.ok), started.(phase := FailedOver, marks := p.marks))
  }

  /** Stopping the source's stream and, once that is done, promoting. */
  function Switched(g: Group, w: World, started: State, force: bool, cut: nat): Script
    requires Locked(started)
  {
    var t := Stopped(g, w, force, cut);
    var p := if t.ok then Promoted(g, ApplyAll(w, t.calls), started, force) else Script([], false);
    Script(t.calls + p.calls, p.ok)
  }

  function Failover(g: Group, w: World, force: bool, cut: nat): Script {
    if w.stored.phase == FailedOver then Script([], true)
    else if RefusesFailover(w.stored, force) then Script([], false)
    else
      var started := w.stored.(phase := FailingOver);
      var w1 := Apply(w, Save(started));
      var r := Switched(g, w1, started, force, cut);
      Script([Save(started)] + r.calls, r.ok)
  }

  lemma FailoverWrites(g: Group, w: World, force: bool, cut: nat)
    ensures var calls := Failover(g, w, force, cut).calls;
            && (forall c :: c in calls ==> !c.DeleteDataset? && (c.Save? ==> Locked(c.st)))
            && (calls != [] ==> calls[0].Save?)
            && (calls != [] && !force ==> !Locked(w.stored) && w.stored.phase != FailingBack)
  {
    hide Stopped, Promoted, Apply, ApplyAll;
    if w.stored.phase != FailedOver && !RefusesFailover(w.stored, force) {
      var started := w.stored.(phase := FailingOver);
      var r := Switched(g, Apply(w, Save(started)), started, force, cut);
      assert forall c :: c in r.calls ==> !c.DeleteDataset? && (c.Save? ==> Locked(c.st));
    }
  }

  // Failback

  /** The snapshots a volume gained on the source after its failover mark, or the reason why
      nothing can be proved about it. */
  function Gained(w: World, v: ID): seq<string> {
    if v.name !in w.stored.marks then ["no common snapshot was recorded at failover"]
    else GainedAfter(SnapshotsOf(w.src, v.DatasetPath()), w.stored.marks[v.name])
  }

  function GainedAfter(snaps: seq<Snapshot>, mark: string): seq<string> {
    if snaps == [] then ["the common snapshot is gone from the source"]
    else if ShortName(snaps[0].id) == mark then ShortNames(snaps[1..])
    else GainedAfter(snaps[1..], mark)
  }

  function ShortNames(snaps: seq<Snapshot>): (r: seq<string>)
    ensures |r| == |snaps|
  {
    if snaps == [] then [] else [ShortName(snaps[0].id)] + ShortNames(snaps[1..])
  }

  predicate Diverged(g: Group, w: World) {
    exists i :: 0 <= i < |g.volumes| && Gained(w, g.volumes[i]) != []
  }

  function Writables(vols: seq<ID>): (r: seq<Call>)
    ensures forall c :: c in r ==> c.SetWritable? && c.side == Source
  {
    if vols == [] then [] else [SetWritable(Source, vols[0].DatasetPath())] + Writables(vols[1..])
  }

  function Reverse(g: Group, w: World): (r: seq<Call>)
    ensures forall c :: c in r ==>
              || (c.SetWritable? && c.side == Source)
              || ((c.CreateTask? || c.RunTask? || c.DeleteTask?) && c.side == Dest)
  {
    (if ReverseTaskName(g) in w.dst.tasks then [] else [CreateTask(Dest, ReverseTaskName(g))])
    + [RunTask(Dest, ReverseTaskName(g)), DeleteTask(Dest, ReverseTaskName(g))]
    + Writables(g.volumes)
  }

  /** Replicating back, making the source writable, restarting its stream and recording it. */
  function Returned(g: Group, w: World, started: State): Script {
    var c := Reverse(g, w);
    var t := SetTransfers(g, ApplyAll(w, c), true);
    Finish(Script(c + t.calls, t.ok), started.(phase := Ready, suspended := false, marks := map[]))
  }

  lemma ReturnedWrites(g: Group, w: World, started: State)
    ensures forall c :: c in Returned(g, w, started).calls ==>
              !IsPromotion(c) && !c.DeleteDataset? && (c.Save? ==> c.st.phase == Ready)
  {
    hide Reverse, SetTransfers, ApplyAll;
  }

  function Failback(g: Group, w: World, force: bool): Script {
    var st := w.stored;
    if st.phase == Ready || st.phase == Suspended then Script([], true)
    else if st.phase != FailedOver && !(st.phase == FailingBack && force) then Script([], false)
    else if st.test.Some? && !force then Script([], false)
    else if Diverged(g, w) && !force then Script([], false)
    else
      var started := st.(phase := FailingBack);
      var r := Returned(g, Apply(w, Save(started)), started);
      Script([Save(started)] + r.calls, r.ok)
  }

  lemma FailbackWrites(g: Group, w: World, force: bool)
    ensures var calls := Failback(g, w, force).calls;
            && (forall c :: c in calls ==>
                  && !IsPromotion(c) && !c.DeleteDataset?
                  && (c.Save? ==> c.st.phase == FailingBack || c.st.phase == Ready))
            && (calls != [] ==> calls[0].Save? && calls[0].st.phase == FailingBack)
            && (calls != [] && !force ==> w.stored.phase == FailedOver)
  {
    hide Returned, Diverged, Apply;
    var started := w.stored.(phase := FailingBack);
    ReturnedWrites(g, Apply(w, Save(started)), started);
  }

  // Suspend and Resume

  function SetSuspended(g: Group, w: World, suspended: bool): (r: Script)
    ensures LeavesFailover(w.stored, r.calls) && (forall c :: c in r.calls ==> !c.DeleteDataset?)
    ensures Locked(w.stored) ==> r == Script([], false)
  {
    if Locked(w.stored) then Script([], false)
    else
      Finish(SetTransfers(g, w, !suspended),
             w.stored.(suspended := suspended, phase := if suspended then Suspended else Ready))
  }

  // Test failover, every write of which passes the scratch guard

  /** scratchGuard.permit, for the writes: only dataset writes at or under the scratch prefix. */
  predicate Permit(prefix: string, c: Call) {
    match c
    case CloneSnapshot(_, id) => id != "" && AtOrUnder(id, prefix)
    case CreateDataset(id) => id != "" && AtOrUnder(id, prefix)
    case SetWritable(side, id) => side == Dest && id != "" && AtOrUnder(id, prefix)
    case Stamp(id) => id != "" && AtOrUnder(id, prefix)
    case DeleteDataset(id) => id != "" && AtOrUnder(id, prefix)
    case _ => false
  }

  /** What actually reaches the appliance when these writes are sent through the guard. */
  function Guarded(prefix: string, s: Script): (r: Script)
    ensures r.calls <= s.calls && (forall c :: c in r.calls ==> Permit(prefix, c))
    ensures r.ok ==> s.ok && r.calls == s.calls
    ensures (forall c :: c in s.calls ==> Permit(prefix, c)) ==> r == s
    decreases |s.calls|
  {
    if s.calls == [] then s
    else if !Permit(prefix, s.calls[0]) then Script([], false)
    else
      var rest := Guarded(prefix, Script(s.calls[1..], s.ok));
      Script([s.calls[0]] + rest.calls, rest.ok)
  }

  datatype Rehearsal = Rehearsal(calls: seq<Call>, ok: bool, run: TestRun)

  function Clone(w: World, latest: Snapshot, id: string): seq<Call> {
    (if id in w.dst.datasets then [] else [CloneSnapshot(latest.id, id)]) + [Stamp(id)]
  }

  function Rehearse(g: Group, w: World, vols: seq<ID>, run: TestRun): (r: Rehearsal)
    ensures forall c :: c in r.calls ==> (c.CloneSnapshot? || c.Stamp?) && ScratchRoot(g) + "/" <= c.id
    ensures r.run.root == run.root
    decreases |vols|
  {
    if vols == [] then Rehearsal([], true, run)
    else
      var latest := Latest(w.dst, Target(g, vols[0]));
      if latest.None? then Rehearsal([], false, run)
      else
        var id := ScratchRoot(g) + "/" + vols[0].name;
        var c := Clone(w, latest.value, id);
        var run' := run.(datasets := run.datasets[vols[0].name := id],
                         snapshots := run.snapshots[vols[0].name := ShortName(latest.value.id)]);
        var rest := Rehearse(g, ApplyAll(w, c), vols[1..], run');
        Rehearsal(c + rest.calls, rest.ok, rest.run)
  }

  function Scratch(g: Group, w: World): seq<Call> {
    if ScratchRoot(g) in w.dst.datasets then [] else [CreateDataset(ScratchRoot(g))]
  }

  function StartWrites(g: Group, w: World): (r: Rehearsal)
    ensures forall c :: c in r.calls ==> c.CreateDataset? || c.CloneSnapshot? || c.Stamp?
  {
    var c := Scratch(g, w);
    var r := Rehearse(g, ApplyAll(w, c), g.volumes, TestRun(ScratchRoot(g), map[], map[]));
    Rehearsal(c + r.calls, r.ok, r.run)
  }

  function TestFailover(g: Group, w: World): Script {
    if w.stored.test.Some? then Script([], true)
    else
      var r := StartWrites(g, w);
      Finish(Guarded(ScratchRoot(g), Script(r.calls, r.ok)), w.stored.(test := Some(r.run)))
  }

  lemma TestFailoverWrites(g: Group, w: World)
    ensures LeavesFailover(w.stored, TestFailover(g, w).calls)
    ensures forall c :: c in TestFailover(g, w).calls ==> !c.DeleteDataset?
  {
    hide StartWrites;
    if w.stored.test.None? {
      var r := StartWrites(g, w);
      var s := Guarded(ScratchRoot(g), Script(r.calls, r.ok));
      assert forall c :: c in s.calls ==> c in r.calls;
    }
  }

  /** The order in which recorded clones are destroyed: each recorded name, once per record. */
  ghost predicate Lists(names: seq<string>, m: map<string, string>) {
    (forall k :: k in m ==> m[k] in names) && (forall i :: 0 <= i < |names| ==> names[i] in m.Values)
  }

  function StopTestFailover(g: Group, w: World, names: seq<string>): (r: Script)
    ensures LeavesFailover(w.stored, r.calls)
  {
    if w.stored.test.None? then Script([], true)
    else
      var root := w.stored.test.value.root;
      Finish(Guarded(root, DropDatasets(w, names + [root])), w.stored.(test := None))
  }
}
