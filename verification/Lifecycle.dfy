/** Whole runs of a protection group: any operations in any order, each stopped after any number
    of its writes, with the data on both appliances changing in between. */
module Lifecycle {
  import opened Wrappers
  import opened Text
  import opened Volume
  import opened Replication
  import opened Scripts

  datatype Op =
    | CreateGroup
    | DeleteGroup(remove: bool)
    | FailoverGroup(force: bool, cut: nat)
    | FailbackGroup(force: bool)
    | SuspendGroup
    | ResumeGroup
    | StartTest
    | StopTest(names: seq<string>)
    | Outside(src: Appliance, dst: Appliance)

  function ScriptOf(g: Group, w: World, op: Op): Script {
    match op
    case CreateGroup => Create(g, w)
    case DeleteGroup(remove) => Delete(g, w, remove)
    case FailoverGroup(force, cut) => Failover(g, w, force, cut)
    case FailbackGroup(force) => Failback(g, w, force)
    case SuspendGroup => SetSuspended(g, w, true)
    case ResumeGroup => SetSuspended(g, w, false)
    case StartTest => TestFailover(g, w)
    case StopTest(names) => StopTestFailover(g, w, names)
    case Outside(src, dst) => Script([Drift(src, dst)], true)
  }

  /** One operation, and how many of its writes landed before a call failed or the process died.
      A write that lands and is still reported as failed is the same as stopping just after it. */
  datatype Step = Step(op: Op, reach: nat)

  function Landed(g: Group, w: World, s: Step): seq<Call> {
    var calls := ScriptOf(g, w, s.op).calls;
    if s.reach <= |calls| then calls[..s.reach] else calls
  }

  function Next(g: Group, w: World, s: Step): World {
    ApplyAll(w, Landed(g, w, s))
  }

  function Run(g: Group, w: World, steps: seq<Step>): World {
    if steps == [] then w
    else Next(g, Run(g, w, steps[..|steps| - 1]), steps[|steps| - 1])
  }

  /** The writes made by step `i` of a run. */
  function Trace(g: Group, w: World, steps: seq<Step>, i: nat): seq<Call>
    requires i < |steps|
  {
    Landed(g, Run(g, w, steps[..i]), steps[i])
  }

  lemma RunStep(g: Group, w: World, steps: seq<Step>, i: nat)
    requires i < |steps|
    ensures Run(g, w, steps[..i + 1]) == Next(g, Run(g, w, steps[..i]), steps[i])
  {
    assert steps[..i + 1][..i] == steps[..i];
  }

  predicate Unforced(op: Op) {
    !((op.FailoverGroup? || op.FailbackGroup?) && op.force)
  }

  // What is stored after part of an operation

  /** After any writes the stored state is the one that was there, or one of those saved. */
  lemma {:induction false} StoredIsSaved(w: World, calls: seq<Call>)
    ensures var st := ApplyAll(w, calls).stored;
            (st == w.stored && (calls != [] ==> !calls[0].Save?)) || Save(st) in calls
    decreases |calls|
  {
    if calls != [] { StoredIsSaved(Apply(w, calls[0]), calls[1..]); }
  }

  // Promotion happens once

  predicate Promotes(calls: seq<Call>) {
    exists c :: c in calls && IsPromotion(c)
  }

  predicate StoresPhase(calls: seq<Call>, p: Phase) {
    exists c :: c in calls && c.Save? && c.st.phase == p
  }

  lemma OtherWrites(g: Group, w: World, op: Op)
    requires !op.FailoverGroup? && !op.FailbackGroup? && !op.DeleteGroup?
    ensures LeavesFailover(w.stored, ScriptOf(g, w, op).calls)
  {
    hide Create, TestFailover, SetSuspended, StopTestFailover;
    if op.CreateGroup? { CreateWrites(g, w); }
    if op.StartTest? { TestFailoverWrites(g, w); }
  }

  lemma OtherStores(g: Group, w: World, s: Step)
    requires !s.op.FailoverGroup? && !s.op.FailbackGroup? && !s.op.DeleteGroup?
    ensures !Promotes(Landed(g, w, s))
    ensures Locked(w.stored) ==> Next(g, w, s).stored.phase == w.stored.phase
  {
    OtherWrites(g, w, s.op);
    StoredIsSaved(w, Landed(g, w, s));
  }

  lemma PromotionLocks(g: Group, w: World, s: Step)
    requires Unforced(s.op) && Promotes(Landed(g, w, s))
    ensures !Locked(w.stored) && Locked(Next(g, w, s).stored)
  {
    hide Failover, Failback, Delete;
    if s.op.FailoverGroup? {
      FailoverWrites(g, w, false, s.op.cut);
      StoredIsSaved(w, Landed(g, w, s));
    } else if s.op.FailbackGroup? {
      FailbackWrites(g, w, false);
    } else if !s.op.DeleteGroup? {
      OtherStores(g, w, s);
    }
  }

  lemma FirstIsOne(calls: seq<Call>)
    ensures calls != [] ==> calls[0] in calls
  {
  }

  /** The step is a Delete that got as far as storing the state of a group that never was. */
  predicate Forgets(op: Op, calls: seq<Call>) {
    op.DeleteGroup? && Save(NEW_STATE) in calls
  }

  /** A Delete that did not get that far leaves what is stored, and promotes nothing. */
  lemma UnfinishedDelete(g: Group, w: World, s: Step)
    requires s.op.DeleteGroup? && !Forgets(s.op, Landed(g, w, s))
    ensures Next(g, w, s).stored == w.stored && !Promotes(Landed(g, w, s))
  {
    var calls := ScriptOf(g, w, s.op).calls;
    DeleteSaves(g, w, s.op.remove);
    assert forall c :: c in Landed(g, w, s) ==> c in calls;
    hide Delete;
    StoredIsSaved(w, Landed(g, w, s));
  }

  lemma DeleteSaves(g: Group, w: World, remove: bool)
    ensures forall c :: c in Delete(g, w, remove).calls && c.Save? ==> c == Save(NEW_STATE)
  {
    hide Untasked, DropDatasets, ForeignTarget, ApplyAll;
  }

  lemma LockHolds(g: Group, w: World, s: Step)
    requires Locked(w.stored) && Unforced(s.op) && !Forgets(s.op, Landed(g, w, s))
    requires !StoresPhase(Landed(g, w, s), FailingBack)
    ensures Locked(Next(g, w, s).stored) && !Promotes(Landed(g, w, s))
  {
    hide Failover, Failback;
    if s.op.FailoverGroup? {
      FailoverWrites(g, w, false, s.op.cut);
    } else if s.op.FailbackGroup? {
      FailbackWrites(g, w, false);
      FirstIsOne(Landed(g, w, s));
    } else if s.op.DeleteGroup? {
      UnfinishedDelete(g, w, s);
    } else {
      OtherStores(g, w, s);
    }
  }

  /** A failover that did not finish stays recorded as unfinished: no unforced operation but a
      finished Delete moves a group out of FailingOver, and none of them writes to the target's
      data. */
  lemma FailingOverStays(g: Group, w: World, s: Step)
    requires w.stored.phase == FailingOver && Unforced(s.op) && !Forgets(s.op, Landed(g, w, s))
    ensures Next(g, w, s).stored.phase == FailingOver
    ensures !Promotes(Landed(g, w, s))
  {
    hide Failover, Failback;
    if s.op.FailoverGroup? {
      FailoverWrites(g, w, false, s.op.cut);
    } else if s.op.FailbackGroup? {
      FailbackWrites(g, w, false);
    } else if s.op.DeleteGroup? {
      UnfinishedDelete(g, w, s);
    } else {
      OtherStores(g, w, s);
    }
  }

  /** In any unforced run, two steps that promote target datasets have between them a step that
      stored FailingBack, or a Delete that finished. */
  lemma PromotionsSeparated(g: Group, w: World, steps: seq<Step>, a: nat, b: nat)
    requires a < b < |steps| && forall i :: 0 <= i < |steps| ==> Unforced(steps[i].op)
    requires Promotes(Trace(g, w, steps, a)) && Promotes(Trace(g, w, steps, b))
    ensures exists m :: a < m < b
              && (Forgets(steps[m].op, Trace(g, w, steps, m)) || StoresPhase(Trace(g, w, steps, m), FailingBack))
  {
    if forall m :: a < m < b ==>
         !Forgets(steps[m].op, Trace(g, w, steps, m)) && !StoresPhase(Trace(g, w, steps, m), FailingBack)
    {
      LockedUntil(g, w, steps, a, b);
      PromotionLocks(g, Run(g, w, steps[..b]), steps[b]);
      assert false;
    }
  }

  lemma {:induction false} LockedUntil(g: Group, w: World, steps: seq<Step>, a: nat, b: nat)
    requires a < b < |steps| && forall i :: 0 <= i < |steps| ==> Unforced(steps[i].op)
    requires Promotes(Trace(g, w, steps, a))
    requires forall m :: a < m < b ==>
               !Forgets(steps[m].op, Trace(g, w, steps, m)) && !StoresPhase(Trace(g, w, steps, m), FailingBack)
    ensures Locked(Run(g, w, steps[..b]).stored)
  {
    hide Next, Landed;
    var u := Run(g, w, steps[..b - 1]);
    RunStep(g, w, steps, b - 1);
    if a == b - 1 {
      PromotionLocks(g, u, steps[a]);
    } else {
      LockedUntil(g, w, steps, a, b - 1);
      LockHolds(g, u, steps[b - 1]);
    }
  }
}
