/** Access modes, and which of them a protocol can honestly serve. */
module AccessModes {
  datatype Mode =
    | UnknownMode
    | SingleNodeWriter
    | SingleNodeReaderOnly
    | MultiNodeReaderOnly
    | MultiNodeSingleWriter
    | MultiNodeMultiWriter
    | SingleNodeSingleWriter
    | SingleNodeMultiWriter

  datatype Class = RawBlock | SharedFilesystem

  /** Anything not deliberately classified is raw block. */
  function ClassOf(protocol: string): Class {
    if protocol == "nfs" || protocol == "smb" then SharedFilesystem else RawBlock
  }

  predicate SingleNode(m: Mode) {
    m.SingleNodeWriter? || m.SingleNodeReaderOnly? || m.SingleNodeSingleWriter? || m.SingleNodeMultiWriter?
  }

  predicate Supports(protocol: string, m: Mode) {
    if ClassOf(protocol).SharedFilesystem? then m != UnknownMode else SingleNode(m)
  }

  const ONE_NODE := {SingleNodeWriter, SingleNodeReaderOnly, SingleNodeSingleWriter, SingleNodeMultiWriter}
  const SEVERAL_NODES := {MultiNodeReaderOnly, MultiNodeSingleWriter, MultiNodeMultiWriter}

  /** One node at a time is what everything serves; several at once is for the two shared filesystems
      alone, and nothing serves the mode nobody named. */
  lemma SupportsIff(protocol: string, m: Mode)
    ensures Supports(protocol, m) <==> m in ONE_NODE || (m in SEVERAL_NODES && protocol in {"nfs", "smb"})
    ensures SingleNode(m) <==> m in ONE_NODE
  {
  }
}

/** The per-volume lock set. */
module Locks {
  class VolumeLocks {
    var held: set<string>

    constructor ()
      ensures held == {}
    {
      held := {};
    }

    /** Takes the lock, or reports that another call has it and changes nothing. */
    method TryAcquire(id: string) returns (ok: bool)
      modifies this
      ensures ok <==> id !in old(held)
      ensures held == if ok then old(held) + {id} else old(held)
    {
      if id in held { return false; }
      held := held + {id};
      return true;
    }

    /** The closure TryAcquire hands back. */
    method Release(id: string)
      modifies this
      ensures held == old(held) - {id}
    {
      held := held - {id};
    }
  }
}

/** Publish and unpublish calls on one volume, any number at once, interleaved step by step, with
    the fencer revoking beside them and the controller dying at any moment. */
module Publish {
  import opened Wrappers
  import opened AccessModes
  import opened Locks

  type Node = string

  type Ledger = map<Node, seq<string>>

  /** Where one call stands, with its own copy of the ledger once it has read it. */
  datatype Rpc =
    | Publishing(node: Node, mode: Mode)
    | PublishLocked(node: Node, mode: Mode)
    | PublishChecked(node: Node, grants: Ledger)
    | PublishGranted(node: Node, addrs: seq<string>, grants: Ledger)
    | Unpublishing(asked: Node)
    | UnpublishLocked(asked: Node)
    | Revoking(asked: Node, targets: seq<Node>, grants: Ledger)
    | Done(ok: bool)

  /** The ledger on the dataset, the nodes the appliance serves, the lock, and the calls.
      `loose` is history: nodes given access whose grant was not recorded, until revoked. */
  datatype Machine = Machine(ledger: Ledger, access: set<Node>, locked: bool, rpcs: map<nat, Rpc>, loose: set<Node>)

  datatype Event =
    | CallPublish(r: nat, node: Node, mode: Mode)
    | CallUnpublish(r: nat, node: Node)
    | Acquire(r: nat)
    | ReadFails(r: nat)
    | ReadLedger(r: nat, order: seq<Node>)
    | Grant(r: nat, addrs: seq<string>, ok: bool, landed: bool)
    | Revoke(r: nat, ok: bool, landed: bool)
    | SaveLedger(r: nat, ok: bool, landed: bool)
    | Fence(node: Node)
    | Crash

  predicate Holds(rpc: Rpc) {
    rpc.PublishLocked? || rpc.PublishChecked? || rpc.PublishGranted? || rpc.UnpublishLocked? || rpc.Revoking?
  }

  function At(m: Machine, r: nat, rpc: Rpc): Machine {
    m.(rpcs := m.rpcs[r := rpc])
  }

  /** A call that returns releases the lock on its way out. */
  function Return(m: Machine, r: nat, ok: bool): Machine {
    At(m, r, Done(ok)).(locked := false)
  }

  /** Every node in the ledger exactly once. */
  predicate Enumerates(order: seq<Node>, ledger: Ledger) {
    && (forall n :: n in order ==> n in ledger) && (forall n :: n in ledger ==> n in order)
    && (forall i, j :: 0 <= i < j < |order| ==> order[i] != order[j])
  }

  function Read(m: Machine, r: nat, order: seq<Node>): Machine
    requires r in m.rpcs
  {
    match m.rpcs[r]
    case PublishLocked(node, mode) =>
      if m.ledger.Keys - {node} != {} && SingleNode(mode) then Return(m, r, false)
      else At(m, r, PublishChecked(node, m.ledger))
    case UnpublishLocked(asked) =>
      var targets := if asked == "" then order else [asked];
      if asked == "" && !Enumerates(order, m.ledger) then m
      else if targets == [] then Return(m, r, true)
      else At(m, r, Revoking(asked, targets, m.ledger))
    case _ => m
  }

  function Granted(m: Machine, r: nat, addrs: seq<string>, ok: bool, landed: bool): Machine
    requires r in m.rpcs
  {
    match m.rpcs[r]
    case PublishChecked(node, grants) =>
      if ok then At(m.(access := m.access + {node}), r, PublishGranted(node, addrs, grants))
      else if landed then Return(m.(access := m.access + {node}, loose := m.loose + {node}), r, false)
      else Return(m, r, false)
    case _ => m
  }

  function Revoked(m: Machine, r: nat, ok: bool, landed: bool): Machine
    requires r in m.rpcs
  {
    match m.rpcs[r]
    case Revoking(asked, targets, grants) =>
      if targets == [] then m
      else
        var t := targets[0];
        if ok then
          At(m.(access := m.access - {t}, loose := m.loose - {t}), r, Revoking(asked, targets[1..], grants - {t}))
        else if landed then Return(m.(access := m.access - {t}), r, false)
        else Return(m, r, false)
    case _ => m
  }

  function Saved(m: Machine, r: nat, ok: bool, landed: bool): Machine
    requires r in m.rpcs
  {
    match m.rpcs[r]
    case PublishGranted(node, addrs, grants) =>
      if ok then Return(m.(ledger := grants[node := addrs]), r, true)
      else if landed then Return(m.(ledger := grants[node := addrs]), r, false)
      else Return(m.(loose := m.loose + {node}), r, false)
    case Revoking(_, targets, grants) =>
      if targets != [] then m
      else if ok || landed then Return(m.(ledger := grants), r, ok)
      else Return(m, r, false)
    case _ => m
  }

  /** One step. A step that does not apply where a call stands does nothing. */
  function Next(protocol: string, m: Machine, e: Event): Machine {
    match e
    case CallPublish(r, node, mode) =>
      if r in m.rpcs then m
      else At(m, r, if node == "" || !Supports(protocol, mode) then Done(false) else Publishing(node, mode))
    case CallUnpublish(r, node) => if r in m.rpcs then m else At(m, r, Unpublishing(node))
    case Acquire(r) =>
      if r !in m.rpcs || !(m.rpcs[r].Publishing? || m.rpcs[r].Unpublishing?) then m
      else if m.locked then At(m, r, Done(false))
      else At(m, r, if m.rpcs[r].Publishing? then PublishLocked(m.rpcs[r].node, m.rpcs[r].mode)
                    else UnpublishLocked(m.rpcs[r].asked)).(locked := true)
    case ReadFails(r) =>
      if r in m.rpcs && (m.rpcs[r].PublishLocked? || m.rpcs[r].PublishChecked? || m.rpcs[r].UnpublishLocked?)
      then Return(m, r, false) else m
    case ReadLedger(r, order) => if r in m.rpcs then Read(m, r, order) else m
    case Grant(r, addrs, ok, landed) => if r in m.rpcs then Granted(m, r, addrs, ok, landed) else m
    case Revoke(r, ok, landed) => if r in m.rpcs then Revoked(m, r, ok, landed) else m
    case SaveLedger(r, ok, landed) => if r in m.rpcs then Saved(m, r, ok, landed) else m
    case Fence(node) => m.(access := m.access - {node})
    case Crash =>
      m.(rpcs := map[], locked := false,
         loose := m.loose + set r | r in m.rpcs && m.rpcs[r].PublishGranted? :: m.rpcs[r].node)
  }

  function Run(protocol: string, m: Machine, es: seq<Event>): Machine
    decreases |es|
  {
    if es == [] then m else Run(protocol, Next(protocol, m, es[0]), es[1..])
  }

  // The invariant

  /** The node a call in flight may have given access to without having recorded it yet. */
  function InFlight(m: Machine): set<Node> {
    set r | r in m.rpcs && m.rpcs[r].PublishGranted? :: m.rpcs[r].node
  }

  ghost predicate OneHolder(m: Machine) {
    && (forall r :: r in m.rpcs && Holds(m.rpcs[r]) ==> m.locked)
    && (forall r, s :: r in m.rpcs && s in m.rpcs && Holds(m.rpcs[r]) && Holds(m.rpcs[s]) ==> r == s)
  }

  /** What a call knows from its copy of the ledger still holds, because it has the lock. */
  ghost predicate Sound(m: Machine, rpc: Rpc) {
    match rpc
    case Publishing(node, mode) => SingleNode(mode)
    case PublishLocked(node, mode) => SingleNode(mode)
    case PublishChecked(node, grants) => grants == m.ledger && m.ledger.Keys <= {node}
    case PublishGranted(node, _, grants) => grants == m.ledger && m.ledger.Keys <= {node}
    case Revoking(asked, targets, grants) =>
      && grants.Keys <= m.ledger.Keys
      && m.access <= grants.Keys + m.loose
      && (asked == "" ==> forall n :: n in grants <==> n in targets)
      && (asked == "" ==> forall i, j :: 0 <= i < j < |targets| ==> targets[i] != targets[j])
      && (asked != "" ==> targets == [asked] || (targets == [] && asked !in grants && asked !in m.access))
    case _ => true
  }

  ghost predicate Inv(m: Machine) {
    && OneHolder(m)
    && |m.ledger.Keys| <= 1
    && m.access <= m.ledger.Keys + m.loose + InFlight(m)
    && (forall r :: r in m.rpcs ==> Sound(m, m.rpcs[r]))
  }

  /** A call that does not hold the lock knows nothing that a step of another could spoil. */
  lemma OthersIdle(m: Machine, r: nat, s: nat)
    requires Inv(m) && r in m.rpcs && s in m.rpcs && r != s && Holds(m.rpcs[r])
    ensures !Holds(m.rpcs[s])
  {
  }

  lemma InFlightIs(m: Machine, r: nat)
    requires Inv(m) && r in m.rpcs && Holds(m.rpcs[r])
    ensures InFlight(m) == if m.rpcs[r].PublishGranted? then {m.rpcs[r].node} else {}
  {
  }

  /** The holder moving on, still holding, to something sound in the new state. */
  lemma HolderMoves(m: Machine, m': Machine, r: nat)
    requires Inv(m) && r in m.rpcs && Holds(m.rpcs[r])
    requires r in m'.rpcs && m'.rpcs == m.rpcs[r := m'.rpcs[r]]
    requires if Holds(m'.rpcs[r]) then m'.locked == m.locked else m'.rpcs[r].Done? && !m'.locked
    requires |m'.ledger.Keys| <= 1
    requires m'.access <= m'.ledger.Keys + m'.loose + (if m'.rpcs[r].PublishGranted? then {m'.rpcs[r].node} else {})
    requires Sound(m', m'.rpcs[r])
    ensures Inv(m')
  {
    forall s | s in m'.rpcs && s != r ensures !Holds(m'.rpcs[s]) && Sound(m', m'.rpcs[s]) { OthersIdle(m, r, s); }
    assert OneHolder(m');
    if m'.rpcs[r].PublishGranted? { assert m'.rpcs[r].node in InFlight(m'); }
  }

  lemma ReadKeeps(m: Machine, r: nat, order: seq<Node>)
    requires Inv(m) && r in m.rpcs
    ensures Inv(Read(m, r, order))
  {
    var m' := Read(m, r, order);
    if (m.rpcs[r].PublishLocked? || m.rpcs[r].UnpublishLocked?) && m' != m {
      InFlightIs(m, r);
      assert Sound(m, m.rpcs[r]);
      ReadSound(m, r, order);
      hide Sound;
      HolderMoves(m, m', r);
    }
  }

  lemma ReadSound(m: Machine, r: nat, order: seq<Node>)
    requires r in m.rpcs && (m.rpcs[r].PublishLocked? || m.rpcs[r].UnpublishLocked?) && Sound(m, m.rpcs[r])
    requires |m.ledger.Keys| <= 1 && m.access <= m.ledger.Keys + m.loose && Read(m, r, order) != m
    ensures var m' := Read(m, r, order);
            r in m'.rpcs && Sound(m', m'.rpcs[r])
  {
  }

  lemma GrantKeeps(m: Machine, r: nat, addrs: seq<string>, ok: bool, landed: bool)
    requires Inv(m) && r in m.rpcs
    ensures Inv(Granted(m, r, addrs, ok, landed))
  {
    if m.rpcs[r].PublishChecked? {
      InFlightIs(m, r);
      HolderMoves(m, Granted(m, r, addrs, ok, landed), r);
    }
  }

  lemma RevokeKeeps(m: Machine, r: nat, ok: bool, landed: bool)
    requires Inv(m) && r in m.rpcs
    ensures Inv(Revoked(m, r, ok, landed))
  {
    var m' := Revoked(m, r, ok, landed);
    if m.rpcs[r].Revoking? && m.rpcs[r].targets != [] {
      InFlightIs(m, r);
      if ok { RevokingStaysSound(m, r); }
      HolderMoves(m, m', r);
    }
  }

  lemma RevokingStaysSound(m: Machine, r: nat)
    requires r in m.rpcs && m.rpcs[r].Revoking? && m.rpcs[r].targets != [] && Sound(m, m.rpcs[r])
    ensures var m' := Revoked(m, r, true, false);
            Sound(m', m'.rpcs[r])
  {
    var targets, grants := m.rpcs[r].targets, m.rpcs[r].grants;
    if m.rpcs[r].asked == "" {
      forall n ensures n in grants - {targets[0]} <==> n in targets[1..] {
        assert n in targets <==> n == targets[0] || n in targets[1..];
      }
    }
  }

  lemma SubsetSize(a: set<Node>, b: set<Node>)
    requires a <= b
    ensures |a| <= |b|
  {
    assert b == a + (b - a);
  }

  lemma SaveKeeps(m: Machine, r: nat, ok: bool, landed: bool)
    requires Inv(m) && r in m.rpcs
    ensures Inv(Saved(m, r, ok, landed))
  {
    var m' := Saved(m, r, ok, landed);
    if m.rpcs[r].PublishGranted? {
      InFlightIs(m, r);
      var node := m.rpcs[r].node;
      assert m.rpcs[r].grants[node := m.rpcs[r].addrs].Keys == {node};
      HolderMoves(m, m', r);
    } else if m.rpcs[r].Revoking? && m.rpcs[r].targets == [] {
      InFlightIs(m, r);
      SubsetSize(m.rpcs[r].grants.Keys, m.ledger.Keys);
      HolderMoves(m, m', r);
    }
  }

  lemma InFlightKept(m: Machine, r: nat, rpc: Rpc)
    requires r in m.rpcs ==> !m.rpcs[r].PublishGranted?
    requires !rpc.PublishGranted?
    ensures InFlight(At(m, r, rpc)) == InFlight(m)
  {
    forall x | x in InFlight(m) ensures x in InFlight(At(m, r, rpc)) {
      var s :| s in m.rpcs && m.rpcs[s].PublishGranted? && m.rpcs[s].node == x;
      assert At(m, r, rpc).rpcs[s] == m.rpcs[s];
    }
  }

  lemma SoundSame(m: Machine, m': Machine, rpc: Rpc)
    requires m'.ledger == m.ledger && m'.access == m.access && m'.loose == m.loose
    ensures Sound(m, rpc) <==> Sound(m', rpc)
  {
  }

  lemma InFlightSame(m: Machine, m': Machine)
    requires m'.rpcs == m.rpcs
    ensures InFlight(m') == InFlight(m)
  {
  }

  /** A call that does not hold the lock arrives, gives up, or takes the lock when it is free. */
  lemma IdleMoves(m: Machine, r: nat, rpc: Rpc, locked: bool)
    requires Inv(m) && (r in m.rpcs ==> !Holds(m.rpcs[r])) && Sound(m, rpc) && !rpc.PublishGranted?
    requires if Holds(rpc) then !m.locked && locked else locked == m.locked
    ensures Inv(At(m, r, rpc).(locked := locked))
  {
    hide Sound, InFlight;
    var m' := At(m, r, rpc).(locked := locked);
    InFlightKept(m, r, rpc);
    InFlightSame(At(m, r, rpc), m');
    forall s | s in m'.rpcs ensures Sound(m', m'.rpcs[s]) { SoundSame(m, m', m'.rpcs[s]); }
    assert OneHolder(m');
  }

  lemma AcquireKeeps(protocol: string, m: Machine, r: nat)
    requires Inv(m)
    ensures Inv(Next(protocol, m, Acquire(r)))
  {
    var m' := Next(protocol, m, Acquire(r));
    if m' != m {
      assert Sound(m, m.rpcs[r]);
      IdleMoves(m, r, m'.rpcs[r], m'.locked);
    }
  }

  lemma ArrivalKeeps(m: Machine, r: nat, rpc: Rpc)
    requires Inv(m) && r !in m.rpcs && !Holds(rpc) && Sound(m, rpc)
    ensures Inv(At(m, r, rpc))
  {
    IdleMoves(m, r, rpc, m.locked);
  }

  lemma InvNext(protocol: string, m: Machine, e: Event)
    requires Inv(m) && protocol !in {"nfs", "smb"}
    ensures Inv(Next(protocol, m, e))
  {
    match e
    case CallPublish(r, node, mode) => if r !in m.rpcs { ArrivalKeeps(m, r, Next(protocol, m, e).rpcs[r]); }
    case CallUnpublish(r, node) => if r !in m.rpcs { ArrivalKeeps(m, r, Unpublishing(node)); }
    case _ => hide Inv;
              StepKeeps(protocol, m, e);
  }

  lemma StepKeeps(protocol: string, m: Machine, e: Event)
    requires Inv(m) && !e.CallPublish? && !e.CallUnpublish?
    ensures Inv(Next(protocol, m, e))
  {
    hide Inv, Read, Granted, Revoked, Saved;
    match e
    case Acquire(r) => AcquireKeeps(protocol, m, r);
    case ReadFails(r) => ReadFailsKeeps(protocol, m, r);
    case ReadLedger(r, order) => if r in m.rpcs { ReadKeeps(m, r, order); }
    case Grant(r, addrs, ok, landed) => if r in m.rpcs { GrantKeeps(m, r, addrs, ok, landed); }
    case Revoke(r, ok, landed) => if r in m.rpcs { RevokeKeeps(m, r, ok, landed); }
    case SaveLedger(r, ok, landed) => if r in m.rpcs { SaveKeeps(m, r, ok, landed); }
    case Fence(node) => FenceKeeps(m, node);
    case Crash => CrashKeeps(protocol, m);
  }

  lemma ReadFailsKeeps(protocol: string, m: Machine, r: nat)
    requires Inv(m)
    ensures Inv(Next(protocol, m, ReadFails(r)))
  {
    if r in m.rpcs && (m.rpcs[r].PublishLocked? || m.rpcs[r].PublishChecked? || m.rpcs[r].UnpublishLocked?) {
      InFlightIs(m, r);
      HolderMoves(m, Return(m, r, false), r);
    }
  }

  lemma CrashKeeps(protocol: string, m: Machine)
    requires Inv(m)
    ensures Inv(Next(protocol, m, Crash))
  {
  }

  lemma FenceKeeps(m: Machine, node: Node)
    requires Inv(m)
    ensures Inv(m.(access := m.access - {node}))
  {
    var m' := m.(access := m.access - {node});
    forall s | s in m'.rpcs ensures Sound(m', m'.rpcs[s]) { assert Sound(m, m.rpcs[s]); }
    assert InFlight(m') == InFlight(m);
  }

  // Whole runs

  /** A volume nobody is serving and no call has touched, or one whose ledger is accurate. */
  predicate Fresh(m: Machine) {
    m.rpcs == map[] && !m.locked && m.loose == {} && |m.ledger.Keys| <= 1 && m.access <= m.ledger.Keys
  }

  lemma {:induction false} InvAlways(protocol: string, m: Machine, es: seq<Event>)
    requires Inv(m) && protocol !in {"nfs", "smb"}
    ensures Inv(Run(protocol, m, es))
    decreases |es|
  {
    if es != [] {
      InvNext(protocol, m, es[0]);
      InvAlways(protocol, Next(protocol, m, es[0]), es[1..]);
    }
  }

  /** On a raw block volume, whatever calls arrive and however they interleave, fail or die, the
      ledger never names two nodes. */
  lemma LedgerNamesOne(protocol: string, m: Machine, es: seq<Event>)
    requires Fresh(m) && protocol !in {"nfs", "smb"}
    ensures |Run(protocol, m, es).ledger.Keys| <= 1
  {
    assert Inv(m);
    InvAlways(protocol, m, es);
  }

  /** ... and every node the appliance serves is in the ledger, is the lock holder's own, or is one
      whose grant went unrecorded. */
  lemma AccessAccounted(protocol: string, m: Machine, es: seq<Event>)
    requires Fresh(m) && protocol !in {"nfs", "smb"}
    ensures var u := Run(protocol, m, es);
            u.access <= u.ledger.Keys + u.loose + InFlight(u)
  {
    assert Inv(m);
    InvAlways(protocol, m, es);
  }

  /** In every reachable state in which each node served is in the ledger or the lock holder's own, at
      most one is. */
  lemma TrackedIsOne(protocol: string, m: Machine, es: seq<Event>)
    requires Fresh(m) && protocol !in {"nfs", "smb"}
    ensures var u := Run(protocol, m, es);
            u.access <= u.ledger.Keys + InFlight(u) ==> |u.access| <= 1
  {
    assert Inv(m);
    InvAlways(protocol, m, es);
    var u := Run(protocol, m, es);
    if u.access <= u.ledger.Keys + InFlight(u) {
      if r :| r in u.rpcs && u.rpcs[r].PublishGranted? {
        InFlightIs(u, r);
        assert Sound(u, u.rpcs[r]);
        SubsetSize(u.access, {u.rpcs[r].node});
      } else {
        assert InFlight(u) == {};
        SubsetSize(u.access, u.ledger.Keys);
      }
    }
  }

  /** The step gives up on recording a node that has been given access. */
  predicate LosesTrack(protocol: string, m: Machine, e: Event) {
    !(Next(protocol, m, e).loose <= m.loose)
  }

  /** Exactly three kinds of step do: a grant that fails having taken effect, the save after a grant
      that fails without taking effect, and the controller dying between the two. */
  lemma LosesTrackIff(protocol: string, m: Machine, e: Event)
    ensures LosesTrack(protocol, m, e) <==>
            || (e.Grant? && !e.ok && e.landed && e.r in m.rpcs && m.rpcs[e.r].PublishChecked?
                && m.rpcs[e.r].node !in m.loose)
            || (e.SaveLedger? && !e.ok && !e.landed && e.r in m.rpcs && m.rpcs[e.r].PublishGranted?
                && m.rpcs[e.r].node !in m.loose)
            || (e.Crash? && !(InFlight(m) <= m.loose))
  {
    if e.Crash? {
      assert Next(protocol, m, e).loose == m.loose + InFlight(m);
    }
  }

  ghost predicate Tracks(protocol: string, m: Machine, es: seq<Event>)
    decreases |es|
  {
    es == [] || (!LosesTrack(protocol, m, es[0]) && Tracks(protocol, Next(protocol, m, es[0]), es[1..]))
  }

  lemma {:induction false} NothingLoose(protocol: string, m: Machine, es: seq<Event>)
    requires m.loose == {} && Tracks(protocol, m, es)
    ensures Run(protocol, m, es).loose == {}
    decreases |es|
  {
    hide Next;
    if es != [] {
      NothingLoose(protocol, Next(protocol, m, es[0]), es[1..]);
    }
  }

  /** Without such a step, no two nodes ever have access at the same time. */
  lemma OneNodeServed(protocol: string, m: Machine, es: seq<Event>)
    requires Fresh(m) && protocol !in {"nfs", "smb"} && Tracks(protocol, m, es)
    ensures var u := Run(protocol, m, es);
            u.access <= u.ledger.Keys + InFlight(u) && |u.access| <= 1
  {
    AccessAccounted(protocol, m, es);
    NothingLoose(protocol, m, es);
    TrackedIsOne(protocol, m, es);
  }

  /** The steps of one publish that nothing interrupts, with its save's outcome. */
  function PublishSteps(r: nat, node: Node, ok: bool, landed: bool): seq<Event> {
    [CallPublish(r, node, SingleNodeWriter), Acquire(r), ReadLedger(r, []),
     Grant(r, [], true, true), SaveLedger(r, ok, landed)]
  }

  /** With one lost save it can happen: the first publish is granted, its save is lost, the call
      reports failure, and the next publish, for another node, finds an empty ledger. */
  lemma LostSaveLetsTwoIn()
    ensures var m := Machine(map[], {}, false, map[], {});
            var u := Run("iscsi", m, PublishSteps(0, "a", false, false) + PublishSteps(1, "b", true, true));
            && Fresh(m) && u.access == {"a", "b"} && u.ledger.Keys == {"b"}
            && u.rpcs == map[0 := Done(false), 1 := Done(true)]
  {
    var m := Machine(map[], {}, false, map[], {});
    PublishPath("iscsi", m, 0, "a", false, false);
    var m1 := Machine(map[], {"a"}, false, map[0 := Done(false)], {"a"});
    PublishPath("iscsi", m1, 1, "b", true, true);
    hide Run, Next, PublishSteps;
    assert Run("iscsi", m, PublishSteps(0, "a", false, false)) == m1;
    RunConcat("iscsi", m, PublishSteps(0, "a", false, false), PublishSteps(1, "b", true, true));
  }

  lemma {:induction false} RunConcat(protocol: string, m: Machine, a: seq<Event>, b: seq<Event>)
    ensures Run(protocol, m, a + b) == Run(protocol, Run(protocol, m, a), b)
    decreases |a|
  {
    if a == [] {
      assert a + b == b;
    } else {
      RunConcat(protocol, Next(protocol, m, a[0]), a[1..], b);
      assert (a + b)[1..] == a[1..] + b;
    }
  }

  /** One publish, on its own, of a volume nobody else holds. */
  lemma PublishPath(protocol: string, m: Machine, r: nat, node: Node, ok: bool, landed: bool)
    requires r !in m.rpcs && !m.locked && node != "" && protocol !in {"nfs", "smb"} && m.ledger.Keys <= {node}
    ensures Run(protocol, m, PublishSteps(r, node, ok, landed)) ==
            Machine(if ok || landed then m.ledger[node := []] else m.ledger, m.access + {node}, false,
                    m.rpcs[r := Done(ok)], if ok || landed then m.loose else m.loose + {node})
  {
    var es := PublishSteps(r, node, ok, landed);
    var m1 := Next(protocol, m, es[0]);
    var m2 := Next(protocol, m1, es[1]);
    var m3 := Next(protocol, m2, es[2]);
    var m4 := Next(protocol, m3, es[3]);
    var m5 := Next(protocol, m4, es[4]);
    assert m3.rpcs[r] == PublishChecked(node, m.ledger);
    assert es[1..][1..] == es[2..] && es[2..][1..] == es[3..] && es[3..][1..] == es[4..] && es[4..][1..] == [];
    assert Run(protocol, m, es) == Run(protocol, m1, es[1..]) == Run(protocol, m2, es[2..])
        == Run(protocol, m3, es[3..]) == Run(protocol, m4, es[4..]) == m5;
    assert m5.rpcs == m.rpcs[r := Done(ok)];
  }

  /** What one publish that nothing disturbs does to access: it is refused, or the node is added. */
  lemma PublishEffect(protocol: string, m: Machine, r: nat, node: Node)
    requires r !in m.rpcs && !m.locked && protocol !in {"nfs", "smb"}
    ensures Run(protocol, m, PublishSteps(r, node, true, true)).access
         == if node != "" && m.ledger.Keys <= {node} then m.access + {node} else m.access
  {
    if node != "" && m.ledger.Keys <= {node} {
      PublishPath(protocol, m, r, node, true, true);
    } else {
      PublishRefused(protocol, m, r, node);
    }
  }

  lemma PublishRefused(protocol: string, m: Machine, r: nat, node: Node)
    requires r !in m.rpcs && !m.locked && protocol !in {"nfs", "smb"} && !(node != "" && m.ledger.Keys <= {node})
    ensures Run(protocol, m, PublishSteps(r, node, true, true)).access == m.access
  {
    var es := PublishSteps(r, node, true, true);
    var m1 := Next(protocol, m, es[0]);
    var m2 := Next(protocol, m1, es[1]);
    var m3 := Next(protocol, m2, es[2]);
    assert m3.rpcs[r] == Done(false) && m3.access == m.access;
    assert Next(protocol, m3, es[3]) == m3 && Next(protocol, m3, es[4]) == m3;
    assert es[1..][1..] == es[2..] && es[2..][1..] == es[3..] && es[3..][1..] == es[4..] && es[4..][1..] == [];
    assert Run(protocol, m, es) == Run(protocol, m1, es[1..]) == Run(protocol, m2, es[2..])
        == Run(protocol, m3, es[3..]) == Run(protocol, m3, es[4..]) == Run(protocol, m3, []);
  }

  /** Some publish, undisturbed, ends with two nodes served. */
  ghost predicate TwoNext(protocol: string, m: Machine, r: nat) {
    exists node: Node :: |Run(protocol, m, PublishSteps(r, node, true, true)).access| >= 2
  }

  /** Whenever the lock is free, the next publish can let a second node in if and only if a node is
      served that the ledger does not name, or two are served already. (A ledger naming the empty
      node, which the driver never writes, admits no publish.) */
  lemma TwoNextIff(protocol: string, m: Machine, es: seq<Event>, r: nat)
    requires Fresh(m) && protocol !in {"nfs", "smb"}
    requires var u := Run(protocol, m, es); !u.locked && r !in u.rpcs
    ensures var u := Run(protocol, m, es);
            TwoNext(protocol, u, r) <==> |u.access| >= 2 || (!(u.access <= u.ledger.Keys) && "" !in u.ledger)
  {
    hide PublishSteps, Next;
    var u := Run(protocol, m, es);
    assert Inv(m);
    InvAlways(protocol, m, es);
    TwoNextAt(protocol, u, r);
  }

  lemma TwoNextAt(protocol: string, u: Machine, r: nat)
    requires Inv(u) && !u.locked && r !in u.rpcs && protocol !in {"nfs", "smb"}
    ensures TwoNext(protocol, u, r) <==> |u.access| >= 2 || (!(u.access <= u.ledger.Keys) && "" !in u.ledger)
  {
    hide PublishSteps, Next, Run, Inv, InFlight;
    forall node: Node ensures Run(protocol, u, PublishSteps(r, node, true, true)).access
                           == if node != "" && u.ledger.Keys <= {node} then u.access + {node} else u.access
    {
      PublishEffect(protocol, u, r, node);
    }
    assert |u.ledger.Keys| <= 1 by { InvLedger(u); }
    if |u.access| >= 2 {
      assert |Run(protocol, u, PublishSteps(r, "", true, true)).access| >= 2;
    } else if !(u.access <= u.ledger.Keys) && "" !in u.ledger {
      var n :| n in u.access && n !in u.ledger.Keys;
      var node := Another(u.ledger.Keys, n);
      SubsetSize({n, node}, u.access + {node});
      assert |Run(protocol, u, PublishSteps(r, node, true, true)).access| >= 2;
    } else if u.access <= u.ledger.Keys {
      forall node: Node | node != "" && u.ledger.Keys <= {node} ensures |u.access + {node}| <= 1 {
        SubsetSize(u.access + {node}, {node});
      }
    } else {
      assert forall node: Node :: u.ledger.Keys <= {node} ==> node == "";
    }
  }

  lemma InvLedger(m: Machine)
    requires Inv(m)
    ensures |m.ledger.Keys| <= 1
  {
  }

  /** A node other than n that a ledger of these nodes would let in. */
  lemma Another(keys: set<Node>, n: Node) returns (node: Node)
    requires |keys| <= 1 && "" !in keys && n !in keys
    ensures node != "" && node != n && keys <= {node}
  {
    if keys == {} {
      node := if n == "a" then "b" else "a";
    } else {
      node :| node in keys;
      assert |keys - {node}| == |keys| - 1;
    }
  }

  // Unpublishing

  /** The fence: in any run, at whatever step an unpublish comes to report success, the node it was
      asked about is out of the ledger and unserved; asked about none, it has left the ledger empty
      and nobody served but those whose grants went unrecorded. */
  lemma UnpublishFences(protocol: string, m: Machine, es: seq<Event>, e: Event, r: nat)
    requires Fresh(m) && protocol !in {"nfs", "smb"}
    requires var u := Run(protocol, m, es);
             r in u.rpcs && (u.rpcs[r].UnpublishLocked? || u.rpcs[r].Revoking?)
             && r in Next(protocol, u, e).rpcs && Next(protocol, u, e).rpcs[r] == Done(true)
    ensures var asked := Run(protocol, m, es).rpcs[r].asked;
            var u := Next(protocol, Run(protocol, m, es), e);
            && (asked != "" ==> asked !in u.access && asked !in u.ledger)
            && (asked == "" ==> u.ledger == map[] && u.access <= u.loose)
  {
    hide Next, Sound;
    assert Inv(m);
    InvAlways(protocol, m, es);
    FencesAt(protocol, Run(protocol, m, es), e, r);
  }

  lemma FencesAt(protocol: string, u: Machine, e: Event, r: nat)
    requires Inv(u) && r in u.rpcs && (u.rpcs[r].UnpublishLocked? || u.rpcs[r].Revoking?)
    requires r in Next(protocol, u, e).rpcs && Next(protocol, u, e).rpcs[r] == Done(true)
    ensures var asked, u' := u.rpcs[r].asked, Next(protocol, u, e);
            && (asked != "" ==> asked !in u'.access && asked !in u'.ledger)
            && (asked == "" ==> u'.ledger == map[] && u'.access <= u'.loose)
  {
    OnlyOwnSteps(protocol, u, e, r);
    hide Next, Read, Saved;
    assert Sound(u, u.rpcs[r]);
    InFlightIs(u, r);
    if e.ReadLedger? {
      assert Next(protocol, u, e) == Read(u, r, e.order) by { OwnStep(protocol, u, e, r); }
      ReadSucceeds(u, r, e.order);
    } else {
      assert Next(protocol, u, e) == Saved(u, r, e.ok, e.landed) by { OwnStep(protocol, u, e, r); }
      SaveSucceeds(u, r, e.ok, e.landed);
    }
  }

  lemma OwnStep(protocol: string, u: Machine, e: Event, r: nat)
    requires r in u.rpcs && (e.ReadLedger? || e.SaveLedger?) && e.r == r
    ensures Next(protocol, u, e) == if e.ReadLedger? then Read(u, r, e.order) else Saved(u, r, e.ok, e.landed)
  {
  }

  lemma ReadSucceeds(u: Machine, r: nat, order: seq<Node>)
    requires r in u.rpcs && (u.rpcs[r].UnpublishLocked? || u.rpcs[r].Revoking?)
    requires r in Read(u, r, order).rpcs && Read(u, r, order).rpcs[r] == Done(true)
    ensures u.rpcs[r].UnpublishLocked? && u.rpcs[r].asked == "" && u.ledger == map[]
    ensures var u' := Read(u, r, order); u'.ledger == u.ledger && u'.access == u.access && u'.loose == u.loose
  {
  }

  lemma SaveSucceeds(u: Machine, r: nat, ok: bool, landed: bool)
    requires r in u.rpcs && (u.rpcs[r].UnpublishLocked? || u.rpcs[r].Revoking?)
    requires r in Saved(u, r, ok, landed).rpcs && Saved(u, r, ok, landed).rpcs[r] == Done(true)
    ensures u.rpcs[r].Revoking? && u.rpcs[r].targets == []
    ensures var u' := Saved(u, r, ok, landed);
            u'.ledger == u.rpcs[r].grants && u'.access == u.access && u'.loose == u.loose
  {
  }

  /** An unpublish that holds the lock reports success only in a step of its own. */
  lemma OnlyOwnSteps(protocol: string, u: Machine, e: Event, r: nat)
    requires r in u.rpcs && (u.rpcs[r].UnpublishLocked? || u.rpcs[r].Revoking?)
    requires r in Next(protocol, u, e).rpcs && Next(protocol, u, e).rpcs[r] == Done(true)
    ensures (e.ReadLedger? || e.SaveLedger?) && e.r == r
  {
    hide Enumerates, Supports;
  }

  /** The steps of one unpublish of every node that nothing interrupts. */
  function UnpublishSteps(r: nat, order: seq<Node>): seq<Event> {
    [CallUnpublish(r, ""), Acquire(r), ReadLedger(r, order)]
    + if order == [] then [] else [Revoke(r, true, true), SaveLedger(r, true, true)]
  }

  lemma UnpublishPath(protocol: string, m: Machine, r: nat, order: seq<Node>)
    requires r !in m.rpcs && !m.locked && |order| <= 1 && Enumerates(order, m.ledger)
    ensures var u := Run(protocol, m, UnpublishSteps(r, order));
            && u.rpcs == m.rpcs[r := Done(true)] && u.ledger == map[]
            && u.access == m.access - m.ledger.Keys
  {
    var es := UnpublishSteps(r, order);
    var m1 := Next(protocol, m, es[0]);
    var m2 := Next(protocol, m1, es[1]);
    var m3 := Next(protocol, m2, es[2]);
    assert m2.rpcs[r] == UnpublishLocked("");
    assert es[1..][1..] == es[2..] && es[2..][1..] == es[3..];
    assert Run(protocol, m, es) == Run(protocol, m1, es[1..]) == Run(protocol, m2, es[2..])
        == Run(protocol, m3, es[3..]);
    if order == [] {
      assert es[3..] == [] && m.ledger == map[];
      assert m3.rpcs == m.rpcs[r := Done(true)];
    } else {
      var k := order[0];
      assert order == [k] && order[1..] == [] && m.ledger.Keys == {k};
      assert m3.rpcs[r] == Revoking("", [k], m.ledger);
      var m4 := Next(protocol, m3, es[3]);
      var m5 := Next(protocol, m4, es[4]);
      assert m4.rpcs[r] == Revoking("", [], m.ledger - {k}) && m.ledger - {k} == map[];
      assert es[3..][1..] == es[4..] && es[4..][1..] == [];
      assert Run(protocol, m3, es[3..]) == Run(protocol, m4, es[4..]) == Run(protocol, m5, []);
      assert m5.rpcs == m.rpcs[r := Done(true)];
    }
  }

  /** An unpublish of every node that succeeds leaves nobody served if and only if every node served
      was in the ledger. */
  lemma UnpublishAllIff(protocol: string, m: Machine, r: nat, order: seq<Node>)
    requires r !in m.rpcs && !m.locked && |order| <= 1 && Enumerates(order, m.ledger)
    ensures Run(protocol, m, UnpublishSteps(r, order)).access == {} <==> m.access <= m.ledger.Keys
  {
    hide Run, UnpublishSteps;
    UnpublishPath(protocol, m, r, order);
    if m.access - m.ledger.Keys == {} {
      forall n | n in m.access ensures n in m.ledger.Keys {
        assert n !in m.access - m.ledger.Keys;
      }
    }
  }

  /** After a lost save it does not: the unpublish of every node finds an empty ledger and succeeds
      while the node is still served. */
  lemma LostSaveOutlivesUnpublish()
    ensures var m := Machine(map[], {}, false, map[], {});
            var u := Run("iscsi", m, PublishSteps(0, "a", false, false) + UnpublishSteps(1, []));
            Fresh(m) && u.rpcs == map[0 := Done(false), 1 := Done(true)] && u.access == {"a"}
  {
    var m := Machine(map[], {}, false, map[], {});
    PublishPath("iscsi", m, 0, "a", false, false);
    var m1 := Machine(map[], {"a"}, false, map[0 := Done(false)], {"a"});
    UnpublishPath("iscsi", m1, 1, []);
    hide Run, Next, PublishSteps, UnpublishSteps;
    RunConcat("iscsi", m, PublishSteps(0, "a", false, false), UnpublishSteps(1, []));
    assert m1.access - m1.ledger.Keys == {"a"};
  }
}
