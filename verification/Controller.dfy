/** The two calls as they run: each is a path of the interleaved machine for one call. */
module PublishController {
  import Faults
  import opened Text
  import opened AccessModes
  import opened Locks
  import opened Publish

  /** Node ids holding a grant, in a stable order. */
  method Nodes(g: Ledger) returns (out: seq<Node>)
    ensures Enumerates(out, g) && SortedStrings(out)
  {
    out := [];
    var left := g.Keys;
    while left != {}
      invariant left <= g.Keys && SortedStrings(out)
      invariant forall n :: n in out <==> n in g && n !in left
      invariant forall i, j :: 0 <= i < j < |out| ==> out[i] != out[j]
    {
      var n :| n in left;
      InsertSorts(n, out);
      InsertFresh(n, out);
      out := Insert(n, out);
      left := left - {n};
    }
  }

  lemma {:induction false} InsertFresh(x: string, s: seq<string>)
    requires x !in s && forall i, j :: 0 <= i < j < |s| ==> s[i] != s[j]
    ensures var r := Insert(x, s);
            && (forall y :: y in r <==> y == x || y in s)
            && (forall i, j :: 0 <= i < j < |r| ==> r[i] != r[j])
  {
    if s != [] && Before(s[0], x) {
      InsertFresh(x, s[1..]);
      assert s == [s[0]] + s[1..];
    }
  }

  /** Merges two address lists without duplicates or blanks, in a stable order. */
  method Union(a: seq<string>, b: seq<string>) returns (out: seq<string>)
    ensures SortedStrings(out)
    ensures forall x :: x in out <==> x != "" && (x in a || x in b)
    ensures forall i, j :: 0 <= i < j < |out| ==> out[i] != out[j]
  {
    out := [];
    var all := a + b;
    for k := 0 to |all|
      invariant SortedStrings(out)
      invariant forall x :: x in out <==> x != "" && x in all[..k]
      invariant forall i, j :: 0 <= i < j < |out| ==> out[i] != out[j]
    {
      assert all[..k + 1] == all[..k] + [all[k]];
      if all[k] != "" && all[k] !in out {
        InsertSorts(all[k], out);
        InsertFresh(all[k], out);
        out := Insert(all[k], out);
      }
    }
    assert all[..|all|] == all;
  }

  /** What the call did is what some steps of call `r` alone do to the machine. */
  ghost predicate Walks(protocol: string, r: nat, before: Machine, trace: seq<Event>, after: Machine, ok: bool) {
    var u := Run(protocol, before, trace);
    && u.ledger == after.ledger && u.access == after.access && u.locked == after.locked
    && r in u.rpcs && u.rpcs[r] == Done(ok)
  }

  lemma Walk(protocol: string, m: Machine, trace: seq<Event>, e: Event)
    ensures Run(protocol, m, trace + [e]) == Next(protocol, Run(protocol, m, trace), e)
  {
    RunConcat(protocol, m, trace, [e]);
    var u := Run(protocol, m, trace);
    assert Run(protocol, u, [e]) == Run(protocol, Next(protocol, u, e), [e][1..]) == Next(protocol, u, e);
  }

  class Controller {
    const protocol: string
    const id: string
    const locks: VolumeLocks
    const reliable: bool
    var ledger: Ledger
    var access: set<Node>

    constructor (protocol: string, id: string, locks: VolumeLocks, reliable: bool, ledger: Ledger, access: set<Node>)
      ensures this.protocol == protocol && this.id == id && this.locks == locks && this.reliable == reliable
      ensures this.ledger == ledger && this.access == access
    {
      this.protocol, this.id, this.locks, this.reliable := protocol, id, locks, reliable;
      this.ledger, this.access := ledger, access;
    }

    /** The volume with no call in progress on it but whoever holds its lock. */
    ghost function Now(): Machine
      reads this, locks
    {
      Machine(ledger, access, id in locks.held, map[], {})
    }

    method ControllerPublishVolume(r: nat, node: Node, addrs: seq<string>, mode: Mode)
      returns (ok: bool, ghost trace: seq<Event>)
      modifies this, locks
      ensures Walks(protocol, r, old(Now()), trace, Now(), ok)
      ensures ok ==> ledger == old(ledger)[node := addrs] && access == old(access) + {node}
      ensures locks.held == old(locks.held)
      ensures reliable ==>
                (ok <==> && node != "" && id !in old(locks.held)
                         && (mode in ONE_NODE ==> old(ledger).Keys <= {node})
                         && (mode !in ONE_NODE ==> mode in SEVERAL_NODES && protocol in {"nfs", "smb"}))
    {
      ghost var m := Now();
      trace := [CallPublish(r, node, mode)];
      Walk(protocol, m, [], CallPublish(r, node, mode));
      assert [] + trace == trace;
      if node == "" || !Supports(protocol, mode) { return false, trace; }
      Walk(protocol, m, trace, Acquire(r));
      trace := trace + [Acquire(r)];
      var got := locks.TryAcquire(id);
      if !got { return false, trace; }
      ok, trace := PublishHeld(r, node, addrs, mode, m, trace);
      locks.Release(id);
    }

    /** Everything a publish does while it holds the lock. */
    method PublishHeld(r: nat, node: Node, addrs: seq<string>, mode: Mode, ghost m: Machine, ghost trace0: seq<Event>)
      returns (ok: bool, ghost trace: seq<Event>)
      requires Run(protocol, m, trace0) == Machine(ledger, access, true, map[r := PublishLocked(node, mode)], {})
      modifies this
      ensures var u := Run(protocol, m, trace);
              u.ledger == ledger && u.access == access && !u.locked && r in u.rpcs && u.rpcs[r] == Done(ok)
      ensures ok ==> ledger == old(ledger)[node := addrs] && access == old(access) + {node}
      ensures reliable ==> (ok <==> (SingleNode(mode) ==> old(ledger).Keys <= {node}))
    {
      hide Run;
      trace := trace0;
      var reached := Faults.Reach(reliable);
      if !reached {
        Walk(protocol, m, trace, ReadFails(r));
        return false, trace + [ReadFails(r)];
      }
      var grants := ledger;
      Walk(protocol, m, trace, ReadLedger(r, []));
      trace := trace + [ReadLedger(r, [])];
      if grants.Keys - {node} != {} && SingleNode(mode) { return false, trace; }
      ok, trace := GrantAndRecord(r, node, addrs, grants, m, trace);
    }

    method GrantAndRecord(r: nat, node: Node, addrs: seq<string>, grants: Ledger, ghost m: Machine,
                          ghost trace0: seq<Event>)
      returns (ok: bool, ghost trace: seq<Event>)
      requires grants == ledger
      requires Run(protocol, m, trace0) == Machine(ledger, access, true, map[r := PublishChecked(node, grants)], {})
      modifies this
      ensures var u := Run(protocol, m, trace);
              u.ledger == ledger && u.access == access && !u.locked && r in u.rpcs && u.rpcs[r] == Done(ok)
      ensures ok ==> ledger == old(ledger)[node := addrs] && access == old(access) + {node}
      ensures reliable ==> ok
    {
      hide Run;
      trace := trace0;
      var reached := Faults.Reach(reliable);
      if !reached {
        Walk(protocol, m, trace, ReadFails(r));
        return false, trace + [ReadFails(r)];
      }
      var granted := Faults.Reach(reliable);
      var landed := Faults.Reach(reliable);
      if granted || landed { access := access + {node}; }
      Walk(protocol, m, trace, Grant(r, addrs, granted, landed));
      trace := trace + [Grant(r, addrs, granted, landed)];
      if !granted { return false, trace; }
      ok := Faults.Reach(reliable);
      landed := Faults.Reach(reliable);
      if ok || landed { ledger := grants[node := addrs]; }
      Walk(protocol, m, trace, SaveLedger(r, ok, landed));
      trace := trace + [SaveLedger(r, ok, landed)];
    }

    method ControllerUnpublishVolume(r: nat, node: Node) returns (ok: bool, ghost trace: seq<Event>)
      modifies this, locks
      ensures Walks(protocol, r, old(Now()), trace, Now(), ok)
      ensures ok && node != "" ==> ledger == old(ledger) - {node} && access == old(access) - {node}
      ensures ok && node == "" ==> ledger == map[] && access == old(access) - old(ledger).Keys
      ensures locks.held == old(locks.held)
      ensures reliable ==> (ok <==> id !in old(locks.held))
    {
      ghost var m := Now();
      trace := [CallUnpublish(r, node)];
      Walk(protocol, m, [], CallUnpublish(r, node));
      assert [] + trace == trace;
      Walk(protocol, m, trace, Acquire(r));
      trace := trace + [Acquire(r)];
      var got := locks.TryAcquire(id);
      if !got { return false, trace; }
      ok, trace := UnpublishHeld(r, node, m, trace);
      locks.Release(id);
    }

    /** Everything an unpublish does while it holds the lock. */
    method UnpublishHeld(r: nat, node: Node, ghost m: Machine, ghost trace0: seq<Event>)
      returns (ok: bool, ghost trace: seq<Event>)
      requires Run(protocol, m, trace0) == Machine(ledger, access, true, map[r := UnpublishLocked(node)], {})
      modifies this
      ensures var u := Run(protocol, m, trace);
              u.ledger == ledger && u.access == access && !u.locked && r in u.rpcs && u.rpcs[r] == Done(ok)
      ensures ok && node != "" ==> ledger == old(ledger) - {node} && access == old(access) - {node}
      ensures ok && node == "" ==> ledger == map[] && access == old(access) - old(ledger).Keys
      ensures reliable ==> ok
    {
      hide Run;
      trace := trace0;
      var reached := Faults.Reach(reliable);
      if !reached {
        Walk(protocol, m, trace, ReadFails(r));
        return false, trace + [ReadFails(r)];
      }
      var grants := ledger;
      var order := Nodes(grants);
      var targets := if node == "" then order else [node];
      Walk(protocol, m, trace, ReadLedger(r, order));
      trace := trace + [ReadLedger(r, order)];
      if targets == [] {
        assert ledger.Keys == {};
        return true, trace;
      }
      ok, trace := RevokeAll(r, node, targets, m, trace);
    }

    method RevokeAll(r: nat, asked: Node, targets: seq<Node>, ghost m: Machine, ghost trace0: seq<Event>)
      returns (ok: bool, ghost trace: seq<Event>)
      requires Run(protocol, m, trace0) == Machine(ledger, access, true, map[r := Revoking(asked, targets, ledger)], {})
      modifies this
      ensures var u := Run(protocol, m, trace);
              u.ledger == ledger && u.access == access && !u.locked && r in u.rpcs && u.rpcs[r] == Done(ok)
      ensures ok ==> ledger == old(ledger) - (set n | n in targets) && access == old(access) - (set n | n in targets)
      ensures reliable ==> ok
    {
      hide Run, Next;
      trace := trace0;
      var grants := ledger;
      ghost var gone: set<Node> := {};
      assert targets[0..] == targets;
      for i := 0 to |targets|
        invariant ledger == old(ledger) && grants == old(ledger) - gone && access == old(access) - gone
        invariant gone == set n | n in targets[..i]
        invariant Run(protocol, m, trace)
               == Machine(ledger, access, true, map[r := Revoking(asked, targets[i..], grants)], {})
      {
        var done := Faults.Reach(reliable);
        var landed := Faults.Reach(reliable);
        Walk(protocol, m, trace, Revoke(r, done, landed));
        RevokeStep(protocol, r, asked, targets[i..], ledger, grants, access, done, landed);
        trace := trace + [Revoke(r, done, landed)];
        if done || landed { access := access - {targets[i]}; }
        if !done { return false, trace; }
        grants := grants - {targets[i]};
        gone := gone + {targets[i]};
        assert targets[i..][1..] == targets[i + 1..];
        assert targets[..i + 1] == targets[..i] + [targets[i]];
      }
      assert targets[|targets|..] == [] && targets[..|targets|] == targets;
      ok := Faults.Reach(reliable);
      var landed := Faults.Reach(reliable);
      Walk(protocol, m, trace, SaveLedger(r, ok, landed));
      RevokeSaved(protocol, r, asked, ledger, grants, access, ok, landed);
      if ok || landed { ledger := grants; }
      trace := trace + [SaveLedger(r, ok, landed)];
    }
  }

  lemma RevokeStep(protocol: string, r: nat, asked: Node, targets: seq<Node>, ledger: Ledger, grants: Ledger,
                   access: set<Node>, ok: bool, landed: bool)
    requires targets != []
    ensures var m := Machine(ledger, access, true, map[r := Revoking(asked, targets, grants)], {});
            var t := targets[0];
            Next(protocol, m, Revoke(r, ok, landed)) ==
            if ok then Machine(ledger, access - {t}, true, map[r := Revoking(asked, targets[1..], grants - {t})], {})
            else Machine(ledger, if landed then access - {t} else access, false, map[r := Done(false)], {})
  {
  }

  lemma RevokeSaved(protocol: string, r: nat, asked: Node, ledger: Ledger, grants: Ledger,
                    access: set<Node>, ok: bool, landed: bool)
    ensures var m := Machine(ledger, access, true, map[r := Revoking(asked, [], grants)], {});
            Next(protocol, m, SaveLedger(r, ok, landed)) ==
            Machine(if ok || landed then grants else ledger, access, false, map[r := Done(ok)], {})
  {
  }
}
