/** Force-deleting pods stuck on a failed node, once the appliance has cut the node off. */
module Fencing {
  import Faults
  import opened Wrappers
  import opened Volume
  import opened Connectivity

  datatype Condition = Condition(kind: string, status: string)
  datatype Taint = Taint(key: string, effect: string)
  datatype Node = Node(name: string, taints: seq<Taint>, conditions: seq<Condition>)

  /** A pod; a volume of it that is not a claim has no claim name. */
  datatype Pod = Pod(namespace: string, name: string, uid: string, labels: map<string, string>, node: string,
                     conditions: seq<Condition>, claims: seq<Option<string>>)

  /** A persistent volume: the CSI driver it belongs to, if to any, and its handle, if that parses. */
  datatype PersistentVolume = PersistentVolume(driver: Option<string>, handle: Option<ID>)

  datatype Cluster = Cluster(pods: map<(string, string), Pod>, nodes: map<string, Node>,
                             claims: map<(string, string), string>, volumes: map<string, PersistentVolume>)

  const TAINT_KEY := "csi.truenas.watteel.com/fenced"
  const NO_EXECUTE := "NoExecute"
  const UNREACHABLE := "node.kubernetes.io/unreachable"
  const NOT_READY := "node.kubernetes.io/not-ready"

  // Who is a candidate

  ghost predicate Ready(conditions: seq<Condition>) {
    exists i :: 0 <= i < |conditions| && conditions[i] == Condition("Ready", "True")
                && forall j :: 0 <= j < i ==> conditions[j].kind != "Ready"
  }

  /** The first Ready condition decides. */
  method PodIsReady(pod: Pod) returns (r: bool)
    ensures r <==> Ready(pod.conditions)
  {
    for i := 0 to |pod.conditions|
      invariant forall j :: 0 <= j < i ==> pod.conditions[j].kind != "Ready"
    {
      if pod.conditions[i].kind == "Ready" {
        return pod.conditions[i].status == "True";
      }
    }
    r := false;
  }

  predicate Condemns(t: Taint) {
    t.effect == NO_EXECUTE && (t.key == UNREACHABLE || t.key == NOT_READY)
  }

  ghost predicate Failed(node: Node) {
    || (exists t :: t in node.taints && Condemns(t))
    || (exists c :: c in node.conditions && c.kind == "Ready" && c.status != "True")
  }

  /** Kubernetes itself says the node is gone. A node that is only cordoned or drained is not. */
  method NodeHasFailed(node: Node) returns (r: bool)
    ensures r <==> Failed(node)
  {
    for i := 0 to |node.taints|
      invariant forall j :: 0 <= j < i ==> !Condemns(node.taints[j])
    {
      var t := node.taints[i];
      assert t in node.taints;
      if t.effect == NO_EXECUTE && (t.key == UNREACHABLE || t.key == NOT_READY) {
        return true;
      }
    }
    for i := 0 to |node.conditions|
      invariant forall j :: 0 <= j < i ==> !(node.conditions[j].kind == "Ready" && node.conditions[j].status != "True")
    {
      var c := node.conditions[i];
      assert c in node.conditions;
      if c.kind == "Ready" && c.status != "True" {
        return true;
      }
    }
    r := false;
  }

  // The volumes of a pod

  /** What one claim contributes: nothing, one of this driver's volumes, or a failure to tell. */
  function VolumeOf(c: Cluster, driver: string, namespace: string, claim: Option<string>): Option<seq<ID>> {
    if claim.None? then Some([])
    else if (namespace, claim.value) !in c.claims then None
    else
      var name := c.claims[(namespace, claim.value)];
      if name == "" then Some([])
      else if name !in c.volumes then None
      else
        var pv := c.volumes[name];
        if pv.driver != Some(driver) then Some([])
        else if pv.handle.None? then None
        else Some([pv.handle.value])
  }

  /** The pod's volumes of this driver, in order. */
  function Volumes(c: Cluster, driver: string, namespace: string, claims: seq<Option<string>>): seq<ID> {
    if claims == [] then []
    else
      var last := VolumeOf(c, driver, namespace, claims[|claims| - 1]);
      Volumes(c, driver, namespace, claims[..|claims| - 1]) + if last.Some? then last.value else []
  }

  /** The claim is bound to the volume of this name. */
  predicate BoundTo(c: Cluster, namespace: string, claim: Option<string>, name: string) {
    claim.Some? && (namespace, claim.value) in c.claims && c.claims[(namespace, claim.value)] == name && name != ""
  }

  /** The claim is bound to a volume of this driver, with this handle. */
  predicate Uses(c: Cluster, driver: string, namespace: string, claim: Option<string>, id: ID) {
    exists name :: name in c.volumes && BoundTo(c, namespace, claim, name)
                   && c.volumes[name] == PersistentVolume(Some(driver), Some(id))
  }

  /** The claim is missing, or it is bound to a volume that is missing, or to one of this driver whose
      handle does not parse. */
  predicate Unreadable(c: Cluster, driver: string, namespace: string, claim: Option<string>) {
    && claim.Some?
    && (|| (namespace, claim.value) !in c.claims
        || (c.claims[(namespace, claim.value)] != "" && c.claims[(namespace, claim.value)] !in c.volumes)
        || (exists name :: name in c.volumes && BoundTo(c, namespace, claim, name)
              && c.volumes[name] == PersistentVolume(Some(driver), None)))
  }

  ghost predicate Resolves(c: Cluster, driver: string, namespace: string, claims: seq<Option<string>>) {
    forall claim :: claim in claims ==> !Unreadable(c, driver, namespace, claim)
  }

  /** The ids are those of the claims at these places, which are all the claims with one, in order. */
  ghost predicate Picks(c: Cluster, driver: string, namespace: string, claims: seq<Option<string>>, ids: seq<ID>,
                        at: seq<int>) {
    && |at| == |ids|
    && (forall k :: 0 <= k < |at| ==> 0 <= at[k] < |claims| && Uses(c, driver, namespace, claims[at[k]], ids[k]))
    && (forall j, k :: 0 <= j < k < |at| ==> at[j] < at[k])
    && (forall i, id :: 0 <= i < |claims| && Uses(c, driver, namespace, claims[i], id) ==> i in at)
  }

  /** The ids of this driver's volumes that the claims use, one for each claim that does, in order. */
  ghost predicate Collects(c: Cluster, driver: string, namespace: string, claims: seq<Option<string>>, ids: seq<ID>) {
    exists at :: Picks(c, driver, namespace, claims, ids, at)
  }

  lemma VolumeOfIs(c: Cluster, driver: string, namespace: string, claim: Option<string>)
    ensures var r := VolumeOf(c, driver, namespace, claim);
            && (r.None? <==> Unreadable(c, driver, namespace, claim))
            && (r.Some? ==> |r.value| <= 1)
            && (forall id :: Uses(c, driver, namespace, claim, id) <==> r == Some([id]))
  {
  }

  lemma {:induction false} VolumesPick(c: Cluster, driver: string, namespace: string, claims: seq<Option<string>>)
    returns (at: seq<int>)
    ensures Picks(c, driver, namespace, claims, Volumes(c, driver, namespace, claims), at)
    decreases |claims|
  {
    hide VolumeOf, Uses;
    at := [];
    if claims != [] {
      hide Picks;
      var n := |claims| - 1;
      at := VolumesPick(c, driver, namespace, claims[..n]);
      at := PickMore(c, driver, namespace, claims, Volumes(c, driver, namespace, claims[..n]), at);
    }
  }

  lemma PickMore(c: Cluster, driver: string, namespace: string, claims: seq<Option<string>>, ids: seq<ID>, at: seq<int>)
    returns (more: seq<int>)
    requires claims != [] && Picks(c, driver, namespace, claims[..|claims| - 1], ids, at)
    ensures var last := VolumeOf(c, driver, namespace, claims[|claims| - 1]);
            Picks(c, driver, namespace, claims, ids + (if last.Some? then last.value else []), more)
  {
    hide VolumeOf, Uses;
    var n := |claims| - 1;
    var last := VolumeOf(c, driver, namespace, claims[n]);
    VolumeOfIs(c, driver, namespace, claims[n]);
    assert forall i :: 0 <= i < n ==> claims[..n][i] == claims[i];
    if last.Some? && last.value != [] {
      more := at + [n];
      assert last.value == [last.value[0]];
      assert Uses(c, driver, namespace, claims[n], last.value[0]);
      assert forall i :: i in at ==> i in more;
      assert more[|at|] == n;
    } else {
      more := at;
      assert forall id :: !Uses(c, driver, namespace, claims[n], id);
    }
  }

  lemma NoVolumes(c: Cluster, driver: string, namespace: string)
    ensures Volumes(c, driver, namespace, []) == []
  {
  }

  lemma VolumesSnoc(c: Cluster, driver: string, namespace: string, claims: seq<Option<string>>, i: nat)
    requires i < |claims|
    ensures var one := VolumeOf(c, driver, namespace, claims[i]);
            Volumes(c, driver, namespace, claims[..i + 1]) ==
            Volumes(c, driver, namespace, claims[..i]) + if one.Some? then one.value else []
  {
    assert claims[..i + 1][..i] == claims[..i];
  }

  /** What the volumes of a pod are, over the cluster's own objects. */
  lemma VolumesAre(c: Cluster, driver: string, namespace: string, claims: seq<Option<string>>)
    ensures Collects(c, driver, namespace, claims, Volumes(c, driver, namespace, claims))
    ensures forall id :: id in Volumes(c, driver, namespace, claims) <==>
                         exists i :: 0 <= i < |claims| && Uses(c, driver, namespace, claims[i], id)
  {
    hide VolumeOf, Uses, Volumes;
    var at := VolumesPick(c, driver, namespace, claims);
    var ids := Volumes(c, driver, namespace, claims);
    forall i, id | 0 <= i < |claims| && Uses(c, driver, namespace, claims[i], id) ensures id in ids {
      var k :| 0 <= k < |at| && at[k] == i;
      VolumeOfIs(c, driver, namespace, claims[i]);
      assert [ids[k]] == [id];
    }
  }

  // What is done

  datatype Action =
    | Checked(node: string, ids: seq<ID>, safe: bool)
    | Revoked(node: string, id: ID, done: bool)
    | Tainted(node: string)
    | Detached(node: string, ids: seq<ID>)
    | Deleted(namespace: string, name: string, uid: string)

  /** An action on the Kubernetes objects of a pod that is being fenced. */
  predicate Cleanup(a: Action) {
    a.Tainted? || a.Detached? || a.Deleted?
  }

  function Revokes(node: string, ids: seq<ID>): seq<Action> {
    seq(|ids|, i requires 0 <= i < |ids| => Revoked(node, ids[i], true))
  }

  /** What handling one pod may do: nothing; or ask about its volumes and refuse; or revoke until a
      revoke fails; or revoke them all and then clean up, deleting no pod but this one. */
  ghost predicate Legal(pod: Pod, node: string, ids: seq<ID>, done: seq<Action>) {
    || done == []
    || done == [Checked(node, ids, false)]
    || (exists j :: 0 <= j < |ids| && StoppedAt(node, ids, j, done))
    || (exists after :: done == Fenced(node, ids) + after && CleansUp(pod, node, ids, after))
  }

  /** The check and every revoke. */
  function Fenced(node: string, ids: seq<ID>): seq<Action> {
    [Checked(node, ids, true)] + Revokes(node, ids)
  }

  predicate StoppedAt(node: string, ids: seq<ID>, j: nat, done: seq<Action>)
    requires j < |ids|
  {
    done == [Checked(node, ids, true)] + Revokes(node, ids[..j]) + [Revoked(node, ids[j], false)]
  }

  ghost predicate CleansUp(pod: Pod, node: string, ids: seq<ID>, after: seq<Action>) {
    forall a :: a in after ==>
      a == Tainted(pod.node) || a == Detached(node, ids) || a == Deleted(pod.namespace, pod.name, pod.uid)
  }

  /** Before an action on Kubernetes objects, in the same pass, the volumes were found safe and every
      one of them was revoked. */
  ghost predicate Earned(done: seq<Action>, k: nat, node: string, ids: seq<ID>) {
    && k < |done|
    && Checked(node, ids, true) in done[..k]
    && forall id :: id in ids ==> Revoked(node, id, true) in done[..k]
  }

  /** Cleaning up is always earned, only ever deletes the pod listed, and never follows a revoke
      that failed. */
  lemma LegalIsEarned(pod: Pod, node: string, ids: seq<ID>, done: seq<Action>, k: nat)
    requires Legal(pod, node, ids, done) && k < |done| && Cleanup(done[k])
    ensures Earned(done, k, node, ids)
    ensures || done[k] == Tainted(pod.node)
            || done[k] == Detached(node, ids)
            || done[k] == Deleted(pod.namespace, pod.name, pod.uid)
    ensures forall a :: a in done && a.Revoked? ==> a.done
  {
    if exists j :: 0 <= j < |ids| && StoppedAt(node, ids, j, done) {
      var j :| 0 <= j < |ids| && StoppedAt(node, ids, j, done);
      StopsShort(node, ids, j, done);
    } else {
      var after :| done == Fenced(node, ids) + after && CleansUp(pod, node, ids, after);
      var head := Fenced(node, ids);
      assert done[..|head|] == head && k >= |head|;
      assert done[k] == after[k - |head|] && after[k - |head|] in after;
      forall a | a in done && a.Revoked? ensures a.done {
        assert a in head || a in after;
      }
      assert done[..k][0] == Checked(node, ids, true);
      forall id | id in ids ensures Revoked(node, id, true) in done[..k] {
        var i :| 0 <= i < |ids| && ids[i] == id;
        assert done[..k][i + 1] == Revokes(node, ids)[i];
      }
    }
  }

  lemma StopsShort(node: string, ids: seq<ID>, j: nat, done: seq<Action>)
    requires j < |ids| && StoppedAt(node, ids, j, done)
    ensures forall a :: a in done ==> !Cleanup(a)
  {
  }

  // The controller

  /** How the appliance answers a revoke. */
  datatype Answer = Plain | Missing | Lost

  class Controller {
    const labelKey: string
    const labelValue: string
    const driver: string
    const stale: int
    /** What each node is known to the appliances by. */
    const refs: map<string, NodeRef>
    /** No call fails. */
    const reliable: bool
    /** Nobody else changes the cluster, or connects to an appliance, meanwhile. */
    const alone: bool
    var cluster: Cluster
    /** What each appliance answers when asked who is connected. */
    var sees: map<string, Answers>
    /** The nodes the appliances let reach a volume. */
    var access: set<(string, ID)>
    var log: seq<Action>

    constructor (labelKey: string, labelValue: string, driver: string, stale: int, refs: map<string, NodeRef>,
                 reliable: bool, alone: bool, cluster: Cluster, sees: map<string, Answers>, access: set<(string, ID)>)
      ensures this.labelKey == labelKey && this.labelValue == labelValue && this.driver == driver
      ensures this.stale == stale && this.refs == refs && this.reliable == reliable && this.alone == alone
      ensures this.cluster == cluster && this.sees == sees && this.access == access && log == []
    {
      this.labelKey, this.labelValue, this.driver, this.stale, this.refs := labelKey, labelValue, driver, stale, refs;
      this.reliable, this.alone := reliable, alone;
      this.cluster, this.sees, this.access, log := cluster, sees, access, [];
    }

    /** Pods come and go, and so do sessions, between two calls. */
    method Others()
      modifies this`cluster, this`sees
      ensures alone ==> cluster == old(cluster) && sees == old(sees)
      ensures SameObjects(old(cluster), cluster)
    {
      if !alone {
        var pods: map<(string, string), Pod> := *;
        var now: map<string, Answers> := *;
        cluster, sees := cluster.(pods := pods), now;
      }
    }

    /** The pod's volumes of this driver, or nothing when any claim cannot be resolved. */
    method VolumesOf(pod: Pod) returns (r: Option<seq<ID>>)
      ensures r.Some? ==> Resolves(cluster, driver, pod.namespace, pod.claims)
      ensures r.Some? ==> r.value == Volumes(cluster, driver, pod.namespace, pod.claims)
      ensures r.Some? ==> Collects(cluster, driver, pod.namespace, pod.claims, r.value)
      ensures r.Some? ==> forall id :: id in r.value <==>
                exists i :: 0 <= i < |pod.claims| && Uses(cluster, driver, pod.namespace, pod.claims[i], id)
      ensures reliable ==> (r.Some? <==> Resolves(cluster, driver, pod.namespace, pod.claims))
    {
      hide VolumeOf, Uses, Unreadable, Volumes, Collects;
      var ids: seq<ID> := [];
      assert Volumes(cluster, driver, pod.namespace, pod.claims[..0]) == [] by {
        NoVolumes(cluster, driver, pod.namespace);
      }
      for i := 0 to |pod.claims|
        invariant ids == Volumes(cluster, driver, pod.namespace, pod.claims[..i])
        invariant forall j :: 0 <= j < i ==> !Unreadable(cluster, driver, pod.namespace, pod.claims[j])
      {
        VolumeOfIs(cluster, driver, pod.namespace, pod.claims[i]);
        VolumesSnoc(cluster, driver, pod.namespace, pod.claims, i);
        var one := Resolve(pod.namespace, pod.claims[i]);
        if one.None? {
          return None;
        }
        ids := ids + one.value;
      }
      assert pod.claims[..|pod.claims|] == pod.claims;
      VolumesAre(cluster, driver, pod.namespace, pod.claims);
      r := Some(ids);
    }

    method Resolve(namespace: string, claim: Option<string>) returns (r: Option<seq<ID>>)
      ensures r.Some? ==> r == VolumeOf(cluster, driver, namespace, claim)
      ensures reliable ==> r == VolumeOf(cluster, driver, namespace, claim)
    {
      if claim.None? {
        return Some([]);
      }
      var answered := Faults.Reach(reliable);
      if !answered || (namespace, claim.value) !in cluster.claims {
        return None;
      }
      var name := cluster.claims[(namespace, claim.value)];
      if name == "" {
        return Some([]);
      }
      answered := Faults.Reach(reliable);
      if !answered || name !in cluster.volumes {
        return None;
      }
      var pv := cluster.volumes[name];
      if pv.driver != Some(driver) {
        return Some([]);
      }
      if pv.handle.None? {
        return None;
      }
      r := Some([pv.handle.value]);
    }

    /** The appliances, seen like this, have no session or live lease of the node on any volume. */
    ghost predicate AllGone(sees: map<string, Answers>, node: string, ids: seq<ID>) {
      && ids != [] && node in refs
      && forall id :: id in ids ==>
           id.backend in sees && Gone(Some(refs[node]), id, sees[id.backend], stale)
    }

    /** Asks the appliances about every volume. It is safe only when the node is gone from them all. */
    method Ask(node: string, ids: seq<ID>) returns (safe: bool)
      modifies this`log
      ensures safe ==> AllGone(sees, node, ids)
      ensures reliable ==> (safe <==> AllGone(sees, node, ids))
      ensures log == old(log) + [Checked(node, ids, safe)]
    {
      hide Safe, ReportFor, Gone, AllGone;
      var resolved := Faults.Reach(reliable);
      var ref := if resolved then RefOf(refs, node) else None;
      var answers: seq<Answers> := [];
      for i := 0 to |ids|
        invariant |answers| == i && log == old(log)
        invariant forall j :: 0 <= j < i ==>
                    answers[j] == AnswersOf(sees, ids[j]) || (!reliable && answers[j] == NO_ANSWER)
      {
        var answered := Faults.Reach(reliable);
        answers := answers + [if answered then AnswersOf(sees, ids[i]) else NO_ANSWER];
      }
      var reports := Check(node, ref, ids, answers, stale);
      safe := SafeToFence(reports);
      log := log + [Checked(node, ids, safe)];
      AskedIs(node, ref, ids, answers, reports, stale);
      if safe && !resolved && ids != [] {
        NobodyIsGone(ids[0], answers[0], stale);
      }
      forall i | 0 <= i < |ids| && safe ensures answers[i] == AnswersOf(sees, ids[i]) {
        UnreachableIsNotGone(ref, ids[i], stale);
      }
      AllGoneIs(node, ids);
    }

    lemma AllGoneIs(node: string, ids: seq<ID>)
      ensures AllGone(sees, node, ids) <==>
              && ids != []
              && forall i :: 0 <= i < |ids| ==> Gone(RefOf(refs, node), ids[i], AnswersOf(sees, ids[i]), stale)
    {
      hide Gone, RefOf, AnswersOf;
      if AllGone(sees, node, ids) {
        forall i | 0 <= i < |ids| ensures Gone(RefOf(refs, node), ids[i], AnswersOf(sees, ids[i]), stale) {
          assert ids[i] in ids;
          GoneIff(refs, sees, node, ids[i], stale);
        }
      }
      if ids != [] && forall i :: 0 <= i < |ids| ==> Gone(RefOf(refs, node), ids[i], AnswersOf(sees, ids[i]), stale) {
        GoneIff(refs, sees, node, ids[0], stale);
        forall id | id in ids ensures id.backend in sees && Gone(Some(refs[node]), id, sees[id.backend], stale) {
          var i :| 0 <= i < |ids| && ids[i] == id;
          GoneIff(refs, sees, node, ids[i], stale);
        }
      }
    }

    /** Revokes one node's access to one volume. It counts as revoked also when the appliance says
        the volume is gone, which it says only of a volume nothing reaches. */
    method Revoke(node: string, id: ID) returns (ok: bool)
      modifies this`access
      ensures ok ==> access == old(access) - {(node, id)}
      ensures access == old(access) || access == old(access) - {(node, id)}
      ensures reliable ==> ok
    {
      var resolved := Faults.Reach(reliable);
      if !resolved {
        return false;
      }
      var answer: Answer := *;
      if answer == Missing && (node, id) !in access {
        return true;
      }
      ok := Faults.Reach(reliable);
      if ok || answer == Lost {
        access := access - {(node, id)};
      }
    }

    /** Revokes every volume, stopping at the first that cannot be. */
    method RevokeAll(node: string, ids: seq<ID>) returns (ok: bool)
      modifies this`log, this`access
      ensures ok ==> forall id :: id in ids ==> (node, id) !in access
      ensures access <= old(access) && forall a :: a in old(access) - access ==> a.0 == node && a.1 in ids
      ensures ok ==> log == old(log) + Revokes(node, ids)
      ensures !ok ==> exists j :: 0 <= j < |ids|
                                  && log == old(log) + Revokes(node, ids[..j]) + [Revoked(node, ids[j], false)]
      ensures reliable ==> ok
    {
      assert Revokes(node, ids[..0]) == [];
      for i := 0 to |ids|
        invariant log == old(log) + Revokes(node, ids[..i])
        invariant forall id :: id in ids[..i] ==> (node, id) !in access
        invariant access <= old(access) && forall a :: a in old(access) - access ==> a.0 == node && a.1 in ids
      {
        assert ids[..i + 1] == ids[..i] + [ids[i]];
        var done := Revoke(node, ids[i]);
        log := log + [Revoked(node, ids[i], done)];
        if !done {
          return false;
        }
        assert Revokes(node, ids[..i + 1]) == Revokes(node, ids[..i]) + [Revoked(node, ids[i], true)];
      }
      assert ids[..|ids|] == ids;
      ok := true;
    }

    /** Deletes the pod of this name only while it is still the pod with this UID. Whatever others did
        before the delete lands, either nothing goes, or the pod of that name alone does, and it had
        that UID; the log records the UID of what went. */
    method ForceDelete(pod: Pod) returns (ok: bool, ghost met: map<(string, string), Pod>)
      modifies this
      ensures SameObjects(old(cluster), cluster) && access == old(access)
      ensures alone ==> met == old(cluster.pods) && sees == old(sees)
      ensures || (cluster.pods == met && log == old(log))
              || (Removes(met, cluster.pods, pod)
                  && log == old(log) + [Deleted(pod.namespace, pod.name, met[(pod.namespace, pod.name)].uid)])
      ensures ok && (pod.namespace, pod.name) in met && met[(pod.namespace, pod.name)].uid == pod.uid ==>
                cluster.pods != met
      ensures reliable ==> ok
    {
      Others();
      met := cluster.pods;
      ok := Faults.Reach(reliable);
      var landed: bool := *;
      var key := (pod.namespace, pod.name);
      if (ok || landed) && key in cluster.pods && cluster.pods[key].uid == pod.uid {
        log := log + [Deleted(pod.namespace, pod.name, cluster.pods[key].uid)];
        cluster := cluster.(pods := cluster.pods - {key});
        assert key !in cluster.pods;
      }
    }

    /** Taints the node, lets go of its attachments and deletes the pod; only the last has to work. */
    method CleanUp(pod: Pod, node: Node, ids: seq<ID>) returns (ok: bool, ghost after: seq<Action>)
      modifies this
      ensures SameObjects(old(cluster), cluster) && access == old(access)
      ensures alone ==> sees == old(sees) && Loses(old(cluster.pods), cluster.pods, pod)
      ensures log == old(log) + after
      ensures forall a :: a in after ==>
                || a == Tainted(node.name)
                || a == Detached(pod.node, ids)
                || a == Deleted(pod.namespace, pod.name, pod.uid)
      ensures reliable && alone && Holds(old(cluster.pods), pod) ==> Deleted(pod.namespace, pod.name, pod.uid) in after
      ensures Tainted(node.name) in after <==> forall t :: t in node.taints ==> t.key != TAINT_KEY
      ensures Detached(pod.node, ids) in after
    {
      var tainted := false;
      for i := 0 to |node.taints|
        invariant tainted <==> exists j :: 0 <= j < i && node.taints[j].key == TAINT_KEY
      {
        tainted := tainted || node.taints[i].key == TAINT_KEY;
      }
      var actions := if tainted then [Detached(pod.node, ids)] else [Tainted(node.name), Detached(pod.node, ids)];
      assert actions[|actions| - 1] == Detached(pod.node, ids);
      assert Tainted(node.name) in actions <==> !tainted;
      log := log + actions;
      ghost var before := log;
      ghost var met;
      ok, met := ForceDelete(pod);
      after := actions + log[|before|..];
      assert forall a :: a in log[|before|..] ==> a.Deleted?;
    }

    /** The pod is one of those watched, it is placed and not ready, and its node has failed. */
    ghost predicate Candidate(c: Cluster, pod: Pod) {
      && labelKey in pod.labels && pod.labels[labelKey] == labelValue && pod.node != "" && !Ready(pod.conditions)
      && pod.node in c.nodes && Failed(c.nodes[pod.node])
    }

    /** A candidate that is still there, all of whose claims can be read, and one of them at least is
        bound to a volume of this driver. */
    ghost predicate Stuck(c: Cluster, pod: Pod) {
      && Candidate(c, pod) && (pod.namespace, pod.name) in c.pods && c.pods[(pod.namespace, pod.name)] == pod
      && Resolves(c, driver, pod.namespace, pod.claims)
      && exists i, id :: 0 <= i < |pod.claims| && Uses(c, driver, pod.namespace, pod.claims[i], id)
    }

    /** What handling a pod did was right: legal, and anything at all only for a candidate, about all
        the volumes of this driver that the pod of that UID has; and it went past asking only when the
        appliances, as they were seen then, had nothing of its node on any of them. */
    ghost predicate Proper(c: Cluster, pass: Pass) {
      var pod, live := pass.pod, pass.live;
      && live.uid == pod.uid && live.namespace == pod.namespace && live.name == pod.name
      && Legal(pod, live.node, pass.ids, pass.done)
      && (pass.done != [] ==>
            && Candidate(c, pod) && Resolves(c, driver, pod.namespace, live.claims)
            && pass.ids == Volumes(c, driver, pod.namespace, live.claims) && pass.ids != []
            && Collects(c, driver, pod.namespace, live.claims, pass.ids))
      && (Checked(live.node, pass.ids, true) in pass.done ==> AllGone(pass.sees, live.node, pass.ids))
    }

    /** Asks, revokes and cleans up, each only if the one before went well. */
    method Fence(live: Pod, node: Node, ids: seq<ID>) returns (ghost done: seq<Action>)
      modifies this
      ensures SameObjects(old(cluster), cluster)
      ensures alone ==> sees == old(sees) && Loses(old(cluster.pods), cluster.pods, live)
      ensures log == old(log) + done && done != [] && Legal(live.(node := node.name), live.node, ids, done)
      ensures Checked(live.node, ids, true) in done ==> AllGone(old(sees), live.node, ids)
      ensures access <= old(access) && forall a :: a in old(access) - access ==> a.0 == live.node && a.1 in ids
      ensures (exists a :: a in done && Cleanup(a)) ==> forall id :: id in ids ==> (live.node, id) !in access
      ensures reliable ==> done[0] == Checked(live.node, ids, AllGone(old(sees), live.node, ids))
      ensures reliable && alone && AllGone(old(sees), live.node, ids) && Holds(old(cluster.pods), live) ==>
                Deleted(live.namespace, live.name, live.uid) in done
    {
      hide AllGone, Revokes;
      ghost var was := log;
      var safe := Ask(live.node, ids);
      ghost var first := [Checked(live.node, ids, safe)];
      done := first;
      if !safe {
        return;
      }
      var revoked := RevokeAll(live.node, ids);
      if !revoked {
        ghost var j :| 0 <= j < |ids|
          && log == was + first + Revokes(live.node, ids[..j]) + [Revoked(live.node, ids[j], false)];
        done := first + Revokes(live.node, ids[..j]) + [Revoked(live.node, ids[j], false)];
        assert StoppedAt(live.node, ids, j, done);
        StopsShort(live.node, ids, j, done);
        return;
      }
      var _, after := CleanUp(live, node, ids);
      done := Fenced(live.node, ids) + after;
      assert log == was + done;
      assert CleansUp(live.(node := node.name), live.node, ids, after);
    }

    /** Runs the protocol for one pod of the listing. What it does is right; when it cleans up the node
        reaches none of the pod's volumes, and no other access is taken away. When nothing fails and
        nobody interferes, it asks about every stuck pod, and deletes it if its node is gone. */
    method Handle(pod: Pod) returns (ghost pass: Pass)
      requires NodesNamed(cluster)
      modifies this
      ensures SameObjects(old(cluster), cluster) && pass.pod == pod && Proper(old(cluster), pass)
      ensures alone ==> sees == old(sees) && Loses(old(cluster.pods), cluster.pods, pod)
      ensures alone && pass.done != [] ==> pass.sees == old(sees) && Reads(old(cluster.pods), pass.live)
      ensures log == old(log) + pass.done
      ensures access <= old(access) && forall a :: a in old(access) - access ==>
                a.0 == pass.live.node && a.1 in pass.ids
      ensures (exists a :: a in pass.done && Cleanup(a)) ==>
                forall id :: id in pass.ids ==> (pass.live.node, id) !in access
      ensures reliable && alone && Stuck(old(cluster), pod) ==>
                Settles(old(sees), pod, VolumesIn(old(cluster), pod), pass.done)
    {
      hide AllGone, Ready, Failed, Volumes, Resolves, Collects, Uses, Legal;
      pass := Pass(pod, pod, [], sees, []);
      assert Legal(pod, pod.node, [], []) by { DoingNothing(pod); }
      if labelKey !in pod.labels || pod.labels[labelKey] != labelValue {
        return;
      }
      var ready := PodIsReady(pod);
      if pod.node == "" || ready {
        return;
      }
      var answered := Faults.Reach(reliable);
      if !answered || pod.node !in cluster.nodes {
        return;
      }
      var node := cluster.nodes[pod.node];
      var failed := NodeHasFailed(node);
      if !failed {
        return;
      }
      Others();
      answered := Faults.Reach(reliable);
      var key := (pod.namespace, pod.name);
      if !answered || key !in cluster.pods || cluster.pods[key].uid != pod.uid {
        return;
      }
      var live := cluster.pods[key].(namespace := pod.namespace, name := pod.name);
      SameVolumes(old(cluster), cluster, driver, pod.namespace, live.claims);
      var ids := VolumesOf(live);
      if ids.Some? { SameCollects(cluster, old(cluster), driver, pod.namespace, live.claims, ids.value); }
      if ids.Some? && ids.value == [] { NoneUsed(old(cluster), driver, pod.namespace, live.claims); }
      if ids.None? || ids.value == [] {
        return;
      }
      ghost var seen := sees;
      ghost var done := Fence(live, node, ids.value);
      LegalSame(live.(node := node.name), pod, live.node, ids.value, done);
      pass := Pass(pod, live, ids.value, seen, done);
    }

    function VolumesIn(c: Cluster, pod: Pod): seq<ID> {
      Volumes(c, driver, pod.namespace, pod.claims)
    }

    /** A stuck pod is asked about, and deleted if its node is gone. */
    ghost predicate Settles(sees: map<string, Answers>, pod: Pod, ids: seq<ID>, done: seq<Action>) {
      && done != [] && done[0] == Checked(pod.node, ids, AllGone(sees, pod.node, ids))
      && (AllGone(sees, pod.node, ids) ==> Deleted(pod.namespace, pod.name, pod.uid) in done)
    }

    /** Examines every pod of a listing once. The log is the passes over the pods one after another,
        each of them proper; so every action on Kubernetes objects is justified by the pass it belongs
        to. When nothing fails and nobody interferes, every stuck pod of the listing is settled. */
    method Sweep(pods: seq<Pod>) returns (ghost passes: seq<Pass>)
      requires NodesNamed(cluster)
      modifies this
      ensures |passes| == |pods| && log == old(log) + Joined(passes)
      ensures forall i :: 0 <= i < |pods| ==> passes[i].pod == pods[i] && Proper(old(cluster), passes[i])
      ensures forall k :: 0 <= k < |Joined(passes)| && Cleanup(Joined(passes)[k]) ==>
                Justified(old(cluster), pods, Joined(passes), k)
      ensures reliable && alone && DistinctPods(pods) ==>
                forall i :: 0 <= i < |pods| && Stuck(old(cluster), pods[i]) ==>
                  Settles(old(sees), pods[i], VolumesIn(old(cluster), pods[i]), passes[i].done)
    {
      hide Proper, Settles, AllGone, Volumes, Resolves, Candidate, Justified, Cleanup;
      passes := [];
      for i := 0 to |pods|
        invariant SameObjects(old(cluster), cluster) && |passes| == i && log == old(log) + Joined(passes)
        invariant forall j :: 0 <= j < i ==> passes[j].pod == pods[j] && Proper(old(cluster), passes[j])
        invariant alone ==> sees == old(sees)
        invariant alone && DistinctPods(pods) ==> forall j :: i <= j < |pods| ==>
                    SamePod(old(cluster.pods), cluster.pods, pods[j])
        invariant reliable && alone && DistinctPods(pods) ==>
                    forall j :: 0 <= j < i && Stuck(old(cluster), pods[j]) ==>
                      Settles(old(sees), pods[j], VolumesIn(old(cluster), pods[j]), passes[j].done)
      {
        ghost var before := cluster;
        var pass := Handle(pods[i]);
        SameProper(before, old(cluster), pass);
        SameVolumes(before, old(cluster), driver, pods[i].namespace, pods[i].claims);
        SameCandidate(before, old(cluster), pods[i]);
        JoinedSnoc(passes, pass);
        passes := passes + [pass];
      }
      forall k | 0 <= k < |Joined(passes)| && Cleanup(Joined(passes)[k])
        ensures Justified(old(cluster), pods, Joined(passes), k)
      {
        JustifiedBy(old(cluster), pods, passes, k);
      }
    }

    /** The action at k is the work of one pass over a listed pod, a stretch of what was done: there the
        pod's volumes, all of them, were found safe and each of them revoked before it, no revoke
        failed, and it taints that pod's node, lets go of those volumes or deletes that very pod. */
    ghost predicate Justified(c: Cluster, pods: seq<Pod>, done: seq<Action>, k: nat)
      requires k < |done|
    {
      exists pass: Pass, from: nat :: pass.pod in pods && Proper(c, pass) && Justifies(pass, done, from, k)
    }

    lemma JustifiedBy(c: Cluster, pods: seq<Pod>, passes: seq<Pass>, k: nat)
      requires |passes| == |pods| && forall i :: 0 <= i < |pods| ==> passes[i].pod == pods[i] && Proper(c, passes[i])
      requires k < |Joined(passes)| && Cleanup(Joined(passes)[k])
      ensures Justified(c, pods, Joined(passes), k)
    {
      hide AllGone, Candidate, Volumes, Resolves, Legal, Earned, Cleanup;
      var i, from := Locate(passes, k);
      var pass := passes[i];
      assert pass.pod == pods[i] && pods[i] in pods && Proper(c, pass);
      LegalIsEarned(pass.pod, pass.live.node, pass.ids, pass.done, k - from);
      assert Justifies(pass, Joined(passes), from, k);
    }

    lemma SameProper(a: Cluster, b: Cluster, pass: Pass)
      requires SameObjects(a, b) && Proper(a, pass)
      ensures Proper(b, pass)
    {
      hide AllGone, Legal, Volumes, Resolves, Collects;
      SameVolumes(a, b, driver, pass.pod.namespace, pass.live.claims);
      if pass.done != [] { SameCollects(a, b, driver, pass.pod.namespace, pass.live.claims, pass.ids); }
    }

    lemma SameCandidate(a: Cluster, b: Cluster, pod: Pod)
      requires SameObjects(a, b)
      ensures Candidate(a, pod) == Candidate(b, pod)
    {
    }
  }

  /** One pod handled: as listed and as read again, its volumes, what the appliances were seen to
      answer, and what was done. */
  datatype Pass = Pass(pod: Pod, live: Pod, ids: seq<ID>, sees: map<string, Answers>, done: seq<Action>)

  const NO_ANSWER := Answers(false, None, None, None)

  function RefOf(refs: map<string, NodeRef>, node: string): Option<NodeRef> {
    if node in refs then Some(refs[node]) else None
  }

  function AnswersOf(sees: map<string, Answers>, id: ID): Answers {
    if id.backend in sees then sees[id.backend] else NO_ANSWER
  }

  lemma AskedIs(node: string, ref: Option<NodeRef>, ids: seq<ID>, answers: seq<Answers>, reports: seq<Report>,
                stale: int)
    requires |answers| == |ids| == |reports|
    requires forall i :: 0 <= i < |ids| ==> reports[i] == ReportFor(node, ref, ids[i], answers[i], stale)
    ensures AllSafe(reports) <==> ids != [] && forall i :: 0 <= i < |ids| ==> Gone(ref, ids[i], answers[i], stale)
  {
    hide Safe, ReportFor, Gone;
    forall i | 0 <= i < |ids| ensures Safe(reports[i]) <==> Gone(ref, ids[i], answers[i], stale) {
      SafeIff(node, ref, ids[i], answers[i], stale);
    }
    assert forall i :: 0 <= i < |ids| ==> reports[i] in reports;
  }

  lemma GoneIff(refs: map<string, NodeRef>, sees: map<string, Answers>, node: string, id: ID, stale: int)
    ensures Gone(RefOf(refs, node), id, AnswersOf(sees, id), stale) <==>
            node in refs && id.backend in sees && Gone(Some(refs[node]), id, sees[id.backend], stale)
  {
    NobodyIsGone(id, AnswersOf(sees, id), stale);
    UnreachableIsNotGone(RefOf(refs, node), id, stale);
  }

  lemma NobodyIsGone(id: ID, a: Answers, stale: int)
    ensures !Gone(None, id, a, stale)
  {
  }

  lemma UnreachableIsNotGone(ref: Option<NodeRef>, id: ID, stale: int)
    ensures !Gone(ref, id, NO_ANSWER, stale)
  {
  }

  ghost predicate NodesNamed(c: Cluster) {
    forall n :: n in c.nodes ==> c.nodes[n].name == n
  }

  ghost predicate SameObjects(a: Cluster, b: Cluster) {
    a.nodes == b.nodes && a.claims == b.claims && a.volumes == b.volumes
  }

  /** The pod of this name, and no other, is gone, and it had this UID. */
  ghost predicate Removes(before: map<(string, string), Pod>, after: map<(string, string), Pod>, pod: Pod) {
    Holds(before, pod) && after == before - {(pod.namespace, pod.name)}
  }

  ghost predicate Holds(pods: map<(string, string), Pod>, pod: Pod) {
    (pod.namespace, pod.name) in pods && pods[(pod.namespace, pod.name)].uid == pod.uid
  }

  ghost predicate Loses(before: map<(string, string), Pod>, after: map<(string, string), Pod>, pod: Pod) {
    after == before || Removes(before, after, pod)
  }

  ghost predicate Reads(pods: map<(string, string), Pod>, live: Pod) {
    (live.namespace, live.name) in pods
    && live == pods[(live.namespace, live.name)].(namespace := live.namespace, name := live.name)
  }

  ghost predicate SamePod(a: map<(string, string), Pod>, b: map<(string, string), Pod>, pod: Pod) {
    var key := (pod.namespace, pod.name);
    (key in a <==> key in b) && (key in a ==> a[key] == b[key])
  }

  ghost predicate DistinctPods(pods: seq<Pod>) {
    forall i, j :: 0 <= i < j < |pods| ==> (pods[i].namespace, pods[i].name) != (pods[j].namespace, pods[j].name)
  }

  lemma DoingNothing(pod: Pod)
    ensures Legal(pod, pod.node, [], [])
  {
  }

  function Joined(passes: seq<Pass>): seq<Action> {
    if passes == [] then [] else Joined(passes[..|passes| - 1]) + passes[|passes| - 1].done
  }

  lemma JoinedSnoc(passes: seq<Pass>, pass: Pass)
    ensures Joined(passes + [pass]) == Joined(passes) + pass.done
  {
    assert (passes + [pass])[..|passes|] == passes;
  }

  /** The pass an action belongs to, and where that pass begins. */
  lemma {:induction false} Locate(passes: seq<Pass>, k: nat) returns (i: nat, from: nat)
    requires k < |Joined(passes)|
    ensures i < |passes| && from <= k < from + |passes[i].done| <= |Joined(passes)|
    ensures Joined(passes)[from..from + |passes[i].done|] == passes[i].done
    decreases |passes|
  {
    var n := |passes| - 1;
    var before := Joined(passes[..n]);
    if k < |before| {
      i, from := Locate(passes[..n], k);
      var to := from + |passes[i].done|;
      assert (before + passes[n].done)[from..to] == before[from..to];
    } else {
      i, from := n, |before|;
    }
  }

  ghost predicate Justifies(pass: Pass, done: seq<Action>, from: nat, k: nat) {
    && from <= k < from + |pass.done| <= |done| && done[from..from + |pass.done|] == pass.done
    && Earned(pass.done, k - from, pass.live.node, pass.ids)
    && (forall a :: a in pass.done && a.Revoked? ==> a.done)
    && (|| done[k] == Tainted(pass.pod.node)
        || done[k] == Detached(pass.live.node, pass.ids)
        || done[k] == Deleted(pass.pod.namespace, pass.pod.name, pass.pod.uid))
  }

  lemma {:induction false} SameVolumes(a: Cluster, b: Cluster, driver: string, namespace: string,
                                       claims: seq<Option<string>>)
    requires a.claims == b.claims && a.volumes == b.volumes
    ensures Volumes(a, driver, namespace, claims) == Volumes(b, driver, namespace, claims)
    ensures Resolves(a, driver, namespace, claims) == Resolves(b, driver, namespace, claims)
    ensures forall i, id :: 0 <= i < |claims| ==>
              Uses(a, driver, namespace, claims[i], id) == Uses(b, driver, namespace, claims[i], id)
    decreases |claims|
  {
    assert forall v :: VolumeOf(a, driver, namespace, v) == VolumeOf(b, driver, namespace, v);
    if claims != [] {
      SameVolumes(a, b, driver, namespace, claims[..|claims| - 1]);
    }
  }

  lemma SameCollects(a: Cluster, b: Cluster, driver: string, namespace: string, claims: seq<Option<string>>,
                     ids: seq<ID>)
    requires a.claims == b.claims && a.volumes == b.volumes && Collects(a, driver, namespace, claims, ids)
    ensures Collects(b, driver, namespace, claims, ids)
  {
    var at :| Picks(a, driver, namespace, claims, ids, at);
    assert forall claim, id :: Uses(a, driver, namespace, claim, id) == Uses(b, driver, namespace, claim, id);
    hide Uses;
    assert Picks(b, driver, namespace, claims, ids, at);
  }

  lemma NoneUsed(c: Cluster, driver: string, namespace: string, claims: seq<Option<string>>)
    requires Collects(c, driver, namespace, claims, [])
    ensures forall i, id :: 0 <= i < |claims| ==> !Uses(c, driver, namespace, claims[i], id)
  {
  }

  lemma LegalSame(p: Pod, q: Pod, node: string, ids: seq<ID>, done: seq<Action>)
    requires Legal(p, node, ids, done)
    requires p.namespace == q.namespace && p.name == q.name && p.uid == q.uid && p.node == q.node
    ensures Legal(q, node, ids, done)
  {
    if exists after :: done == Fenced(node, ids) + after && CleansUp(p, node, ids, after) {
      var after :| done == Fenced(node, ids) + after && CleansUp(p, node, ids, after);
      assert CleansUp(q, node, ids, after);
    }
  }
}
