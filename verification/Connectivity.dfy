/** Whether the appliance still sees a node holding a volume, and when that permits fencing it. */
module Connectivity {
  import opened Wrappers
  import opened Volume

  datatype State = Unknown | Connected | Disconnected | Unobservable

  datatype Signal = Signal(kind: string, state: State, leaseAge: int)

  datatype Report = Report(node: string, volume: ID, signals: seq<Signal>, errors: seq<string>)

  const VOLUME_IO := "volume-io"
  const RENEW_AGE_UNKNOWN := -1

  /** The unobservable signals that do not stand in the way. */
  const SUBSUMED := [VOLUME_IO]

  // The verdict

  predicate Blocks(s: Signal) {
    match s.state
    case Connected => true
    case Unknown => true
    case Unobservable => s.kind !in SUBSUMED
    case Disconnected => false
  }

  /** Nothing went wrong while asking, nothing stands in the way, and something was positively seen
      to be gone. */
  ghost predicate Safe(r: Report) {
    && r.errors == []
    && (forall s :: s in r.signals ==> !Blocks(s))
    && SeenGone(r.signals)
  }

  ghost predicate SeenGone(signals: seq<Signal>) {
    exists s :: s in signals && s.state == Disconnected
  }

  function Blocking(signals: seq<Signal>): (r: seq<Signal>) {
    if signals == [] then []
    else
      var last := signals[|signals| - 1];
      Blocking(signals[..|signals| - 1]) + if Blocks(last) then [last] else []
  }

  lemma {:induction false} BlockingIs(signals: seq<Signal>)
    ensures forall s :: s in Blocking(signals) <==> s in signals && Blocks(s)
    decreases |signals|
  {
    hide Blocks;
    if signals != [] {
      var n := |signals| - 1;
      BlockingIs(signals[..n]);
      assert signals == signals[..n] + [signals[n]];
    }
  }

  lemma SeenSnoc(signals: seq<Signal>, s: Signal)
    ensures SeenGone(signals + [s]) <==> SeenGone(signals) || s.state == Disconnected
    ensures Blocking(signals + [s]) == Blocking(signals) + if Blocks(s) then [s] else []
  {
    assert (signals + [s])[..|signals|] == signals;
    if SeenGone(signals) {
      var t :| t in signals && t.state == Disconnected;
      assert t in signals + [s];
    }
    assert s in signals + [s];
  }

  lemma NothingSeen()
    ensures !SeenGone([]) && Blocking([]) == []
  {
  }

  method Verdict(r: Report) returns (safe: bool, blocking: seq<Signal>)
    ensures safe <==> Safe(r)
    ensures r.errors == [] ==> blocking == Blocking(r.signals)
    ensures r.errors == [] ==> forall s :: s in blocking <==> s in r.signals && Blocks(s)
    ensures r.errors != [] ==> blocking == []
  {
    hide SeenGone, Blocking;
    assert SeenGone([]) == false && Blocking([]) == [] by { NothingSeen(); }
    blocking := [];
    if r.errors != [] {
      return false, [];
    }
    var disconnected := 0;
    var i := 0;
    while i < |r.signals|
      invariant 0 <= i <= |r.signals|
      invariant blocking == Blocking(r.signals[..i])
      invariant disconnected >= 0 && (disconnected > 0 <==> SeenGone(r.signals[..i]))
    {
      var s := r.signals[i];
      assert r.signals[..i + 1] == r.signals[..i] + [s];
      SeenSnoc(r.signals[..i], s);
      match s.state {
        case Disconnected => disconnected := disconnected + 1;
        case Connected => blocking := blocking + [s];
        case Unknown => blocking := blocking + [s];
        case Unobservable =>
          if s.kind !in SUBSUMED {
            blocking := blocking + [s];
          }
      }
      i := i + 1;
    }
    assert r.signals[..|r.signals|] == r.signals;
    BlockingIs(r.signals);
    if |blocking| > 0 {
      assert blocking[0] in blocking;
      return false, blocking;
    }
    safe := disconnected != 0;
  }

  ghost predicate AllSafe(reports: seq<Report>) {
    reports != [] && forall r :: r in reports ==> Safe(r)
  }

  method SafeToFence(reports: seq<Report>) returns (safe: bool)
    ensures safe <==> AllSafe(reports)
  {
    hide Safe;
    if reports == [] {
      return false;
    }
    for i := 0 to |reports|
      invariant forall j :: 0 <= j < i ==> Safe(reports[j])
    {
      var ok, _ := Verdict(reports[i]);
      if !ok {
        return false;
      }
    }
    safe := true;
  }

  // What the appliance lists

  datatype NodeRef = NodeRef(id: string, addrs: seq<string>, iqn: string, nqn: string)

  /** A session as the appliance names it: by the initiator's or host's name and its address. */
  datatype Session = Session(name: string, addr: string)

  datatype Client = Client(address: string, renewAge: int)

  /** What one appliance answered when asked about one volume. */
  datatype Answers = Answers(reachable: bool, iscsi: Option<seq<Session>>, nvme: Option<seq<Session>>,
                             nfs: Option<seq<Client>>)

  predicate FromNode(s: Session, name: string, addrs: seq<string>) {
    (name != "" && s.name == name) || (s.addr != "" && s.addr in addrs)
  }

  /** The state a session listing gives: what it is when none of the sessions is the node's is the
      protocol's to say. */
  ghost function SessionState(listing: Option<seq<Session>>, name: string, addrs: seq<string>, absent: State): State {
    if listing.None? then Unknown
    else if exists s :: s in listing.value && FromNode(s, name, addrs) then Connected
    else absent
  }

  method CheckISCSI(node: NodeRef, listing: Option<seq<Session>>) returns (sig: Signal, errors: seq<string>)
    ensures sig == Signal("iscsi-session", SessionState(listing, node.iqn, node.addrs, Disconnected), RENEW_AGE_UNKNOWN)
    ensures errors == if listing.None? then ["listing iSCSI sessions"] else []
  {
    if listing.None? {
      return Signal("iscsi-session", Unknown, RENEW_AGE_UNKNOWN), ["listing iSCSI sessions"];
    }
    for i := 0 to |listing.value|
      invariant forall j :: 0 <= j < i ==> !FromNode(listing.value[j], node.iqn, node.addrs)
    {
      var s := listing.value[i];
      assert s in listing.value;
      if node.iqn != "" && s.name == node.iqn {
        return Signal("iscsi-session", Connected, RENEW_AGE_UNKNOWN), [];
      }
      if s.addr != "" && s.addr in node.addrs {
        return Signal("iscsi-session", Connected, RENEW_AGE_UNKNOWN), [];
      }
    }
    return Signal("iscsi-session", Disconnected, RENEW_AGE_UNKNOWN), [];
  }

  method CheckNVMe(node: NodeRef, listing: Option<seq<Session>>) returns (sig: Signal, errors: seq<string>)
    ensures sig == Signal("nvme-session",
                          SessionState(listing, node.nqn, node.addrs, if node.nqn == "" then Unknown else Disconnected),
                          RENEW_AGE_UNKNOWN)
    ensures errors == if listing.None? then ["listing NVMe-oF sessions"] else []
  {
    if listing.None? {
      return Signal("nvme-session", Unknown, RENEW_AGE_UNKNOWN), ["listing NVMe-oF sessions"];
    }
    for i := 0 to |listing.value|
      invariant forall j :: 0 <= j < i ==> !FromNode(listing.value[j], node.nqn, node.addrs)
    {
      var s := listing.value[i];
      assert s in listing.value;
      if node.nqn != "" && s.name == node.nqn {
        return Signal("nvme-session", Connected, RENEW_AGE_UNKNOWN), [];
      }
      if s.addr != "" && s.addr in node.addrs {
        return Signal("nvme-session", Connected, RENEW_AGE_UNKNOWN), [];
      }
    }
    if node.nqn == "" {
      return Signal("nvme-session", Unknown, RENEW_AGE_UNKNOWN), [];
    }
    return Signal("nvme-session", Disconnected, RENEW_AGE_UNKNOWN), [];
  }

  /** The first client listed at one of the node's addresses, which alone decides. */
  function FirstClient(clients: seq<Client>, addrs: seq<string>): Option<Client> {
    if clients == [] then None
    else if clients[0].address in addrs then Some(clients[0])
    else FirstClient(clients[1..], addrs)
  }

  /** The first client listed that is at one of the node's addresses. */
  predicate IsFirst(clients: seq<Client>, addrs: seq<string>, i: nat) {
    i < |clients| && clients[i].address in addrs && forall j :: 0 <= j < i ==> clients[j].address !in addrs
  }

  lemma {:induction false} FirstClientIs(clients: seq<Client>, addrs: seq<string>)
    ensures var c := FirstClient(clients, addrs);
            && (c.None? <==> forall i :: 0 <= i < |clients| ==> clients[i].address !in addrs)
            && (c.Some? ==> exists i: nat :: IsFirst(clients, addrs, i) && clients[i] == c.value)
            && (forall i: nat :: IsFirst(clients, addrs, i) ==> c == Some(clients[i]))
  {
    if clients != [] {
      var rest := clients[1..];
      FirstClientIs(rest, addrs);
      assert forall i :: 0 <= i < |rest| ==> rest[i] == clients[i + 1];
      if clients[0].address in addrs {
        assert IsFirst(clients, addrs, 0);
      } else {
        forall i: nat | IsFirst(clients, addrs, i) ensures IsFirst(rest, addrs, i - 1) {}
        if FirstClient(rest, addrs).Some? {
          var i: nat :| IsFirst(rest, addrs, i) && rest[i] == FirstClient(rest, addrs).value;
          assert IsFirst(clients, addrs, i + 1);
        }
      }
    }
  }

  function LeaseState(age: int, stale: int): State {
    if age == RENEW_AGE_UNKNOWN then Unknown
    else if age <= stale then Connected
    else Disconnected
  }

  function NFSSignal(listing: Option<seq<Client>>, addrs: seq<string>, stale: int): Signal {
    if listing.None? then Signal("nfs-lease", Unknown, RENEW_AGE_UNKNOWN)
    else
      var c := FirstClient(listing.value, addrs);
      if c.None? then Signal("nfs-lease", Disconnected, RENEW_AGE_UNKNOWN)
      else Signal("nfs-lease", LeaseState(c.value.renewAge, stale), c.value.renewAge)
  }

  method CheckNFS(node: NodeRef, listing: Option<seq<Client>>, stale: int) returns (sig: Signal, errors: seq<string>)
    ensures sig == NFSSignal(listing, node.addrs, stale) && sig.kind == "nfs-lease"
    ensures listing.None? ==> sig.state == Unknown
    ensures listing.Some? ==> forall i: nat :: IsFirst(listing.value, node.addrs, i) ==>
              var age := listing.value[i].renewAge;
              && sig.leaseAge == age && (sig.state == Unknown <==> age == RENEW_AGE_UNKNOWN)
              && (sig.state == Disconnected <==> age != RENEW_AGE_UNKNOWN && age > stale)
              && (sig.state == Connected <==> age != RENEW_AGE_UNKNOWN && age <= stale)
    ensures listing.Some? && (forall c :: c in listing.value ==> c.address !in node.addrs) ==>
              sig == Signal("nfs-lease", Disconnected, RENEW_AGE_UNKNOWN)
    ensures errors == if listing.None? then ["listing NFS clients"] else []
  {
    if listing.None? {
      return Signal("nfs-lease", Unknown, RENEW_AGE_UNKNOWN), ["listing NFS clients"];
    }
    var clients := listing.value;
    assert clients[0..] == clients;
    FirstClientIs(clients, node.addrs);
    for i := 0 to |clients|
      invariant FirstClient(clients, node.addrs) == FirstClient(clients[i..], node.addrs)
    {
      assert clients[i..][1..] == clients[i + 1..];
      if clients[i].address !in node.addrs {
        continue;
      }
      var age := clients[i].renewAge;
      if age == RENEW_AGE_UNKNOWN {
        return Signal("nfs-lease", Unknown, age), [];
      } else if age <= stale {
        return Signal("nfs-lease", Connected, age), [];
      }
      return Signal("nfs-lease", Disconnected, age), [];
    }
    return Signal("nfs-lease", Disconnected, RENEW_AGE_UNKNOWN), [];
  }

  /** Resolving a node that can be told by neither an address nor an initiator name is an error. */
  predicate Identified(node: Option<NodeRef>) {
    node.Some? && !(node.value.addrs == [] && node.value.iqn == "")
  }

  // The report

  ghost function ProtocolSignal(node: NodeRef, id: ID, a: Answers, stale: int): Signal {
    if id.protocol == "iscsi" then
      Signal("iscsi-session", SessionState(a.iscsi, node.iqn, node.addrs, Disconnected), RENEW_AGE_UNKNOWN)
    else if id.protocol == "nfs" then
      NFSSignal(a.nfs, node.addrs, stale)
    else if id.protocol == "smb" then
      Signal("smb-session", Unknown, RENEW_AGE_UNKNOWN)
    else if id.protocol == "nvme" then
      Signal("nvme-session",
             SessionState(a.nvme, node.nqn, node.addrs, if node.nqn == "" then Unknown else Disconnected),
             RENEW_AGE_UNKNOWN)
    else
      Signal(id.protocol + "-session", Unknown, RENEW_AGE_UNKNOWN)
  }

  function ListingErrors(id: ID, a: Answers): seq<string> {
    if id.protocol == "iscsi" && a.iscsi.None? then ["listing iSCSI sessions"]
    else if id.protocol == "nfs" && a.nfs.None? then ["listing NFS clients"]
    else if id.protocol == "nvme" && a.nvme.None? then ["listing NVMe-oF sessions"]
    else []
  }

  ghost function ReportFor(nodeID: string, node: Option<NodeRef>, id: ID, a: Answers, stale: int): Report {
    if !Identified(node) then Report(nodeID, id, [], ["resolving node"])
    else if !a.reachable then Report(nodeID, id, [], ["appliance is unreachable"])
    else Report(nodeID, id,
                [ProtocolSignal(node.value, id, a, stale), Signal(VOLUME_IO, Unobservable, RENEW_AGE_UNKNOWN)],
                ListingErrors(id, a))
  }

  method ProtocolCheck(node: NodeRef, id: ID, a: Answers, stale: int) returns (sig: Signal, errors: seq<string>)
    ensures sig == ProtocolSignal(node, id, a, stale) && errors == ListingErrors(id, a)
  {
    hide SessionState, NFSSignal;
    if id.protocol == "iscsi" {
      sig, errors := CheckISCSI(node, a.iscsi);
    } else if id.protocol == "nfs" {
      sig, errors := CheckNFS(node, a.nfs, stale);
    } else if id.protocol == "smb" {
      sig, errors := Signal("smb-session", Unknown, RENEW_AGE_UNKNOWN), [];
    } else if id.protocol == "nvme" {
      sig, errors := CheckNVMe(node, a.nvme);
    } else {
      sig, errors := Signal(id.protocol + "-session", Unknown, RENEW_AGE_UNKNOWN), [];
    }
  }

  /** One report for each volume, from what the appliance answered when asked about it. */
  method Check(nodeID: string, node: Option<NodeRef>, ids: seq<ID>, answers: seq<Answers>, stale: int)
    returns (reports: seq<Report>)
    requires |answers| == |ids|
    ensures |reports| == |ids|
    ensures forall i :: 0 <= i < |ids| ==> reports[i] == ReportFor(nodeID, node, ids[i], answers[i], stale)
  {
    hide ProtocolSignal, ListingErrors;
    reports := [];
    for i := 0 to |ids|
      invariant |reports| == i
      invariant forall j :: 0 <= j < i ==> reports[j] == ReportFor(nodeID, node, ids[j], answers[j], stale)
    {
      if !Identified(node) {
        reports := reports + [Report(nodeID, ids[i], [], ["resolving node"])];
      } else if !answers[i].reachable {
        reports := reports + [Report(nodeID, ids[i], [], ["appliance is unreachable"])];
      } else {
        var sig, errors := ProtocolCheck(node.value, ids[i], answers[i], stale);
        var io := Signal(VOLUME_IO, Unobservable, RENEW_AGE_UNKNOWN);
        reports := reports + [Report(nodeID, ids[i], [sig, io], errors)];
      }
    }
  }

  // What a safe report means

  /** Sessions were listed, and none is under the node's name or from one of its addresses. */
  ghost predicate NoSession(listing: Option<seq<Session>>, name: string, addrs: seq<string>) {
    && listing.Some?
    && forall s :: s in listing.value ==> (name != "" ==> s.name != name) && (s.addr != "" ==> s.addr !in addrs)
  }

  /** The lease of the first client at the node's addresses, if there is one, has lapsed. */
  ghost predicate LeaseLapsed(listing: Option<seq<Client>>, addrs: seq<string>, stale: int) {
    && listing.Some?
    && forall i: nat :: IsFirst(listing.value, addrs, i) ==>
         listing.value[i].renewAge != RENEW_AGE_UNKNOWN && listing.value[i].renewAge > stale
  }

  ghost predicate Gone(node: Option<NodeRef>, id: ID, a: Answers, stale: int) {
    && node.Some? && (node.value.addrs != [] || node.value.iqn != "") && a.reachable
    && (|| (id.protocol == "iscsi" && NoSession(a.iscsi, node.value.iqn, node.value.addrs))
        || (id.protocol == "nvme" && node.value.nqn != "" && NoSession(a.nvme, node.value.nqn, node.value.addrs))
        || (id.protocol == "nfs" && LeaseLapsed(a.nfs, node.value.addrs, stale)))
  }

  /** A report permits fencing if and only if the node could be told, the appliance answered, and no
      session or live lease of the volume's protocol is the node's; never for SMB or a protocol the
      driver does not know. */
  lemma SafeIff(nodeID: string, node: Option<NodeRef>, id: ID, a: Answers, stale: int)
    ensures Safe(ReportFor(nodeID, node, id, a, stale)) <==> Gone(node, id, a, stale)
  {
    hide FirstClient;
    var r := ReportFor(nodeID, node, id, a, stale);
    if Identified(node) && a.reachable {
      var s, io := r.signals[0], r.signals[1];
      assert r.signals == [s, io];
      assert !Blocks(io);
      assert Safe(r) <==> r.errors == [] && s.state == Disconnected by {
        assert s in r.signals && io in r.signals;
      }
      SignalIff(node.value, id, a, stale);
    }
  }

  lemma SignalIff(node: NodeRef, id: ID, a: Answers, stale: int)
    ensures ProtocolSignal(node, id, a, stale).state == Disconnected <==>
            || (id.protocol == "iscsi" && NoSession(a.iscsi, node.iqn, node.addrs))
            || (id.protocol == "nvme" && node.nqn != "" && NoSession(a.nvme, node.nqn, node.addrs))
            || (id.protocol == "nfs" && LeaseLapsed(a.nfs, node.addrs, stale))
  {
    hide FirstClient;
    if a.nfs.Some? { FirstClientIs(a.nfs.value, node.addrs); }
  }

  /** A node known by no address and no initiator name is never safe to fence, nor is one not known. */
  lemma NamelessNeverSafe(nodeID: string, node: Option<NodeRef>, id: ID, a: Answers, stale: int)
    requires node.Some? ==> node.value.addrs == [] && node.value.iqn == ""
    ensures !Safe(ReportFor(nodeID, node, id, a, stale))
  {
    SafeIff(nodeID, node, id, a, stale);
  }

  // Seeing more never makes fencing safer

  /** The second answers add to the first: more sessions or clients at the end of a listing, a
      listing that now fails, an appliance that cannot be reached. */
  ghost predicate Adds(less: Answers, more: Answers) {
    && (more.reachable ==> less.reachable)
    && (more.iscsi.Some? ==> less.iscsi.Some? && less.iscsi.value <= more.iscsi.value)
    && (more.nvme.Some? ==> less.nvme.Some? && less.nvme.value <= more.nvme.value)
    && (more.nfs.Some? ==> less.nfs.Some? && less.nfs.value <= more.nfs.value)
  }

  lemma AddingNeverSafer(nodeID: string, node: Option<NodeRef>, id: ID, less: Answers, more: Answers, stale: int)
    requires Adds(less, more) && Safe(ReportFor(nodeID, node, id, more, stale))
    ensures Safe(ReportFor(nodeID, node, id, less, stale))
  {
    hide Safe, ReportFor;
    SafeIff(nodeID, node, id, more, stale);
    SafeIff(nodeID, node, id, less, stale);
    if id.protocol == "nfs" {
      assert forall i: nat :: IsFirst(less.nfs.value, node.value.addrs, i) ==>
               IsFirst(more.nfs.value, node.value.addrs, i);
    }
  }

  /** Adding an error, or asking about more volumes, never turns a refusal into a permission. */
  lemma MoreNeverSafer(reports: seq<Report>, more: seq<Report>, r: Report, error: string)
    requires reports != []
    ensures AllSafe(reports + more) ==> AllSafe(reports)
    ensures !Safe(r.(errors := r.errors + [error]))
  {
    hide Safe;
    assert forall q :: q in reports ==> q in reports + more;
    assert (r.errors + [error])[|r.errors|] == error;
    ErrorsRefuse(r.(errors := r.errors + [error]));
  }

  lemma ErrorsRefuse(r: Report)
    requires r.errors != []
    ensures !Safe(r)
  {
  }

  /** Which client comes first does matter: a lapsed lease listed before a live one of the same node
      hides it. */
  lemma LapsedHidesLive(nodeID: string, id: ID, a: string, b: string, stale: nat)
    requires id.protocol == "nfs"
    ensures var node := Some(NodeRef(nodeID, [a, b], "", ""));
            var lapsed, live := Client(a, stale + 1), Client(b, 0);
            && Safe(ReportFor(nodeID, node, id, Answers(true, None, None, Some([lapsed, live])), stale))
            && !Safe(ReportFor(nodeID, node, id, Answers(true, None, None, Some([live, lapsed])), stale))
  {
    hide Safe, ReportFor;
    var node := Some(NodeRef(nodeID, [a, b], "", ""));
    var lapsed, live := Client(a, stale + 1), Client(b, 0);
    SafeIff(nodeID, node, id, Answers(true, None, None, Some([lapsed, live])), stale);
    SafeIff(nodeID, node, id, Answers(true, None, None, Some([live, lapsed])), stale);
    assert lapsed.address in node.value.addrs && live.address in node.value.addrs;
    assert IsFirst([lapsed, live], node.value.addrs, 0) && IsFirst([live, lapsed], node.value.addrs, 0);
  }
}
