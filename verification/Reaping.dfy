/** Every interleaving of retiring, sweeping and what others do to the pool. */
module Reaping {
  import opened Wrappers
  import opened Text
  import opened Timestamps
  import opened Volume
  import opened Graveyard
  import opened Retirement

  /** A retirement whose rename has landed and which is still writing its stamps. */
  datatype Work = Work(at: Civil, handle: string, next: nat)

  /** What a reaper listed, and the time it measures ages at. */
  datatype Listing = Listing(pool: Pool, now: int)

  /** The pool; for every place a volume was retired to, the earliest instant it was retired at or
      carried a timestamp of; the retirements in progress; and the listings that reapers, of any
      number of replicas, are working through. */
  datatype Machine =
    Machine(pool: Pool, retired: map<string, int>, work: map<string, Work>, listings: map<nat, Listing>)

  datatype Event =
    | MakeRoot
    | Move(id: ID, handle: string, at: Civil, attempt: nat, carried: Option<int>)
    | Mark(dst: string)
    | Abandon(dst: string)
    | List(reaper: nat, now: int)
    | Destroy(reaper: nat, entry: string)
    | Others(local: map<string, Properties>)

  function Destination(p: Policy, id: ID, at: Civil, attempt: nat): string
    requires Valid(at)
  {
    p.Root() + "/" + Candidate(EntryName(id, at), attempt)
  }

  /** No deletion timestamp is set on the graveyard or above it. */
  predicate NoStampAbove(p: Policy, local: map<string, Properties>) {
    Holder(local, p.Root(), DELETED_AT_PROPERTY).None?
  }

  /** The deletion timestamp a volume carries already, if it can be read: one restored from the
      graveyard without clearing it does. */
  function Carried(props: Properties): Option<int> {
    if DELETED_AT_PROPERTY in props then ParseDeletedAt(props[DELETED_AT_PROPERTY]) else None
  }

  /** The instant of the retirement, or the one the volume carried if that is earlier. */
  function Earliest(at: Civil, carried: Option<int>): int
    requires Valid(at)
  {
    var t := Nanos(Truncated(at));
    if carried.Some? && carried.value < t then carried.value else t
  }

  function Lowered(retired: map<string, int>, dst: string, t: int): map<string, int> {
    retired[dst := if dst in retired && retired[dst] < t then retired[dst] else t]
  }

  ghost predicate Enabled(p: Policy, m: Machine, e: Event) {
    var local := m.pool.local;
    match e
    case MakeRoot => forall d :: d in local ==> !AtOrUnder(d, p.Root())
    case Move(id, handle, at, attempt, carried) =>
      && p.On() && Confine(id, p.pool, p.parent) && Valid(at) && 1 <= attempt <= MAX_ENTRY_ATTEMPTS
      && CanMove(local, id.DatasetPath(), Destination(p, id, at, attempt))
      && carried == Carried(local[id.DatasetPath()])
    case Mark(dst) => dst in m.work && m.work[dst].next < 3 && Valid(m.work[dst].at)
    case Abandon(dst) => true
    case List(_, _) => true
    case Destroy(reaper, entry) => reaper in m.listings && Reaps(p, m.listings[reaper], entry)
    case Others(after) => Unforged(p, m, after)
  }

  /** The listing shows an entry that may be reaped. Nothing is asked again before it is destroyed. */
  predicate Reaps(p: Policy, l: Listing, entry: string) {
    entry in l.pool.local && Expired(p, l.pool, entry, l.now)
  }

  /** What others do leaves alone the entries being stamped, sets no deletion timestamp on the
      graveyard, makes no entry of it the driver's that was not so before, and backdates none. They
      may take entries away, put others there, and postpone or spoil a timestamp. */
  ghost predicate Unforged(p: Policy, m: Machine, after: map<string, Properties>) {
    var local := m.pool.local;
    && NoStampAbove(p, after)
    && (forall id :: id in after && p.Confined(id) && Owned(m.pool.(local := after), id) ==>
          id in local && Owned(m.pool, id) && NotEarlier(RetiredAt(m.pool, id), RetiredAt(m.pool.(local := after), id)))
    && (forall d :: d in m.work ==> (d in after <==> d in local) && (d in local && d in after ==> after[d] == local[d]))
  }

  predicate NotEarlier(before: Option<int>, after: Option<int>) {
    after.Some? ==> before.Some? && before.value <= after.value
  }

  ghost function Next(p: Policy, m: Machine, e: Event): Machine
    requires Enabled(p, m, e)
  {
    var local := m.pool.local;
    match e
    case MakeRoot =>
      m.(pool := m.pool.(local := local[p.Root() := RootProperties(p)]))
    case Move(id, handle, at, attempt, carried) =>
      var dst := Destination(p, id, at, attempt);
      m.(pool := m.pool.(local := Moved(local, id.DatasetPath(), dst)),
         retired := Lowered(m.retired, dst, Earliest(at, carried)), work := m.work[dst := Work(at, handle, 0)])
    case Mark(dst) =>
      var w := m.work[dst];
      var stamp := Stamps(dst, w.at, w.handle)[w.next];
      m.(pool := m.pool.(local := WithProperty(local, dst, stamp.0, stamp.1)),
         work := m.work[dst := w.(next := w.next + 1)])
    case Abandon(dst) => m.(work := m.work - {dst})
    case List(reaper, now) => m.(listings := m.listings[reaper := Listing(m.pool, now)])
    case Destroy(_, entry) => m.(pool := m.pool.(local := Without(local, {entry})))
    case Others(after) => m.(pool := m.pool.(local := after))
  }

  function RootProperties(p: Policy): Properties {
    map[OWNER_PROPERTY := OWNER_VALUE, OWNER_ID_PROPERTY := p.Root(), GRAVEYARD_PROPERTY := GRAVEYARD_VALUE]
  }

  ghost predicate Runs(p: Policy, m: Machine, es: seq<Event>)
    decreases |es|
  {
    es == [] || (Enabled(p, m, es[0]) && Runs(p, Next(p, m, es[0]), es[1..]))
  }

  ghost function Run(p: Policy, m: Machine, es: seq<Event>): Machine
    requires Runs(p, m, es)
    decreases |es|
  {
    if es == [] then m else Run(p, Next(p, m, es[0]), es[1..])
  }

  // The invariant

  /** The entry is one that was retired, and it is not read as retired any earlier than it was. */
  ghost predicate Known(p: Policy, m: Machine, id: string) {
    id in m.retired && NotEarlier(Some(m.retired[id]), RetiredAt(m.pool, id))
  }

  ghost predicate Entries(p: Policy, m: Machine) {
    forall id :: id in m.pool.local && p.Confined(id) && Owned(m.pool, id) ==> Known(p, m, id)
  }

  ghost predicate WorkOk(p: Policy, m: Machine, d: string)
    requires d in m.work
  {
    var w := m.work[d];
    && p.Confined(d) && Valid(w.at) && w.next <= 3
    && d in m.retired && m.retired[d] <= Nanos(Truncated(w.at))
    && DeletedAtFromEntryName(d) == Some(Nanos(Truncated(w.at)))
    && (d in m.pool.local ==> NotEarlier(Some(m.retired[d]), Carried(m.pool.local[d])))
  }

  ghost predicate Core(p: Policy, m: Machine) {
    && NoStampAbove(p, m.pool.local)
    && Entries(p, m)
    && (forall d :: d in m.work ==> WorkOk(p, m, d))
  }

  /** Whatever is being worked through was retired the grace period before it was listed. */
  ghost predicate Due(p: Policy, m: Machine, l: Listing) {
    forall entry :: Reaps(p, l, entry) ==> entry in m.retired && l.now - m.retired[entry] >= p.grace
  }

  ghost predicate Inv(p: Policy, m: Machine) {
    && Core(p, m)
    && (forall r :: r in m.listings ==> Due(p, m, m.listings[r]))
  }

  // Reading an entry again after a change elsewhere

  /** The instant an entry is read as depends on its own timestamp alone. */
  lemma SameInstant(p: Policy, a: Pool, b: Pool, id: string)
    requires p.Confined(id) && id in a.local && id in b.local && a.local[id] == b.local[id]
    requires NoStampAbove(p, a.local) && NoStampAbove(p, b.local)
    ensures RetiredAt(a, id) == RetiredAt(b, id)
  {
    hide DeletedAtFromEntryName, ParseDeletedAt;
    EntryHolder(p, a.local, id, DELETED_AT_PROPERTY);
    EntryHolder(p, b.local, id, DELETED_AT_PROPERTY);
  }

  lemma SameOwner(p: Policy, a: Pool, b: Pool, id: string)
    requires p.Confined(id) && id in a.local && id in b.local && a.local[id] == b.local[id]
    requires a.faithful == b.faithful
    requires forall key :: Holder(a.local, p.Root(), key) == Holder(b.local, p.Root(), key)
    requires forall h :: h in a.local && AtOrUnder(p.Root(), h) ==> h in b.local && a.local[h] == b.local[h]
    ensures Owned(a, id) == Owned(b, id)
  {
    hide Holder;
    SameShown(p, a, b, id, OWNER_PROPERTY);
    SameShown(p, a, b, id, OWNER_ID_PROPERTY);
  }

  lemma SameShown(p: Policy, a: Pool, b: Pool, id: string, key: string)
    requires p.Confined(id) && id in a.local && id in b.local && a.local[id] == b.local[id]
    requires a.faithful == b.faithful
    requires Holder(a.local, p.Root(), key) == Holder(b.local, p.Root(), key)
    requires forall h :: h in a.local && AtOrUnder(p.Root(), h) ==> h in b.local && a.local[h] == b.local[h]
    ensures Shown(a, id, key) == Shown(b, id, key)
  {
    EntryHolder(p, a.local, id, key);
    EntryHolder(p, b.local, id, key);
    HolderAbove(a.local, p.Root(), key);
  }

  lemma {:induction false} HolderAbove(local: map<string, Properties>, id: string, key: string)
    ensures Holder(local, id, key).Some? ==> AtOrUnder(id, Holder(local, id, key).value)
    decreases |id|
  {
    if !(id in local && key in local[id]) && '/' in id {
      HolderAbove(local, ParentOf(id), key);
      UnderParent(id);
      if Holder(local, id, key).Some? {
        UnderTransitive(id, ParentOf(id), Holder(local, id, key).value);
      }
    }
  }

  /** The pool above the graveyard, and the entries that are still there, are as they were. */
  ghost predicate EntriesKept(p: Policy, a: map<string, Properties>, b: map<string, Properties>, except: string) {
    && (forall d :: AtOrUnder(p.Root(), d) ==> (d in a <==> d in b))
    && (forall d :: AtOrUnder(p.Root(), d) && d in a && d in b ==> a[d] == b[d])
    && (forall d :: p.Confined(d) && d in b && d != except ==> d in a && a[d] == b[d])
  }

  lemma KeptEntry(p: Policy, m: Machine, after: Machine, except: string, id: string)
    requires Core(p, m)
    requires EntriesKept(p, m.pool.local, after.pool.local, except)
    requires after.pool.faithful == m.pool.faithful
    requires id != except && id in after.pool.local && p.Confined(id) && Owned(after.pool, id)
    requires id in m.retired ==> id in after.retired && after.retired[id] <= m.retired[id]
    ensures Known(p, after, id)
  {
    hide Owned, RetiredAt;
    KeptAbove(p, m.pool.local, after.pool.local, except);
    SameOwner(p, m.pool, after.pool, id);
    assert Known(p, m, id);
    SameInstant(p, m.pool, after.pool, id);
  }

  lemma KeptAbove(p: Policy, a: map<string, Properties>, b: map<string, Properties>, except: string)
    requires EntriesKept(p, a, b, except)
    ensures forall key :: Holder(a, p.Root(), key) == Holder(b, p.Root(), key)
  {
    forall key ensures Holder(a, p.Root(), key) == Holder(b, p.Root(), key) {
      HolderSame(a, b, p.Root(), key);
    }
  }

  // Each event keeps the invariant

  lemma MakeRootKeeps(p: Policy, m: Machine)
    requires p.On() && Core(p, m) && Enabled(p, m, MakeRoot)
    ensures Core(p, Next(p, m, MakeRoot))
  {
    var local, after := m.pool.local, Next(p, m, MakeRoot).pool.local;
    forall d | d in after && p.Confined(d) ensures false {
      assert d in local && AtOrUnder(d, p.Root());
    }
    RootHolder(p, local, after);
    forall d | d in m.work ensures WorkOk(p, Next(p, m, MakeRoot), d) {
      assert WorkOk(p, m, d);
      assert d !in after;
    }
  }

  lemma RootHolder(p: Policy, local: map<string, Properties>, after: map<string, Properties>)
    requires NoStampAbove(p, local) && p.Root() !in local && after == local[p.Root() := RootProperties(p)]
    ensures NoStampAbove(p, after)
  {
    var root, up := p.Root(), ParentOf(p.Root());
    assert root[|p.pool|] == '/';
    assert forall d :: |d| < |root| ==> d != root;
    ShorterSame(local, after, root, up, DELETED_AT_PROPERTY);
  }

  lemma {:induction false} ShorterSame(a: map<string, Properties>, b: map<string, Properties>, root: string,
                                       id: string, key: string)
    requires |id| < |root| && forall d :: d != root ==> (d in a <==> d in b) && (d in a && d in b ==> a[d] == b[d])
    ensures Holder(a, id, key) == Holder(b, id, key)
    decreases |id|
  {
    if '/' in id {
      ShorterSame(a, b, root, ParentOf(id), key);
    }
  }

  lemma MovedFacts(p: Policy, local: map<string, Properties>, src: string, dst: string)
    requires CanMove(local, src, dst) && p.Confined(dst)
    ensures dst in Moved(local, src, dst) && Moved(local, src, dst)[dst] == local[src]
    ensures EntriesKept(p, local, Moved(local, src, dst), dst)
  {
    var after := Moved(local, src, dst);
    assert src + dst[|dst|..] == src;
    assert dst == dst + src[|src|..];
    forall d | d in after ensures d == dst || dst + "/" <= d || (d in local && after[d] == local[d]) {
      MovedNames(local, src, dst, d);
    }
    forall d | AtOrUnder(p.Root(), d) ensures d != dst && !(dst + "/" <= d) && !AtOrUnder(d, src) {
      if AtOrUnder(d, src) {
        UnderTransitive(p.Root(), d, src);
        UnderTransitive(dst, p.Root(), src);
      }
    }
    forall d | p.Confined(d) ensures !(dst + "/" <= d) {
      NotNested(p, dst, d);
    }
  }

  lemma MovedNames(local: map<string, Properties>, src: string, dst: string, e: string)
    requires e in Moved(local, src, dst)
    ensures e == dst || dst + "/" <= e || (e in local && Moved(local, src, dst)[e] == local[e])
  {
    var names := set d | d in local && AtOrUnder(d, src) :: dst + d[|src|..];
    if e in names {
      var d :| d in local && AtOrUnder(d, src) && e == dst + d[|src|..];
      if d != src {
        assert d[|src|..][0] == '/';
      }
    }
  }

  lemma NotNested(p: Policy, dst: string, d: string)
    requires p.Confined(dst) && p.Confined(d)
    ensures !(dst + "/" <= d)
  {
    OneComponent(p, d);
    if dst + "/" <= d {
      SlashAfter(dst, d);
    }
  }

  lemma OneComponent(p: Policy, d: string)
    requires p.Confined(d)
    ensures forall i :: |p.Root()| < i < |d| ==> d[i] != '/'
  {
    var k := |p.Root()| + 1;
    forall i | k <= i < |d| ensures d[i] != '/' {
      assert d[i] == d[k..][i - k];
    }
  }

  lemma MoveKeeps(p: Policy, m: Machine, e: Event)
    requires Core(p, m) && e.Move? && Enabled(p, m, e)
    ensures Core(p, Next(p, m, e))
  {
    hide Moved, CanMove, Destination, Nanos, DeletedAtFromEntryName, ParseDeletedAt, Confine, Owned, RetiredAt;
    var src, dst := e.id.DatasetPath(), Destination(p, e.id, e.at, e.attempt);
    var after := Next(p, m, e);
    MoveFacts(p, m, e);
    KeptAbove(p, m.pool.local, after.pool.local, dst);
    forall d | d in after.work ensures WorkOk(p, after, d) {
      if d != dst {
        assert WorkOk(p, m, d);
      }
    }
    forall id | id in after.pool.local && p.Confined(id) && Owned(after.pool, id) ensures Known(p, after, id) {
      if id == dst {
        FreshInstant(p, after, dst);
      } else {
        KeptEntry(p, m, after, dst, id);
      }
    }
  }

  lemma MoveFacts(p: Policy, m: Machine, e: Event)
    requires e.Move? && Enabled(p, m, e)
    ensures var src, dst, after := e.id.DatasetPath(), Destination(p, e.id, e.at, e.attempt), Next(p, m, e);
            && p.Confined(dst) && DeletedAtFromEntryName(dst) == Some(Nanos(Truncated(e.at)))
            && EntriesKept(p, m.pool.local, after.pool.local, dst)
            && src in m.pool.local && dst in after.pool.local && after.pool.local[dst] == m.pool.local[src]
  {
    hide Moved, Nanos, EntriesKept, DeletedAtFromEntryName;
    CandidateReadsBack(p, e.id, e.at, e.attempt);
    MovedFacts(p, m.pool.local, e.id.DatasetPath(), Destination(p, e.id, e.at, e.attempt));
  }

  /** An entry being stamped is read as retired at the instant it was, whichever stamps landed. */
  lemma FreshInstant(p: Policy, m: Machine, d: string)
    requires d in m.work && WorkOk(p, m, d) && d in m.pool.local && NoStampAbove(p, m.pool.local)
    ensures Known(p, m, d)
  {
    hide DeletedAtFromEntryName, ParseDeletedAt, Nanos, FormatDeletedAt;
    EntryHolder(p, m.pool.local, d, DELETED_AT_PROPERTY);
    NoTimestamp();
  }

  /** A stamp leaves the timestamp alone or writes the instant of the retirement. */
  lemma MarkedCarries(p: Policy, m: Machine, e: Event)
    requires e.Mark? && Enabled(p, m, e) && WorkOk(p, m, e.dst) && e.dst in m.pool.local
    ensures NotEarlier(Some(m.retired[e.dst]), Carried(Next(p, m, e).pool.local[e.dst]))
  {
    hide Nanos, DeletedAtFromEntryName, ParseDeletedAt, FormatDeletedAt;
    DeletedAtRoundTrip(m.work[e.dst].at);
  }

  lemma MarkKeeps(p: Policy, m: Machine, e: Event)
    requires Core(p, m) && e.Mark? && Enabled(p, m, e)
    ensures Core(p, Next(p, m, e))
  {
    hide Nanos, DeletedAtFromEntryName, Carried, FormatDeletedAt, Owned, RetiredAt;
    var after := Next(p, m, e);
    assert WorkOk(p, m, e.dst);
    assert EntriesKept(p, m.pool.local, after.pool.local, e.dst);
    KeptAbove(p, m.pool.local, after.pool.local, e.dst);
    forall d | d in after.work ensures WorkOk(p, after, d) {
      assert WorkOk(p, m, d);
      if d == e.dst && d in m.pool.local {
        MarkedCarries(p, m, e);
      }
    }
    forall id | id in after.pool.local && p.Confined(id) && Owned(after.pool, id) ensures Known(p, after, id) {
      if id == e.dst {
        FreshInstant(p, after, id);
      } else {
        KeptEntry(p, m, after, e.dst, id);
      }
    }
  }

  lemma DestroyedEntries(p: Policy, local: map<string, Properties>, entry: string)
    requires p.Confined(entry)
    ensures EntriesKept(p, local, Without(local, {entry}), "")
  {
    forall d | AtOrUnder(p.Root(), d) ensures !AtOrUnder(d, entry) {
      NotAbove(p, entry, d);
    }
  }

  lemma DestroyKeeps(p: Policy, m: Machine, e: Event)
    requires Core(p, m) && e.Destroy? && Enabled(p, m, e)
    ensures Core(p, Next(p, m, e))
  {
    hide Without, VerifyOwned, DeletedAt, View, Nanos, DeletedAtFromEntryName, ParseDeletedAt, FormatDeletedAt,
      Owned, RetiredAt;
    var after := Next(p, m, e);
    DestroyedEntries(p, m.pool.local, e.entry);
    KeptAbove(p, m.pool.local, after.pool.local, "");
    forall d | d in after.work ensures WorkOk(p, after, d) {
      assert WorkOk(p, m, d);
      assert d != "";
    }
    forall id | id in after.pool.local && p.Confined(id) && Owned(after.pool, id) ensures Known(p, after, id) {
      KeptEntry(p, m, after, "", id);
    }
  }

  lemma ListKeeps(p: Policy, m: Machine, e: Event)
    requires Core(p, m) && e.List? && Enabled(p, m, e)
    ensures Core(p, Next(p, m, e))
  {
    hide NoStampAbove, Owned, RetiredAt, DeletedAtFromEntryName, Nanos, FormatDeletedAt;
    var after := Next(p, m, e);
    forall d | d in after.work ensures WorkOk(p, after, d) {
      assert WorkOk(p, m, d);
    }
    forall id | id in after.pool.local && p.Confined(id) && Owned(after.pool, id) ensures Known(p, after, id) {
      assert Known(p, m, id);
    }
  }

  lemma OthersKeep(p: Policy, m: Machine, e: Event)
    requires Core(p, m) && e.Others? && Enabled(p, m, e)
    ensures Core(p, Next(p, m, e))
  {
    hide Nanos, DeletedAtFromEntryName, ParseDeletedAt, FormatDeletedAt, Owned, RetiredAt;
    var after := Next(p, m, e);
    forall d | d in after.work ensures WorkOk(p, after, d) {
      assert WorkOk(p, m, d);
    }
    forall id | id in after.pool.local && p.Confined(id) && Owned(after.pool, id) ensures Known(p, after, id) {
      assert Known(p, m, id);
    }
  }

  lemma AbandonKeeps(p: Policy, m: Machine, e: Event)
    requires Core(p, m) && e.Abandon? && Enabled(p, m, e)
    ensures Core(p, Next(p, m, e))
  {
    hide Owned, RetiredAt, NoStampAbove, DeletedAtFromEntryName, Nanos, FormatDeletedAt;
    var after := Next(p, m, e);
    forall d | d in after.work ensures WorkOk(p, after, d) {
      assert WorkOk(p, m, d);
    }
    forall id | id in after.pool.local && p.Confined(id) && Owned(after.pool, id) ensures Known(p, after, id) {
      assert Known(p, m, id);
    }
  }

  lemma CoreNext(p: Policy, m: Machine, e: Event)
    requires p.On() && Core(p, m) && Enabled(p, m, e)
    ensures Core(p, Next(p, m, e))
  {
    hide Core, Next, Enabled;
    match e
    case MakeRoot => MakeRootKeeps(p, m);
    case Move(_, _, _, _, _) => MoveKeeps(p, m, e);
    case Mark(_) => MarkKeeps(p, m, e);
    case Abandon(_) => AbandonKeeps(p, m, e);
    case List(_, _) => ListKeeps(p, m, e);
    case Destroy(_, _) => DestroyKeeps(p, m, e);
    case Others(_) => OthersKeep(p, m, e);
  }

  lemma RetiredLowers(p: Policy, m: Machine, e: Event)
    requires Enabled(p, m, e)
    ensures forall d :: d in m.retired ==> d in Next(p, m, e).retired && Next(p, m, e).retired[d] <= m.retired[d]
  {
    hide Moved, Without, Destination, Earliest, Expired, Unforged, CanMove, Confine, Carried;
  }

  lemma ListedIsDue(p: Policy, m: Machine, now: int)
    requires Core(p, m)
    ensures Due(p, m, Listing(m.pool, now))
  {
    hide NoStampAbove, View, VerifyOwned, DeletedAt;
    forall entry | Reaps(p, Listing(m.pool, now), entry)
      ensures entry in m.retired && now - m.retired[entry] >= p.grace
    {
      assert Known(p, m, entry);
    }
  }

  lemma InvNext(p: Policy, m: Machine, e: Event)
    requires p.On() && Inv(p, m) && Enabled(p, m, e)
    ensures Inv(p, Next(p, m, e))
  {
    CoreNext(p, m, e);
    RetiredLowers(p, m, e);
    hide Core, Reaps, Enabled, Unforged, Without, Moved;
    var after := Next(p, m, e);
    forall r | r in after.listings ensures Due(p, after, after.listings[r]) {
      if e.List? && r == e.reaper {
        ListedIsDue(p, m, e.now);
      } else {
        assert Due(p, m, m.listings[r]);
      }
    }
  }

  lemma {:induction false} InvAlways(p: Policy, m: Machine, es: seq<Event>)
    requires p.On() && Inv(p, m) && Runs(p, m, es)
    ensures Inv(p, Run(p, m, es))
    decreases |es|
  {
    hide Inv, Next, Enabled;
    if es != [] {
      InvNext(p, m, es[0]);
      InvAlways(p, Next(p, m, es[0]), es[1..]);
    }
  }

  // What a sweep destroys

  ghost predicate RetiredBy(p: Policy, es: seq<Event>, id: string, instant: int) {
    exists j :: 0 <= j < |es| && es[j].Move? && MovesTo(p, es[j], id, instant)
  }

  predicate MovesTo(p: Policy, e: Event, id: string, instant: int)
    requires e.Move?
  {
    Valid(e.at) && Destination(p, e.id, e.at, e.attempt) == id && Earliest(e.at, e.carried) == instant
  }

  lemma {:induction false} RetiredFromRun(p: Policy, m: Machine, es: seq<Event>, id: string)
    requires Runs(p, m, es) && id in Run(p, m, es).retired
    ensures var t := Run(p, m, es).retired[id];
            (id in m.retired && m.retired[id] == t) || RetiredBy(p, es, id, t)
    decreases |es|
  {
    hide Moved, Without, Destination, Earliest, Expired, Unforged, CanMove, Confine, Carried;
    if es != [] {
      var after := Next(p, m, es[0]);
      RetiredFromRun(p, after, es[1..], id);
      var t := Run(p, m, es).retired[id];
      if RetiredBy(p, es[1..], id, t) {
        var j :| 0 <= j < |es[1..]| && es[1..][j].Move? && MovesTo(p, es[1..][j], id, t);
        assert es[j + 1] == es[1..][j];
      } else if es[0].Move? && MovesTo(p, es[0], id, t) {
        assert MovesTo(p, es[0], id, t);
      }
    }
  }

  /** A pool with nothing retired in it yet. */
  ghost predicate Fresh(p: Policy, m: Machine) {
    && m.retired == map[] && m.work == map[] && m.listings == map[]
    && NoStampAbove(p, m.pool.local)
    && forall id :: id in m.pool.local && p.Confined(id) ==> !Owned(m.pool, id)
  }

  /** Over every run, with any number of reapers between listing and destroying: exactly what is at or
      beneath one direct child of the graveyard goes. That entry was listed as the driver's own; an
      earlier Retire had put a volume there; and by the time it was listed the grace period counted
      from that Retire had passed, to within the second its timestamp is kept to, or else counted
      from an earlier timestamp the volume was carrying already. */
  lemma SweptWereRetired(p: Policy, m: Machine, es: seq<Event>, e: Event)
    requires p.On() && Fresh(p, m) && Runs(p, m, es)
    requires e.Destroy? && Enabled(p, Run(p, m, es), e)
    ensures var u := Run(p, m, es);
            && (forall d :: d in u.pool.local ==> (d !in Next(p, u, e).pool.local <==> AtOrUnder(d, e.entry)))
            && p.Confined(e.entry) && Owned(u.listings[e.reaper].pool, e.entry)
            && exists j :: && 0 <= j < |es| && es[j].Move? && Valid(es[j].at)
                           && Destination(p, es[j].id, es[j].at, es[j].attempt) == e.entry
                           && (|| u.listings[e.reaper].now > Nanos(es[j].at) + p.grace - SECOND
                               || (es[j].carried.Some? && u.listings[e.reaper].now >= es[j].carried.value + p.grace))
  {
    hide Destination, Nanos, Owned, Inv, Next, Enabled, Runs, Run;
    var u := Run(p, m, es);
    FreshIsInv(p, m);
    InvAlways(p, m, es);
    DestroyTakes(p, u, e);
    DueNow(p, u, e);
    RetiredFromRun(p, m, es, e.entry);
    var j :| 0 <= j < |es| && es[j].Move? && MovesTo(p, es[j], e.entry, u.retired[e.entry]);
    TruncatedIsClose(es[j].at);
  }

  lemma FreshIsInv(p: Policy, m: Machine)
    requires Fresh(p, m)
    ensures Inv(p, m)
  {
    hide NoStampAbove, Owned;
  }

  lemma DestroyTakes(p: Policy, u: Machine, e: Event)
    requires e.Destroy? && Enabled(p, u, e)
    ensures e.reaper in u.listings && p.Confined(e.entry) && Owned(u.listings[e.reaper].pool, e.entry)
    ensures forall d :: d in u.pool.local ==> (d !in Next(p, u, e).pool.local <==> AtOrUnder(d, e.entry))
  {
    hide View, VerifyOwned, DeletedAt, AtOrUnder, Policy.Confined, Without;
    GoneIff(u.pool.local, e.entry);
  }

  lemma DueNow(p: Policy, u: Machine, e: Event)
    requires Inv(p, u) && e.Destroy? && Enabled(p, u, e)
    ensures e.reaper in u.listings && e.entry in u.retired && u.listings[e.reaper].now - u.retired[e.entry] >= p.grace
  {
    hide Core, Reaps;
    assert Due(p, u, u.listings[e.reaper]);
  }

  lemma GoneIff(local: map<string, Properties>, entry: string)
    ensures forall d :: d in local ==> (d !in Without(local, {entry}) <==> AtOrUnder(d, entry))
  {
    hide AtOrUnder;
    assert entry in {entry};
  }

  /** Nothing at or beneath the entry, nor above it, has changed between the two pools. */
  ghost predicate Unchanged(p: Policy, a: Pool, b: Pool, entry: string) {
    && a.faithful == b.faithful
    && (forall d :: AtOrUnder(d, entry) || AtOrUnder(p.Root(), d) ==> (d in a.local <==> d in b.local))
    && (forall d :: (AtOrUnder(d, entry) || AtOrUnder(p.Root(), d)) && d in a.local && d in b.local ==>
          a.local[d] == b.local[d])
  }

  /** Whatever a dataset beneath an entry inherits from is beneath the entry too, or above it. */
  lemma Between(p: Policy, entry: string, d: string, h: string)
    requires p.Confined(entry) && AtOrUnder(d, entry) && AtOrUnder(d, h)
    ensures AtOrUnder(h, entry) || AtOrUnder(p.Root(), h)
  {
    if h != d && d != entry {
      if |h| > |entry| {
        ShorterPrefix(entry + "/", h, d);
      } else if |h| == |entry| {
        ShorterPrefix(h, entry, d);
      } else {
        ShorterPrefix(h + "/", entry, d);
        AboveEntry(p, entry, h);
      }
    } else if h != d {
      AboveEntry(p, entry, h);
    }
  }

  lemma AboveEntry(p: Policy, entry: string, h: string)
    requires p.Confined(entry) && h + "/" <= entry
    ensures AtOrUnder(p.Root(), h)
  {
    var root := p.Root();
    OneComponent(p, entry);
    SlashAfter(h, entry);
    assert root <= root + "/";
    if |h| < |root| {
      ShorterPrefix(h + "/", root, entry);
    } else {
      ShorterPrefix(h, root, entry);
    }
  }

  lemma UnchangedView(p: Policy, a: Pool, b: Pool, entry: string, d: string)
    requires p.Confined(entry) && Unchanged(p, a, b, entry) && AtOrUnder(d, entry)
    ensures View(a, d) == View(b, d)
  {
    hide AtOrUnder, Policy.Confined;
    forall h | AtOrUnder(d, h) ensures AtOrUnder(h, entry) || AtOrUnder(p.Root(), h) {
      Between(p, entry, d, h);
    }
    forall key ensures Shown(a, d, key) == Shown(b, d, key) {
      HolderSame(a.local, b.local, d, key);
      HolderAbove(a.local, d, key);
    }
  }

  /** If nothing at or beneath an entry, nor above it, changed since it was listed, exactly what was
      listed there goes, and it is still the driver's own and due; every dataset that goes is read
      just as it was listed. */
  lemma UnchangedEntryGoes(p: Policy, m: Machine, e: Event)
    requires e.Destroy? && Enabled(p, m, e) && Unchanged(p, m.listings[e.reaper].pool, m.pool, e.entry)
    ensures var l := m.listings[e.reaper];
            && (forall d :: d in m.pool.local && d !in Next(p, m, e).pool.local <==>
                  d in l.pool.local && AtOrUnder(d, e.entry))
            && (forall d :: AtOrUnder(d, e.entry) ==> View(m.pool, d) == View(l.pool, d))
            && e.entry in m.pool.local && Owned(m.pool, e.entry) && Expired(p, m.pool, e.entry, l.now)
  {
    hide View, VerifyOwned, DeletedAt, Holder;
    var l := m.listings[e.reaper];
    DestroyTakes(p, m, e);
    forall d | AtOrUnder(d, e.entry) ensures View(m.pool, d) == View(l.pool, d) {
      UnchangedView(p, l.pool, m.pool, e.entry, d);
    }
    assert AtOrUnder(e.entry, e.entry);
  }

  /** Otherwise it need not be: nothing is asked again between listing and destroying, so what others put in an
      entry's place meanwhile goes instead. */
  lemma ReplacedEntryGoes(p: Policy, m: Machine, reaper: nat, now: int, entry: string)
    returns (listed: Machine, replaced: Machine, swept: Machine)
    requires Core(p, m) && Reaps(p, Listing(m.pool, now), entry) && entry !in m.work
    ensures Steps(p, m, List(reaper, now), listed)
    ensures Steps(p, listed, Others(m.pool.local[entry := map[OWNER_ID_PROPERTY := ""]]), replaced)
    ensures Steps(p, replaced, Destroy(reaper, entry), swept)
    ensures entry in replaced.pool.local && !Owned(replaced.pool, entry) && entry !in swept.pool.local
  {
    hide Owned, Core, Unforged, Expired, Without;
    var after: map<string, Properties> := m.pool.local[entry := map[OWNER_ID_PROPERTY := ""]];
    ReapsConfined(p, Listing(m.pool, now), entry);
    ReplacedForgesNothing(p, m, entry);
    ListingForgesNothing(p, m, List(reaper, now), after);
    listed := Next(p, m, List(reaper, now));
    replaced := Next(p, listed, Others(after));
    swept := Next(p, replaced, Destroy(reaper, entry));
    GoneIff(after, entry);
    assert AtOrUnder(entry, entry);
  }

  ghost predicate Steps(p: Policy, m: Machine, e: Event, m': Machine) {
    Enabled(p, m, e) && m' == Next(p, m, e)
  }

  /** A change at one place that makes no entry there the driver's forges nothing. */
  lemma OneChangeForgesNothing(p: Policy, m: Machine, after: map<string, Properties>, except: string)
    requires Core(p, m) && EntriesKept(p, m.pool.local, after, except)
    requires except in after && p.Confined(except) ==> !Owned(m.pool.(local := after), except)
    requires forall d :: d in m.work ==>
               (d in after <==> d in m.pool.local) && (d in m.pool.local && d in after ==> after[d] == m.pool.local[d])
    ensures Unforged(p, m, after)
  {
    hide Owned, RetiredAt, Holder, EntriesKept, Policy.Confined, WorkOk;
    var pool := m.pool.(local := after);
    KeptAbove(p, m.pool.local, after, except);
    forall id | id in after && p.Confined(id) && Owned(pool, id)
      ensures id in m.pool.local && Owned(m.pool, id) && NotEarlier(RetiredAt(m.pool, id), RetiredAt(pool, id))
    {
      KeptReads(p, m.pool, pool, except, id);
    }
  }

  lemma KeptReads(p: Policy, a: Pool, b: Pool, except: string, id: string)
    requires a.faithful == b.faithful && EntriesKept(p, a.local, b.local, except)
    requires NoStampAbove(p, a.local) && p.Confined(id) && id in b.local && id != except
    ensures id in a.local && Owned(a, id) == Owned(b, id) && RetiredAt(a, id) == RetiredAt(b, id)
  {
    hide Owned, RetiredAt, Holder;
    KeptAbove(p, a.local, b.local, except);
    SameOwner(p, a, b, id);
    SameInstant(p, a, b, id);
  }

  lemma ReplacedForgesNothing(p: Policy, m: Machine, entry: string)
    requires Core(p, m) && p.Confined(entry) && entry !in m.work && entry in m.pool.local
    ensures var after := m.pool.local[entry := map[OWNER_ID_PROPERTY := ""]];
            Unforged(p, m, after) && !Owned(m.pool.(local := after), entry)
  {
    hide Owned, Core, Unforged;
    var after: map<string, Properties> := m.pool.local[entry := map[OWNER_ID_PROPERTY := ""]];
    MisnamedIsNotOwned(p, m.pool.(local := after), entry);
    OneChangeForgesNothing(p, m, after, entry);
  }

  lemma ListingForgesNothing(p: Policy, m: Machine, e: Event, after: map<string, Properties>)
    requires e.List? && Unforged(p, m, after)
    ensures Unforged(p, Next(p, m, e), after)
  {
    hide Owned, RetiredAt, NoStampAbove;
  }

  lemma ReapsConfined(p: Policy, l: Listing, entry: string)
    requires Reaps(p, l, entry)
    ensures p.Confined(entry)
  {
    hide View, VerifyOwned, DeletedAt;
  }

  lemma MisnamedIsNotOwned(p: Policy, pool: Pool, entry: string)
    requires p.Confined(entry) && entry in pool.local && pool.local[entry] == map[OWNER_ID_PROPERTY := ""]
    ensures !Owned(pool, entry)
  {
    EntryHolder(p, pool.local, entry, OWNER_ID_PROPERTY);
    assert OWNER_ID_PROPERTY in View(pool, entry) && View(pool, entry)[OWNER_ID_PROPERTY].value == "";
  }

  /** No reaper takes away, or changes, the dataset of a volume outside the graveyard. */
  lemma SweepSparesLive(p: Policy, m: Machine, e: Event, id: ID)
    requires e.Destroy? && Enabled(p, m, e)
    requires Confine(id, p.pool, p.parent) && id.namespace != p.graveyard
    requires id.DatasetPath() in m.pool.local
    ensures var after := Next(p, m, e).pool.local;
            id.DatasetPath() in after && after[id.DatasetPath()] == m.pool.local[id.DatasetPath()]
  {
    hide Confine, VerifyOwned, DeletedAt, View;
    LiveNotUnder(p, id, e.entry);
    GoneIff(m.pool.local, e.entry);
  }

  lemma LiveNotUnder(p: Policy, id: ID, g: string)
    requires Confine(id, p.pool, p.parent) && id.namespace != p.graveyard && p.Confined(g)
    ensures !AtOrUnder(id.DatasetPath(), g)
  {
    hide ID.DatasetPath, Confine;
    LiveIsOutside(p, id);
    OneSlash(id, p);
    if g + "/" <= id.DatasetPath() {
      TwoSlashes(p, g, id.DatasetPath());
    }
  }

  lemma OneSlash(id: ID, p: Policy)
    requires Confine(id, p.pool, p.parent)
    ensures var d := id.DatasetPath();
            forall i, j :: |p.pool| + |p.parent| + 2 <= i < j < |d| ==> !(d[i] == '/' && d[j] == '/')
  {
    var top := p.pool + "/" + p.parent + "/";
    var below := if id.namespace == "" then id.name else id.namespace + "/" + id.name;
    assert id.DatasetPath() == top + below;
  }

  lemma TwoSlashes(p: Policy, g: string, d: string)
    requires p.Confined(g) && g + "/" <= d
    ensures var i, j := |p.Root()|, |g|;
            |p.pool| + |p.parent| + 2 <= i < j < |d| && d[i] == '/' && d[j] == '/'
  {
    assert g[|p.Root()|] == '/' && g <= d;
  }

  /** Making a volume where the driver makes them is among the things that forge nothing. */
  lemma ProvisioningForgesNothing(p: Policy, m: Machine, id: ID, props: Properties)
    requires Inv(p, m) && Confine(id, p.pool, p.parent) && id.namespace != p.graveyard
    requires !AtOrUnder(p.Root(), id.DatasetPath()) && id.DatasetPath() !in m.pool.local
    ensures Enabled(p, m, Others(m.pool.local[id.DatasetPath() := props]))
  {
    hide Owned, Confine, NoStampAbove, Entries, Unforged;
    LiveIsOutside(p, id);
    var local, d := m.pool.local, id.DatasetPath();
    var after := local[d := props];
    forall w | w in m.work ensures w != d {
      assert WorkOk(p, m, w);
    }
    OneChangeForgesNothing(p, m, after, d);
  }
}
