/** What somebody else's dataset in the graveyard inherits, and when that passes for the driver's
    mark. */
module Bystanders {
  import opened Wrappers
  import opened Text
  import opened Timestamps
  import opened Volume
  import opened Graveyard
  import opened Retirement
  import opened Reaping

  /** Neither owner property is set. */
  predicate Plain(props: Properties) {
    OWNER_PROPERTY !in props && OWNER_ID_PROPERTY !in props
  }

  /** What an entry that does not set the property inherits. */
  function Inherited(p: Policy, local: map<string, Properties>, key: string): Option<string> {
    var h := Holder(local, p.Root(), key);
    if h.Some? then Some(local[h.value][key]) else None
  }

  /** An entry that sets neither owner property passes for the driver's own if and only if the marker
      it inherits is the driver's, and the owner id it inherits happens to name it, or there is none
      and the appliance reports what is inherited as set locally. */
  lemma PlainOwnedIff(p: Policy, pool: Pool, id: string)
    requires p.Confined(id) && id in pool.local && Plain(pool.local[id])
    ensures Owned(pool, id) <==>
              && Inherited(p, pool.local, OWNER_PROPERTY) == Some(OWNER_VALUE)
              && match Inherited(p, pool.local, OWNER_ID_PROPERTY)
                 case Some(owner) => owner == id
                 case None => !pool.faithful
  {
    EntryHolder(p, pool.local, id, OWNER_PROPERTY);
    EntryHolder(p, pool.local, id, OWNER_ID_PROPERTY);
    LongerThanRoot(p, id);
  }

  lemma LongerThanRoot(p: Policy, id: string)
    requires p.Confined(id)
    ensures |id| > |p.Root()|
  {
  }

  /** The graveyard keeps bystanders apart: its owner id names none of its entries, or there is none
      and the appliance tells inherited from local. */
  predicate Guarded(p: Policy, pool: Pool) {
    match Inherited(p, pool.local, OWNER_ID_PROPERTY)
    case Some(owner) => !p.Confined(owner)
    case None => pool.faithful
  }

  /** No plain dataset put there, under whatever name, would pass for the driver's own. */
  ghost predicate PlainNeverOwned(p: Policy, pool: Pool) {
    forall id, props: Properties ::
      p.Confined(id) && Plain(props) ==> !Owned(pool.(local := pool.local[id := props]), id)
  }

  lemma PutKeepsAbove(p: Policy, local: map<string, Properties>, id: string, props: Properties, key: string)
    requires p.Confined(id)
    ensures Inherited(p, local[id := props], key) == Inherited(p, local, key)
  {
    hide Holder;
    var after := local[id := props];
    LongerThanRoot(p, id);
    forall d | AtOrUnder(p.Root(), d) ensures d != id {
      assert |d| <= |p.Root()|;
    }
    HolderSame(local, after, p.Root(), key);
    HolderAbove(local, p.Root(), key);
  }

  /** That is so if and only if the graveyard shows no marker of the driver's, or is guarded. */
  lemma PlainNeverOwnedIff(p: Policy, pool: Pool)
    requires p.On()
    ensures PlainNeverOwned(p, pool)
            <==> Inherited(p, pool.local, OWNER_PROPERTY) != Some(OWNER_VALUE) || Guarded(p, pool)
  {
    hide Owned, Inherited, Policy.Confined;
    forall id, props: Properties | p.Confined(id) && Plain(props)
      ensures Owned(pool.(local := pool.local[id := props]), id) <==>
                && Inherited(p, pool.local, OWNER_PROPERTY) == Some(OWNER_VALUE)
                && match Inherited(p, pool.local, OWNER_ID_PROPERTY)
                   case Some(owner) => owner == id
                   case None => !pool.faithful
    {
      PutOwnedIff(p, pool, id, props);
    }
    if Inherited(p, pool.local, OWNER_PROPERTY) == Some(OWNER_VALUE) && !Guarded(p, pool) {
      var owner := Inherited(p, pool.local, OWNER_ID_PROPERTY);
      var id := if owner.Some? then owner.value else p.Root() + "/x";
      assert p.Confined(id) by { SomeEntry(p); }
      var props: Properties := map[];
      PutOwnedIff(p, pool, id, props);
      assert Owned(pool.(local := pool.local[id := props]), id);
      assert !PlainNeverOwned(p, pool);
    }
  }

  lemma SomeEntry(p: Policy)
    requires p.On()
    ensures p.Confined(p.Root() + "/x")
  {
    var prefix := p.Root() + "/";
    assert (p.Root() + "/x")[|prefix|..] == "x";
    assert p.Root() + "/x" == prefix + "x";
  }

  lemma PutOwnedIff(p: Policy, pool: Pool, id: string, props: Properties)
    requires p.Confined(id) && Plain(props)
    ensures Owned(pool.(local := pool.local[id := props]), id) <==>
              && Inherited(p, pool.local, OWNER_PROPERTY) == Some(OWNER_VALUE)
              && match Inherited(p, pool.local, OWNER_ID_PROPERTY)
                 case Some(owner) => owner == id
                 case None => !pool.faithful
  {
    hide Owned, Inherited, Policy.Confined;
    PlainOwnedIff(p, pool.(local := pool.local[id := props]), id);
    PutKeepsAbove(p, pool.local, id, props, OWNER_PROPERTY);
    PutKeepsAbove(p, pool.local, id, props, OWNER_ID_PROPERTY);
  }

  /** Otherwise it happens: in a graveyard without an owner id, on an appliance that reports what is
      inherited as local, a dataset somebody dropped there with no property at all is reaped by the
      instant its name happens to spell. */
  lemma PlainEntryReaped(p: Policy, at: Civil, rest: string)
    requires p.On() && Valid(at) && '/' !in rest
    ensures var root, entry := p.Root(), p.Root() + "/" + Stamp(at) + "-" + rest;
            var graveyard: Properties := map[OWNER_PROPERTY := OWNER_VALUE, GRAVEYARD_PROPERTY := GRAVEYARD_VALUE];
            Expired(p, Pool(map[root := graveyard, entry := map[]], false), entry, Nanos(Truncated(at)) + p.grace)
  {
    hide Nanos, Stamp, ParseDeletedAt, ParseStamp, Policy.Root;
    var root, name := p.Root(), Stamp(at) + "-" + rest;
    var entry := root + "/" + Stamp(at) + "-" + rest;
    var graveyard: Properties := map[OWNER_PROPERTY := OWNER_VALUE, GRAVEYARD_PROPERTY := GRAVEYARD_VALUE];
    var pool := Pool(map[root := graveyard, entry := map[]], false);
    StampedEntry(p, at, rest);
    assert root != entry && |entry| > |root|;
    NothingAbove(p, pool.local, entry, OWNER_ID_PROPERTY);
    NothingAbove(p, pool.local, entry, DELETED_AT_PROPERTY);
    PlainOwnedIff(p, pool, entry);
    EntryHolder(p, pool.local, entry, DELETED_AT_PROPERTY);
    NoTimestamp();
  }

  lemma NothingAbove(p: Policy, local: map<string, Properties>, entry: string, key: string)
    requires local.Keys == {p.Root(), entry} && |entry| > |p.Root()| && key !in local[p.Root()]
    ensures Holder(local, p.Root(), key).None?
  {
    HolderAbove(local, p.Root(), key);
  }

  /** A stamp, a dash and anything without a separator is a direct child that reads back. */
  lemma StampedEntry(p: Policy, at: Civil, rest: string)
    requires p.On() && Valid(at) && '/' !in rest
    ensures var entry := p.Root() + "/" + Stamp(at) + "-" + rest;
            p.Confined(entry) && DeletedAtFromEntryName(entry) == Some(Nanos(Truncated(at)))
  {
    hide Stamp, Nanos, ParseStamp;
    var name, prefix := Stamp(at) + "-" + rest, p.Root() + "/";
    StampShape(at);
    var entry := p.Root() + "/" + Stamp(at) + "-" + rest;
    assert entry == p.Root() + "/" + name;
    LastOf(p.Root(), name);
    assert name == Stamp(at) + ['-'] + rest;
    UpToIs(Stamp(at), '-', rest);
    StampRoundTrip(at);
    assert entry[|prefix|..] == name;
  }

  // What others do, and not what comes of it

  /** Others keep their hands off the driver's marks: they set no deletion timestamp on the graveyard
      and change no owner property on it or above; an entry they leave behind sets the owner
      properties it had, or neither, or those of another dataset; and they leave alone the entries
      being stamped and backdate none of the driver's. */
  ghost predicate HandsOff(p: Policy, m: Machine, after: map<string, Properties>) {
    var local := m.pool.local;
    && NoStampAbove(p, after)
    && Inherited(p, local, OWNER_PROPERTY) == Inherited(p, after, OWNER_PROPERTY)
    && Inherited(p, local, OWNER_ID_PROPERTY) == Inherited(p, after, OWNER_ID_PROPERTY)
    && (forall id :: id in after && p.Confined(id) ==>
          || Plain(after[id])
          || (OWNER_ID_PROPERTY in after[id] && after[id][OWNER_ID_PROPERTY] != id)
          || (id in local && SameMarks(local[id], after[id])))
    && (forall id :: id in after && p.Confined(id) && id in local && Owned(m.pool, id) ==>
          NotEarlier(RetiredAt(m.pool, id), RetiredAt(m.pool.(local := after), id)))
    && (forall d :: d in m.work ==> (d in after <==> d in local) && (d in local && d in after ==> after[d] == local[d]))
  }

  predicate SameMarks(a: Properties, b: Properties) {
    && (OWNER_PROPERTY in a <==> OWNER_PROPERTY in b) && (OWNER_ID_PROPERTY in a <==> OWNER_ID_PROPERTY in b)
    && (OWNER_PROPERTY in a && OWNER_PROPERTY in b ==> a[OWNER_PROPERTY] == b[OWNER_PROPERTY])
    && (OWNER_ID_PROPERTY in a && OWNER_ID_PROPERTY in b ==> a[OWNER_ID_PROPERTY] == b[OWNER_ID_PROPERTY])
  }

  lemma SameMarksOwned(p: Policy, a: Pool, b: Pool, id: string)
    requires p.Confined(id) && id in a.local && id in b.local && SameMarks(a.local[id], b.local[id])
    requires a.faithful == b.faithful
    requires Inherited(p, a.local, OWNER_PROPERTY) == Inherited(p, b.local, OWNER_PROPERTY)
    requires Inherited(p, a.local, OWNER_ID_PROPERTY) == Inherited(p, b.local, OWNER_ID_PROPERTY)
    ensures Owned(a, id) == Owned(b, id)
  {
    hide Holder, Policy.Root;
    LongerThanRoot(p, id);
    EntryHolder(p, a.local, id, OWNER_PROPERTY);
    EntryHolder(p, b.local, id, OWNER_PROPERTY);
    EntryHolder(p, a.local, id, OWNER_ID_PROPERTY);
    EntryHolder(p, b.local, id, OWNER_ID_PROPERTY);
  }

  /** In a guarded graveyard, keeping hands off is enough: whatever datasets others put there, none of
      them becomes the driver's. */
  lemma HandsOffForgesNothing(p: Policy, m: Machine, after: map<string, Properties>)
    requires Guarded(p, m.pool) && HandsOff(p, m, after)
    ensures Unforged(p, m, after) && Guarded(p, m.pool.(local := after))
  {
    hide Owned, RetiredAt, Holder, Shown, Inherited, Policy.Confined, NoStampAbove;
    var pool := m.pool.(local := after);
    forall id | id in after && p.Confined(id) && Owned(pool, id)
      ensures id in m.pool.local && Owned(m.pool, id) && NotEarlier(RetiredAt(m.pool, id), RetiredAt(pool, id))
    {
      StrangerIsNotOwned(p, pool, id);
      SameMarksOwned(p, m.pool, pool, id);
    }
  }

  /** In a guarded graveyard an entry that sets neither owner property, or another's owner id, is not
      the driver's. */
  lemma StrangerIsNotOwned(p: Policy, pool: Pool, id: string)
    requires Guarded(p, pool) && p.Confined(id) && id in pool.local && Owned(pool, id)
    ensures !Plain(pool.local[id]) && !(OWNER_ID_PROPERTY in pool.local[id] && pool.local[id][OWNER_ID_PROPERTY] != id)
  {
    if Plain(pool.local[id]) {
      PlainOwnedIff(p, pool, id);
    }
    EntryHolder(p, pool.local, id, OWNER_ID_PROPERTY);
  }

  // Whole histories

  /** The event may happen, with what others do judged by what they do. */
  ghost predicate Allowed(p: Policy, m: Machine, e: Event) {
    if e.Others? then HandsOff(p, m, e.local) else Enabled(p, m, e)
  }

  ghost predicate Careful(p: Policy, m: Machine, es: seq<Event>)
    decreases |es|
  {
    es == [] || (Allowed(p, m, es[0]) && (Enabled(p, m, es[0]) ==> Careful(p, Next(p, m, es[0]), es[1..])))
  }

  lemma KeptGuarded(p: Policy, a: Pool, b: Pool, except: string)
    requires Guarded(p, a) && a.faithful == b.faithful && EntriesKept(p, a.local, b.local, except)
    ensures Guarded(p, b)
  {
    hide Holder, Policy.Confined;
    KeptAbove(p, a.local, b.local, except);
    HolderAbove(a.local, p.Root(), OWNER_ID_PROPERTY);
  }

  lemma GuardedNext(p: Policy, m: Machine, e: Event)
    requires p.On() && Core(p, m) && Guarded(p, m.pool) && Enabled(p, m, e) && !e.Others?
    ensures Guarded(p, Next(p, m, e).pool)
  {
    hide Guarded, Core, EntriesKept, Moved, Without, Destination, Expired, Policy.Confined, Holder, Nanos;
    var after := Next(p, m, e).pool;
    match e
    case MakeRoot => MadeIsGuarded(p, after);
    case Move(_, _, _, _, _) =>
      MoveFacts(p, m, e);
      KeptGuarded(p, m.pool, after, Destination(p, e.id, e.at, e.attempt));
    case Mark(dst) =>
      MarkedElsewhere(p, m, e);
      KeptGuarded(p, m.pool, after, dst);
    case Abandon(_) =>
    case List(_, _) =>
    case Destroy(reaper, entry) =>
      ReapsConfined(p, m.listings[reaper], entry);
      DestroyedEntries(p, m.pool.local, entry);
      KeptGuarded(p, m.pool, after, "");
  }

  lemma MadeIsGuarded(p: Policy, pool: Pool)
    requires p.Root() in pool.local && pool.local[p.Root()] == RootProperties(p)
    ensures Guarded(p, pool)
  {
    assert Holder(pool.local, p.Root(), OWNER_ID_PROPERTY) == Some(p.Root());
  }

  lemma MarkedElsewhere(p: Policy, m: Machine, e: Event)
    requires Core(p, m) && e.Mark? && Enabled(p, m, e)
    ensures EntriesKept(p, m.pool.local, Next(p, m, e).pool.local, e.dst)
  {
    hide NoStampAbove, Entries, Nanos, DeletedAtFromEntryName, Carried, FormatDeletedAt, EntriesKept, WithProperty;
    assert WorkOk(p, m, e.dst);
    var w := m.work[e.dst];
    var stamp := Stamps(e.dst, w.at, w.handle)[w.next];
    SetElsewhere(p, m.pool.local, e.dst, stamp.0, stamp.1);
  }

  lemma SetElsewhere(p: Policy, local: map<string, Properties>, dst: string, key: string, value: string)
    requires p.Confined(dst)
    ensures EntriesKept(p, local, WithProperty(local, dst, key, value), dst)
  {
    LongerThanRoot(p, dst);
  }

  /** In a guarded graveyard, a history in which others keep their hands off is one in which nothing
      is forged, and the graveyard stays guarded: so what is destroyed in it was retired, whatever
      datasets others put there. */
  lemma {:induction false} CarefulRuns(p: Policy, m: Machine, es: seq<Event>)
    requires p.On() && Inv(p, m) && Guarded(p, m.pool) && Careful(p, m, es)
    ensures Runs(p, m, es) && Guarded(p, Run(p, m, es).pool)
    decreases |es|
  {
    hide Inv, Guarded, HandsOff, Unforged;
    if es != [] {
      if es[0].Others? {
        HandsOffForgesNothing(p, m, es[0].local);
      } else {
        assert Core(p, m) by { InvCore(p, m); }
        GuardedNext(p, m, es[0]);
      }
      InvNext(p, m, es[0]);
      CarefulRuns(p, Next(p, m, es[0]), es[1..]);
    }
  }

  lemma InvCore(p: Policy, m: Machine)
    requires Inv(p, m)
    ensures Core(p, m)
  {
  }
}
