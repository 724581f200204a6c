/** Where a retirement can stop, and the driver code that retires and reaps. */
module Retiring {
  import Faults
  import opened Wrappers
  import opened Text
  import opened Timestamps
  import opened Volume
  import opened Graveyard
  import opened Retirement
  import opened Reaping

  // Stopping after the rename

  function SetEach(props: Properties, stamps: seq<(string, string)>): Properties
    decreases |stamps|
  {
    if stamps == [] then props else SetEach(props[stamps[0].0 := stamps[0].1], stamps[1..])
  }

  lemma {:induction false} StampAllIs(local: map<string, Properties>, dst: string, stamps: seq<(string, string)>)
    requires dst in local
    ensures StampAll(local, dst, stamps) == local[dst := SetEach(local[dst], stamps)]
  {
    if stamps != [] {
      StampAllIs(WithProperty(local, dst, stamps[0].0, stamps[0].1), dst, stamps[1..]);
    }
  }

  /** The pool when the rename and the first k stamps have landed. */
  function StoppedAt(pool: Pool, src: string, dst: string, at: Civil, handle: string, k: nat): Pool
    requires Valid(at) && k <= 3
  {
    pool.(local := StampAll(Moved(pool.local, src, dst), dst, Stamps(dst, at, handle)[..k]))
  }

  /** What is set on the retired dataset itself when Retire stops. */
  lemma StoppedProperties(local: map<string, Properties>, src: string, dst: string, at: Civil, handle: string, k: nat)
    requires Valid(at) && k <= 3 && dst in local
    ensures var props := SetEach(local[dst], Stamps(dst, at, handle)[..k]);
            && (OWNER_PROPERTY in props <==> OWNER_PROPERTY in local[dst])
            && (OWNER_PROPERTY in props ==> props[OWNER_PROPERTY] == local[dst][OWNER_PROPERTY])
            && (OWNER_ID_PROPERTY in props <==> k >= 1 || OWNER_ID_PROPERTY in local[dst])
            && (OWNER_ID_PROPERTY in props ==>
                  props[OWNER_ID_PROPERTY] == if k >= 1 then dst else local[dst][OWNER_ID_PROPERTY])
            && (DELETED_AT_PROPERTY in props <==> k >= 2 || DELETED_AT_PROPERTY in local[dst])
            && (DELETED_AT_PROPERTY in props ==>
                  props[DELETED_AT_PROPERTY] == if k >= 2 then FormatDeletedAt(at) else local[dst][DELETED_AT_PROPERTY])
  {
    hide FormatDeletedAt;
    var stamps, p0 := Stamps(dst, at, handle)[..k], local[dst];
    if k >= 1 {
      var p1 := p0[OWNER_ID_PROPERTY := dst];
      assert SetEach(p0, stamps) == SetEach(p1, stamps[1..]);
      if k >= 2 {
        var p2 := p1[DELETED_AT_PROPERTY := FormatDeletedAt(at)];
        assert SetEach(p1, stamps[1..]) == SetEach(p2, stamps[2..]) by { assert stamps[1..][1..] == stamps[2..]; }
        if k == 3 {
          var p3 := p2[RETIRED_FROM_PROPERTY := handle];
          assert SetEach(p2, stamps[2..]) == SetEach(p3, []) by { assert stamps[2..][1..] == []; }
        }
      }
    }
  }

  /** A volume as the driver leaves it: marked as its own, under its own name if under any. */
  predicate Volumelike(local: map<string, Properties>, src: string) {
    && src in local && OWNER_PROPERTY in local[src] && local[src][OWNER_PROPERTY] == OWNER_VALUE
    && (OWNER_ID_PROPERTY in local[src] ==> local[src][OWNER_ID_PROPERTY] == src)
  }

  /** Whatever owner id the graveyard shows names the dataset it is set on. */
  predicate RootNamed(p: Policy, local: map<string, Properties>) {
    var h := Holder(local, p.Root(), OWNER_ID_PROPERTY);
    h.Some? ==> local[h.value][OWNER_ID_PROPERTY] == h.value
  }

  /** Neither the volume nor the graveyard carries an owner id: both predate the property. */
  predicate Unmarked(p: Policy, local: map<string, Properties>, src: string)
    requires src in local
  {
    OWNER_ID_PROPERTY !in local[src] && Holder(local, p.Root(), OWNER_ID_PROPERTY).None?
  }

  /** The instant a dataset retired from src will be read as: the one Retire stamped, once that
      stamp landed; before that a timestamp the volume was already carrying, if it parses; and
      otherwise the one in the entry's name, which is Retire's again. */
  function InstantRead(local: map<string, Properties>, src: string, at: Civil, k: nat): int
    requires Valid(at) && src in local
  {
    var stale := if DELETED_AT_PROPERTY in local[src] then ParseDeletedAt(local[src][DELETED_AT_PROPERTY]) else None;
    if k < 2 && stale.Some? then stale.value else Nanos(Truncated(at))
  }

  /** Wherever Retire stops after the rename, the dataset comes to be reapable if and only if the
      owner-id stamp landed, or no owner id was there to contradict its new name; and then from
      exactly the grace period after the instant read. A volume that carried no timestamp of its
      own is read as retired when it was, whichever stamps landed. */
  lemma StoppedIsReapable(p: Policy, pool: Pool, id: ID, at: Civil, attempt: nat, handle: string, k: nat, now: int)
    requires p.On() && Valid(at) && k <= 3
    requires CanMove(pool.local, id.DatasetPath(), Destination(p, id, at, attempt))
    requires Volumelike(pool.local, id.DatasetPath())
    requires NoStampAbove(p, pool.local) && RootNamed(p, pool.local)
    ensures var src, dst := id.DatasetPath(), Destination(p, id, at, attempt);
            Expired(p, StoppedAt(pool, src, dst, at, handle, k), dst, now)
            <==> (k >= 1 || Unmarked(p, pool.local, src)) && now - InstantRead(pool.local, src, at, k) >= p.grace
  {
    hide Nanos, ParseDeletedAt, FormatDeletedAt, Moved, DeletedAtFromEntryName, Destination, CanMove, StampAll,
      ID.DatasetPath, EntryName, Confine, View, VerifyOwned, DeletedAt;
    var src, dst := id.DatasetPath(), Destination(p, id, at, attempt);
    Stopping(p, pool, id, at, attempt, handle, k);
    StoppedOwned(p, pool, src, dst, at, handle, k);
    StoppedInstant(p, pool, src, dst, at, handle, k);
  }

  /** The pool at a stop: the entry holds the volume's properties with k stamps, and the graveyard
      and all above it are as before. */
  ghost predicate Stop(p: Policy, pool: Pool, src: string, dst: string, at: Civil, handle: string, k: nat) {
    && Valid(at) && k <= 3 && src in pool.local && p.Confined(dst) && dst != src
    && DeletedAtFromEntryName(dst) == Some(Nanos(Truncated(at)))
    && var local := StoppedAt(pool, src, dst, at, handle, k).local;
       && dst in local && local[dst] == SetEach(pool.local[src], Stamps(dst, at, handle)[..k])
       && EntriesKept(p, pool.local, local, dst)
  }

  lemma Stopping(p: Policy, pool: Pool, id: ID, at: Civil, attempt: nat, handle: string, k: nat)
    requires p.On() && Valid(at) && k <= 3
    requires CanMove(pool.local, id.DatasetPath(), Destination(p, id, at, attempt))
    ensures Stop(p, pool, id.DatasetPath(), Destination(p, id, at, attempt), at, handle, k)
  {
    hide Moved, Nanos, DeletedAtFromEntryName, FormatDeletedAt, Candidate, EntryName, ID.DatasetPath;
    var src, dst := id.DatasetPath(), Destination(p, id, at, attempt);
    CandidateReadsBack(p, id, at, attempt);
    MovedFacts(p, pool.local, src, dst);
    StampAllIs(Moved(pool.local, src, dst), dst, Stamps(dst, at, handle)[..k]);
  }

  lemma StoppedOwned(p: Policy, pool: Pool, src: string, dst: string, at: Civil, handle: string, k: nat)
    requires Stop(p, pool, src, dst, at, handle, k)
    requires Volumelike(pool.local, src) && RootNamed(p, pool.local)
    ensures Owned(StoppedAt(pool, src, dst, at, handle, k), dst) <==> k >= 1 || Unmarked(p, pool.local, src)
  {
    hide Nanos, ParseDeletedAt, FormatDeletedAt, Moved, DeletedAtFromEntryName, StampAll, SetEach;
    var after := StoppedAt(pool, src, dst, at, handle, k);
    StoppedProperties(map[dst := pool.local[src]], src, dst, at, handle, k);
    KeptAbove(p, pool.local, after.local, dst);
    EntryHolder(p, after.local, dst, OWNER_PROPERTY);
    EntryHolder(p, after.local, dst, OWNER_ID_PROPERTY);
    HolderAbove(pool.local, p.Root(), OWNER_ID_PROPERTY);
  }

  lemma StoppedInstant(p: Policy, pool: Pool, src: string, dst: string, at: Civil, handle: string, k: nat)
    requires Stop(p, pool, src, dst, at, handle, k) && NoStampAbove(p, pool.local)
    ensures RetiredAt(StoppedAt(pool, src, dst, at, handle, k), dst) == Some(InstantRead(pool.local, src, at, k))
  {
    hide Nanos, ParseDeletedAt, FormatDeletedAt, Moved, DeletedAtFromEntryName, StampAll, SetEach;
    var after := StoppedAt(pool, src, dst, at, handle, k);
    StoppedProperties(map[dst := pool.local[src]], src, dst, at, handle, k);
    KeptAbove(p, pool.local, after.local, dst);
    EntryHolder(p, after.local, dst, DELETED_AT_PROPERTY);
    DeletedAtRoundTrip(at);
    NoTimestamp();
  }

  // The two cases the exact condition excludes do arise

  predicate Placed(p: Policy, id: ID) {
    p.On() && Confine(id, p.pool, p.parent) && !AtOrUnder(p.Root(), id.DatasetPath())
    && !AtOrUnder(id.DatasetPath(), p.Root())
  }

  lemma PlacedMoves(p: Policy, id: ID, at: Civil, local: map<string, Properties>)
    requires Placed(p, id) && Valid(at) && local.Keys == {id.DatasetPath(), p.Root()}
    requires DELETED_AT_PROPERTY !in local[p.Root()]
    ensures CanMove(local, id.DatasetPath(), Destination(p, id, at, 1)) && NoStampAbove(p, local)
  {
    hide EntryName, Candidate, Confine, ID.DatasetPath;
    var src, dst := id.DatasetPath(), Destination(p, id, at, 1);
    CandidateReadsBack(p, id, at, 1);
    assert dst != p.Root() && AtOrUnder(dst, p.Root());
    if AtOrUnder(dst, src) {
      SamePath(p, dst, src);
    }
    HolderAbove(local, p.Root(), DELETED_AT_PROPERTY);
  }

  lemma SamePath(p: Policy, dst: string, src: string)
    requires p.Confined(dst) && AtOrUnder(dst, src)
    ensures AtOrUnder(p.Root(), src) || AtOrUnder(src, p.Root())
  {
    OneComponent(p, dst);
    if src != dst {
      SlashAfter(src, dst);
      assert |src| <= |p.Root()|;
      var root := p.Root();
      assert root <= root + "/";
      if |src| < |root| {
        ShorterPrefix(src + "/", root, dst);
      } else {
        ShorterPrefix(src, root, dst);
      }
    }
  }

  /** A volume still carrying the timestamp of an earlier retirement, stopped after the owner-id
      stamp, is reapable the grace period after that earlier instant. */
  lemma StaleTimestampCounts(p: Policy, id: ID, at: Civil, earlier: Civil, handle: string)
    requires Placed(p, id) && Valid(at) && Valid(earlier)
    ensures var src, dst := id.DatasetPath(), Destination(p, id, at, 1);
            var pool := Pool(map[src := map[OWNER_PROPERTY := OWNER_VALUE, OWNER_ID_PROPERTY := src,
                                            DELETED_AT_PROPERTY := FormatDeletedAt(earlier)],
                                 p.Root() := RootProperties(p)], false);
            Expired(p, StoppedAt(pool, src, dst, at, handle, 1), dst, Nanos(Truncated(earlier)) + p.grace)
  {
    hide Nanos, ParseDeletedAt, FormatDeletedAt, Moved, Destination, StampAll, ID.DatasetPath, Confine, Expired,
      Policy.Root;
    var src := id.DatasetPath();
    var local := map[src := map[OWNER_PROPERTY := OWNER_VALUE, OWNER_ID_PROPERTY := src,
                                DELETED_AT_PROPERTY := FormatDeletedAt(earlier)],
                     p.Root() := RootProperties(p)];
    assert AtOrUnder(src, src) && src != p.Root();
    PlacedMoves(p, id, at, local);
    assert Holder(local, p.Root(), OWNER_ID_PROPERTY) == Some(p.Root());
    DeletedAtRoundTrip(earlier);
    StoppedIsReapable(p, Pool(local, false), id, at, 1, handle, 1, Nanos(Truncated(earlier)) + p.grace);
  }

  /** Where neither the volume nor the graveyard has an owner id, no stamp is needed at all. */
  lemma UnmarkedNeedsNoStamp(p: Policy, id: ID, at: Civil, handle: string)
    requires Placed(p, id) && Valid(at)
    ensures var src, dst := id.DatasetPath(), Destination(p, id, at, 1);
            var pool := Pool(map[src := map[OWNER_PROPERTY := OWNER_VALUE],
                                 p.Root() := map[GRAVEYARD_PROPERTY := GRAVEYARD_VALUE]], true);
            Expired(p, StoppedAt(pool, src, dst, at, handle, 0), dst, Nanos(Truncated(at)) + p.grace)
  {
    hide Nanos, ParseDeletedAt, FormatDeletedAt, Moved, Destination, StampAll, ID.DatasetPath, Confine, Expired,
      Policy.Root;
    var src := id.DatasetPath();
    var local: map<string, Properties> := map[src := map[OWNER_PROPERTY := OWNER_VALUE],
                                              p.Root() := map[GRAVEYARD_PROPERTY := GRAVEYARD_VALUE]];
    assert AtOrUnder(src, src) && src != p.Root();
    PlacedMoves(p, id, at, local);
    HolderAbove(local, p.Root(), OWNER_ID_PROPERTY);
    StoppedIsReapable(p, Pool(local, true), id, at, 1, handle, 0, Nanos(Truncated(at)) + p.grace);
  }

  // The driver

  datatype Answer = Done | Busy | Failed

  const MILLISECOND := 1_000_000
  const RENAME_RETRY_TIMEOUT := 30_000 * MILLISECOND

  /** The delay before the retry after n others. */
  function Delay(n: nat): int {
    if n == 0 then 200 * MILLISECOND
    else if Delay(n - 1) < 2_000 * MILLISECOND then 2 * Delay(n - 1)
    else Delay(n - 1)
  }

  /** How long the first n sleeps last at least. */
  function Slept(n: nat): int {
    if n == 0 then 0 else Slept(n - 1) + Delay(n - 1)
  }

  lemma {:induction false} Delays(n: nat)
    ensures 0 < Delay(n) <= 3_200 * MILLISECOND
    ensures n >= 4 ==> Delay(n) == 3_200 * MILLISECOND && Slept(n) == 3_000 * MILLISECOND + (n - 4) * Delay(n)
  {
    if n <= 4 {
      assert Delay(1) == 400 * MILLISECOND;
      assert Delay(2) == 800 * MILLISECOND;
      assert Delay(3) == 1_600 * MILLISECOND;
      assert Slept(3) == 1_400 * MILLISECOND;
    } else {
      Delays(n - 1);
    }
  }

  /** The graveyard exists and is marked as one. */
  predicate HasRoot(p: Policy, pool: Pool) {
    p.Root() in pool.local && LocalProperty(View(pool, p.Root()), GRAVEYARD_PROPERTY) == GRAVEYARD_VALUE
  }

  /** A graveyard is one exactly when it sets the marker itself, or shows one and the appliance does not tell
      inherited from local. */
  lemma HasRootIff(p: Policy, pool: Pool)
    ensures HasRoot(p, pool) <==>
            && p.Root() in pool.local
            && var h := Holder(pool.local, p.Root(), GRAVEYARD_PROPERTY);
               h.Some? && (h.value == p.Root() || !pool.faithful)
               && pool.local[h.value][GRAVEYARD_PROPERTY] == GRAVEYARD_VALUE
  {
    hide Holder, View;
    LocalIff(pool, p.Root(), GRAVEYARD_PROPERTY);
  }

  class Retirer {
    const p: Policy
    /** No call to the appliance fails. */
    const reliable: bool
    var pool: Pool
    var clock: int
    /** Every request made so far to destroy a dataset. */
    var deletions: seq<Deletion>

    constructor (p: Policy, reliable: bool, pool: Pool, clock: int)
      ensures this.p == p && this.reliable == reliable && this.pool == pool && this.clock == clock && deletions == []
    {
      this.p, this.reliable, this.pool, this.clock, deletions := p, reliable, pool, clock, [];
    }

    /** At least this much time passes. */
    method Wait(least: int)
      requires least >= 0
      modifies this`clock
      ensures clock >= old(clock) + least
    {
      var t: int := *;
      clock := clock + least + (if t > 0 then t else 0);
    }

    /** pool.dataset.rename, which takes any time, may be refused, and may land with its answer
        lost; busy means it did not land. */
    method RenameCall(src: string, dst: string) returns (a: Answer)
      modifies this
      ensures clock >= old(clock)
      ensures pool == old(pool) || (CanMove(old(pool.local), src, dst) && a != Busy
                && pool == old(pool).(local := Moved(old(pool.local), src, dst)))
      ensures a == Done ==>
                CanMove(old(pool.local), src, dst) && pool == old(pool).(local := Moved(old(pool.local), src, dst))
      ensures reliable && CanMove(old(pool.local), src, dst) ==> a == Done
    {
      Wait(0);
      if !CanMove(pool.local, src, dst) {
        return Failed;
      }
      var answered := Faults.Reach(reliable);
      var landed: bool := *;
      if answered || landed {
        pool := pool.(local := Moved(pool.local, src, dst));
        return if answered then Done else Failed;
      }
      var busy: bool := *;
      a := if busy then Busy else Failed;
    }

    /** Renames, retrying while the dataset is busy. It makes at most fourteen attempts, sleeps no
        more than 3.2 seconds between two, and reports success only when the rename was done. It gives
        up only when the last answer was something other than busy, or the deadline has passed, or the
        call was cancelled. */
    method RenameWhenReleased(src: string, dst: string)
      returns (ok: bool, attempts: nat, longest: int, last: Answer, cancelled: bool)
      modifies this
      ensures 1 <= attempts <= 14 && 0 <= longest <= 3_200 * MILLISECOND
      ensures pool == old(pool) || (CanMove(old(pool.local), src, dst)
                && pool == old(pool).(local := Moved(old(pool.local), src, dst)))
      ensures ok ==> CanMove(old(pool.local), src, dst) && pool == old(pool).(local := Moved(old(pool.local), src, dst))
      ensures ok <==> last == Done
      ensures !ok && last == Busy ==> pool == old(pool) && (cancelled || clock > old(clock) + 30_000 * MILLISECOND)
      ensures reliable && CanMove(old(pool.local), src, dst) ==> ok && attempts == 1
    {
      hide Moved, CanMove;
      var start := clock;
      var deadline := clock + RENAME_RETRY_TIMEOUT;
      var delay := 200 * MILLISECOND;
      ok, attempts, longest, last, cancelled := false, 0, 0, Busy, false;
      while true
        invariant pool == old(pool) && !ok && !cancelled
        invariant delay == Delay(attempts) && clock >= start + Slept(attempts)
        invariant attempts <= 13 && 0 <= longest <= 3_200 * MILLISECOND
        invariant reliable && CanMove(pool.local, src, dst) ==> attempts == 0
        decreases 14 - attempts
      {
        last := RenameCall(src, dst);
        attempts := attempts + 1;
        if last == Done {
          ok := true;
          return;
        }
        if last != Busy || clock > deadline {
          return;
        }
        cancelled := *;
        if cancelled {
          return;
        }
        Delays(attempts - 1);
        Wait(delay);
        longest := if delay > longest then delay else longest;
        if delay < 2_000 * MILLISECOND {
          delay := delay * 2;
        }
      }
    }

    /** Creates the graveyard if it is missing, and refuses a dataset there that is not one. */
    method EnsureGraveyard() returns (ok: bool)
      modifies this`pool
      ensures ok ==> HasRoot(p, pool)
      ensures pool == old(pool)
           || (p.Root() !in old(pool.local)
               && pool == old(pool).(local := old(pool.local)[p.Root() := RootProperties(p)]))
      ensures reliable ==> (ok <==> p.Root() !in old(pool.local) || HasRoot(p, old(pool)))
    {
      var answered := Faults.Reach(reliable);
      if !answered {
        return false;
      }
      if p.Root() in pool.local {
        return LocalProperty(View(pool, p.Root()), GRAVEYARD_PROPERTY) == GRAVEYARD_VALUE;
      }
      answered := Faults.Reach(reliable);
      var landed: bool := *;
      if answered || landed {
        pool := pool.(local := pool.local[p.Root() := RootProperties(p)]);
        assert Holder(pool.local, p.Root(), GRAVEYARD_PROPERTY) == Some(p.Root());
      }
      ok := answered;
    }

    ghost predicate FirstFree(local: map<string, Properties>, id: ID, at: Civil, k: nat)
      requires Valid(at)
    {
      && 1 <= k <= MAX_ENTRY_ATTEMPTS && Destination(p, id, at, k) !in local
      && forall j :: 1 <= j < k ==> Destination(p, id, at, j) in local
    }

    /** Some candidate is free, and the volume can be moved to whichever are. */
    ghost predicate Room(local: map<string, Properties>, id: ID, at: Civil)
      requires Valid(at)
    {
      && (exists k :: 1 <= k <= MAX_ENTRY_ATTEMPTS && Destination(p, id, at, k) !in local)
      && (forall k :: 1 <= k <= MAX_ENTRY_ATTEMPTS && Destination(p, id, at, k) !in local ==>
            CanMove(local, id.DatasetPath(), Destination(p, id, at, k)))
    }

    /** The first candidate name that nothing occupies: a direct child of the graveyard whose name
        reads back as the instant of the retirement. */
    method FreeEntry(id: ID, at: Civil) returns (r: Option<string>)
      requires p.On() && Valid(at)
      ensures r.Some? ==> exists k :: FirstFree(pool.local, id, at, k) && r.value == Destination(p, id, at, k)
      ensures r.Some? ==> r.value !in pool.local && p.Confined(r.value)
                          && DeletedAtFromEntryName(r.value) == Some(Nanos(Truncated(at)))
      ensures reliable && r.None? ==> forall k :: 1 <= k <= MAX_ENTRY_ATTEMPTS ==>
                Destination(p, id, at, k) in pool.local
    {
      hide Nanos, DeletedAtFromEntryName, EntryName, Candidate, Policy.Confined;
      var base := EntryName(id, at);
      var attempt := 1;
      while attempt <= MAX_ENTRY_ATTEMPTS
        invariant 1 <= attempt <= MAX_ENTRY_ATTEMPTS + 1
        invariant forall j :: 1 <= j < attempt ==> Destination(p, id, at, j) in pool.local
      {
        var path := p.Root() + "/" + Candidate(base, attempt);
        assert path == Destination(p, id, at, attempt);
        var answered := Faults.Reach(reliable);
        if !answered {
          return None;
        }
        if path !in pool.local {
          CandidateReadsBack(p, id, at, attempt);
          assert FirstFree(pool.local, id, at, attempt);
          return Some(path);
        }
        attempt := attempt + 1;
      }
      r := None;
    }

    /** Writes the stamps in order and stops at the first that fails. */
    method WriteStamps(dst: string, at: Civil, handle: string) returns (ghost k: nat)
      requires Valid(at)
      modifies this`pool
      ensures k <= 3 && pool == old(pool).(local := StampAll(old(pool.local), dst, Stamps(dst, at, handle)[..k]))
      ensures reliable ==> k == 3
    {
      hide FormatDeletedAt;
      var stamps := Stamps(dst, at, handle);
      var i := 0;
      k := 0;
      while i < 3
        invariant 0 <= i <= 3 && k == i
        invariant pool == old(pool).(local := StampAll(old(pool.local), dst, stamps[..i]))
      {
        var answered := Faults.Reach(reliable);
        var landed: bool := *;
        if answered || landed {
          StampAllSnoc(old(pool.local), dst, stamps[..i], stamps[i]);
          assert stamps[..i] + [stamps[i]] == stamps[..i + 1];
          pool := pool.(local := WithProperty(pool.local, dst, stamps[i].0, stamps[i].1));
          k := k + 1;
        }
        if !answered {
          return;
        }
        i := i + 1;
      }
    }

    /** Renames a volume's dataset into the graveyard and stamps it. Nothing is touched while
        protection is off or for a volume that is not confined; otherwise the graveyard may be
        created, and once the rename has landed the pool is one of the stops, on success always and
        on failure when the answer was lost. */
    method Retire(id: ID, handle: string, at: Civil)
      returns (ok: bool, ghost base: map<string, Properties>, ghost dst: string, ghost k: nat)
      requires Valid(at)
      modifies this
      ensures !p.On() || !Confine(id, p.pool, p.parent) ==> !ok && pool == old(pool)
      ensures base == old(pool.local)
           || (p.Root() !in old(pool.local) && base == old(pool.local)[p.Root() := RootProperties(p)])
      ensures k <= 3
      ensures pool == old(pool).(local := base)
           || (p.On() && Retirable(base, id, at, dst)
               && pool == StoppedAt(old(pool).(local := base), id.DatasetPath(), dst, at, handle, k))
      ensures ok ==> p.On() && Retirable(base, id, at, dst) && HasRoot(p, old(pool).(local := base))
      ensures ok ==> pool == StoppedAt(old(pool).(local := base), id.DatasetPath(), dst, at, handle, k)
      ensures ok && reliable ==> k == 3
      ensures reliable && p.On() && Confine(id, p.pool, p.parent) && HasRoot(p, old(pool)) ==>
                Room(old(pool.local), id, at) ==> ok
    {
      hide Moved, CanMove, Destination, Confine, ID.DatasetPath, View, RootProperties, FormatDeletedAt, Stamps;
      base, dst, k := pool.local, "", 0;
      if !p.On() || !Confine(id, p.pool, p.parent) {
        return false, base, dst, k;
      }
      var src := id.DatasetPath();
      var made := EnsureGraveyard();
      base := pool.local;
      if !made {
        return false, base, dst, k;
      }
      var entry := FreeEntry(id, at);
      if entry.None? {
        return false, base, dst, k;
      }
      dst := entry.value;
      var renamed, _, _, _, _ := RenameWhenReleased(src, entry.value);
      assert StampAll(pool.local, dst, Stamps(dst, at, handle)[..0]) == pool.local;
      if !renamed {
        return false, base, dst, k;
      }
      k := WriteStamps(entry.value, at, handle);
      ok := true;
    }

    ghost predicate Retirable(base: map<string, Properties>, id: ID, at: Civil, dst: string)
      requires Valid(at)
    {
      CanMove(base, id.DatasetPath(), dst)
      && exists attempt :: 1 <= attempt <= MAX_ENTRY_ATTEMPTS && dst == Destination(p, id, at, attempt)
    }

    /** pool.dataset.delete, recursively; the answer may be lost. */
    method DestroyCall(id: string) returns (confirmed: bool)
      modifies this`pool, this`deletions
      ensures exists landed :: (confirmed ==> landed) && deletions == old(deletions) + [Deletion(id, landed, confirmed)]
                && pool == old(pool).(local := if landed then Without(old(pool.local), {id}) else old(pool.local))
      ensures reliable ==> confirmed
    {
      confirmed := Faults.Reach(reliable);
      var landed: bool := *;
      landed := landed || confirmed;
      if landed {
        pool := pool.(local := Without(pool.local, {id}));
      }
      deletions := deletions + [Deletion(id, landed, confirmed)];
    }

    /** Destroys what the listing shows to be reapable, asking for each such dataset at most once. What
        goes is that, with what is beneath it, and when no call fails all of it; the list returned
        names exactly the ones whose destruction the appliance confirmed. */
    method Sweep(now: int) returns (destroyed: seq<string>, ghost asked: seq<Deletion>)
      modifies this`pool, this`deletions
      ensures deletions == old(deletions) + asked && destroyed == Confirmed(asked)
      ensures forall i :: 0 <= i < |asked| ==> Reaps(p, Listing(old(pool), now), asked[i].id)
      ensures forall i, j :: 0 <= i < j < |asked| ==> asked[i].id != asked[j].id
      ensures pool == old(pool).(local := Without(old(pool.local), Gone(asked)))
      ensures reliable ==> forall d :: Reaps(p, Listing(old(pool), now), d) ==> d in destroyed
    {
      hide Reaps, Without, Gone, Confirmed, Policy.Confined;
      destroyed, asked := [], [];
      NothingAsked();
      WithoutNothing(pool.local);
      if !p.On() {
        NothingReaps(p, pool, now);
        return;
      }
      var answered := Faults.Reach(reliable);
      if !answered {
        return;
      }
      var listed := pool;
      var prefix := p.Root() + "/";
      ghost var all := set d | d in listed.local && prefix <= d;
      var rest := set d | d in listed.local && prefix <= d;
      while rest != {}
        invariant rest <= all && deletions == old(deletions) + asked && destroyed == Confirmed(asked)
        invariant forall i :: 0 <= i < |asked| ==>
                    Reaps(p, Listing(listed, now), asked[i].id) && asked[i].id in all - rest
        invariant forall i, j :: 0 <= i < j < |asked| ==> asked[i].id != asked[j].id
        invariant pool == listed.(local := Without(listed.local, Gone(asked)))
        invariant reliable ==> forall d :: d in all - rest && Reaps(p, Listing(listed, now), d) ==> d in destroyed
        decreases |rest|
      {
        var d :| d in rest;
        rest := rest - {d};
        if !Reaps(p, Listing(listed, now), d) {
          continue;
        }
        var confirmed := DestroyCall(d);
        ghost var one := deletions[|deletions| - 1];
        AskedOnce(asked, one);
        if one.landed {
          WithoutBoth(listed.local, Gone(asked), d);
        }
        asked := asked + [one];
        if confirmed {
          destroyed := destroyed + [d];
        }
      }
      forall d | Reaps(p, Listing(listed, now), d) ensures d in all {
        ReapsPrefixed(p, Listing(listed, now), d);
      }
    }
  }

  /** One request to destroy a dataset, whether it took effect, and whether it was confirmed. */
  datatype Deletion = Deletion(id: string, landed: bool, confirmed: bool)

  function Confirmed(asked: seq<Deletion>): seq<string> {
    if asked == [] then []
    else
      var last := asked[|asked| - 1];
      Confirmed(asked[..|asked| - 1]) + if last.confirmed then [last.id] else []
  }

  function Gone(asked: seq<Deletion>): set<string> {
    set i | 0 <= i < |asked| && asked[i].landed :: asked[i].id
  }

  lemma AskedOnce(asked: seq<Deletion>, one: Deletion)
    ensures Confirmed(asked + [one]) == Confirmed(asked) + if one.confirmed then [one.id] else []
    ensures Gone(asked + [one]) == Gone(asked) + if one.landed then {one.id} else {}
  {
    var all := asked + [one];
    assert all[..|asked|] == asked;
    assert all[|asked|] == one;
    forall d | d in Gone(asked) ensures d in Gone(all) {
      var i :| 0 <= i < |asked| && asked[i].landed && asked[i].id == d;
      assert all[i] == asked[i];
    }
  }

  lemma NothingAsked()
    ensures Confirmed([]) == [] && Gone([]) == {}
  {
  }

  lemma WithoutNothing(local: map<string, Properties>)
    ensures Without(local, {}) == local
  {
  }

  lemma NothingReaps(p: Policy, pool: Pool, now: int)
    requires !p.On()
    ensures forall d :: !Reaps(p, Listing(pool, now), d)
  {
  }

  lemma {:induction false} StampAllSnoc(local: map<string, Properties>, dst: string, stamps: seq<(string, string)>,
                                        last: (string, string))
    ensures StampAll(local, dst, stamps + [last]) == WithProperty(StampAll(local, dst, stamps), dst, last.0, last.1)
    decreases |stamps|
  {
    if stamps == [] {
      assert [last][1..] == [];
      assert stamps + [last] == [last];
      assert StampAll(WithProperty(local, dst, last.0, last.1), dst, []) == WithProperty(local, dst, last.0, last.1);
    } else {
      assert (stamps + [last])[1..] == stamps[1..] + [last];
      StampAllSnoc(WithProperty(local, dst, stamps[0].0, stamps[0].1), dst, stamps[1..], last);
    }
  }

  lemma WithoutBoth(local: map<string, Properties>, gone: set<string>, d: string)
    ensures Without(Without(local, gone), {d}) == Without(local, gone + {d})
  {
    hide AtOrUnder;
    assert d in {d} && d in gone + {d};
  }

  lemma ReapsPrefixed(p: Policy, l: Listing, id: string)
    requires Reaps(p, l, id)
    ensures id in l.pool.local && p.Root() + "/" <= id
  {
    hide View, VerifyOwned, DeletedAt;
  }

  // A retirement as a run of the machine

  function Marks(dst: string, k: nat): seq<Event> {
    if k == 0 then [] else [Mark(dst)] + Marks(dst, k - 1)
  }

  lemma {:induction false} MarksRun(p: Policy, m: Machine, dst: string, k: nat)
    requires dst in m.work && Valid(m.work[dst].at) && m.work[dst].next + k <= 3
    ensures var w := m.work[dst];
            && Runs(p, m, Marks(dst, k))
            && Run(p, m, Marks(dst, k)).pool
               == m.pool.(local := StampAll(m.pool.local, dst, Stamps(dst, w.at, w.handle)[w.next..w.next + k]))
    decreases k
  {
    hide FormatDeletedAt;
    if k > 0 {
      var w, after := m.work[dst], Next(p, m, Mark(dst));
      var stamps := Stamps(dst, w.at, w.handle);
      MarksRun(p, after, dst, k - 1);
      assert Marks(dst, k)[0] == Mark(dst) && Marks(dst, k)[1..] == Marks(dst, k - 1);
      assert stamps[w.next..w.next + k][1..] == stamps[w.next + 1..w.next + k];
    }
  }

  /** Each stop of a retirement is reached by a run of the machine: its rename, then one mark for
      each stamp that landed. What holds of every run therefore holds of every stop. */
  lemma RetireIsRun(p: Policy, m: Machine, e: Event, k: nat)
    requires e.Move? && Enabled(p, m, e) && k <= 3
    ensures var dst := Destination(p, e.id, e.at, e.attempt);
            var es := [e] + Marks(dst, k);
            Runs(p, m, es) && Run(p, m, es).pool == StoppedAt(m.pool, e.id.DatasetPath(), dst, e.at, e.handle, k)
  {
    hide FormatDeletedAt, Moved, Destination, CanMove, ID.DatasetPath, Confine, Nanos;
    var dst := Destination(p, e.id, e.at, e.attempt);
    MarksRun(p, Next(p, m, e), dst, k);
    assert ([e] + Marks(dst, k))[1..] == Marks(dst, k);
    assert Stamps(dst, e.at, e.handle)[0..k] == Stamps(dst, e.at, e.handle)[..k];
  }

  // A sweep as a run of the machine

  function Destroys(reaper: nat, order: seq<string>): seq<Event> {
    if order == [] then [] else [Destroy(reaper, order[0])] + Destroys(reaper, order[1..])
  }

  lemma {:induction false} DestroysRun(p: Policy, m: Machine, reaper: nat, order: seq<string>)
    requires reaper in m.listings && forall d :: d in order ==> Reaps(p, m.listings[reaper], d)
    ensures Runs(p, m, Destroys(reaper, order))
    ensures Run(p, m, Destroys(reaper, order)).pool == m.pool.(local := Without(m.pool.local, set d | d in order))
    decreases |order|
  {
    hide Reaps, AtOrUnder;
    if order == [] {
      WithoutNothing(m.pool.local);
      assert (set d | d in order) == {};
    } else {
      var e, rest := Destroy(reaper, order[0]), order[1..];
      assert order == [order[0]] + rest;
      var after := Next(p, m, e);
      DestroysRun(p, after, reaper, rest);
      assert Destroys(reaper, order)[1..] == Destroys(reaper, rest);
      WithoutMore(m.pool.local, order[0], set d | d in rest);
      assert {order[0]} + (set d | d in rest) == set d | d in order;
    }
  }

  lemma WithoutMore(local: map<string, Properties>, d: string, more: set<string>)
    ensures Without(Without(local, {d}), more) == Without(local, {d} + more)
  {
    hide AtOrUnder;
    assert d in {d} && d in {d} + more;
    assert forall g :: g in {d} + more <==> g == d || g in more;
  }

  /** What a sweep does undisturbed is a run of the machine: its listing, then one destroy for each
      request that took effect. */
  lemma SweepIsRun(p: Policy, m: Machine, reaper: nat, now: int, order: seq<string>)
    requires forall d :: d in order ==> Reaps(p, Listing(m.pool, now), d)
    ensures var es := [List(reaper, now)] + Destroys(reaper, order);
            Runs(p, m, es) && Run(p, m, es).pool == m.pool.(local := Without(m.pool.local, set d | d in order))
  {
    hide Reaps, Without;
    var listed := Next(p, m, List(reaper, now));
    DestroysRun(p, listed, reaper, order);
    assert ([List(reaper, now)] + Destroys(reaper, order))[1..] == Destroys(reaper, order);
  }
}
