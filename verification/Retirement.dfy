/** Retiring a volume and reaping the graveyard, over a pool whose datasets inherit properties. */
module Retirement {
  import opened Wrappers
  import opened Text
  import opened Timestamps
  import opened Volume
  import opened Graveyard

  type Properties = map<string, string>

  /** The datasets of an appliance with the properties set on each. An appliance that is not
      `faithful` reports an inherited property as if it were set locally. */
  datatype Pool = Pool(local: map<string, Properties>, faithful: bool)

  function ParentOf(id: string): (r: string)
    ensures '/' in id ==> |r| < |id|
  {
    var last := LastComponent(id);
    if |last| < |id| then id[..|id| - |last| - 1] else ""
  }

  lemma ParentOfEntry(dir: string, name: string)
    requires '/' !in name
    ensures ParentOf(dir + "/" + name) == dir
  {
    hide LastComponent;
    LastOf(dir, name);
    assert |dir + "/" + name| == |dir| + 1 + |name|;
    assert (dir + "/" + name)[..|dir|] == dir;
  }

  /** The dataset a property is read from: the nearest one, going up, that sets it. */
  function Holder(local: map<string, Properties>, id: string, key: string): (r: Option<string>)
    ensures r.Some? ==> r.value in local && key in local[r.value] && |r.value| <= |id|
    decreases |id|
  {
    if id in local && key in local[id] then Some(id)
    else if '/' !in id then None
    else Holder(local, ParentOf(id), key)
  }

  function Shown(pool: Pool, id: string, key: string): Option<Property> {
    var h := Holder(pool.local, id, key);
    if h.None? then None
    else Some(Property(pool.local[h.value][key],
                       if h.value == id || !pool.faithful then SOURCE_LOCAL else "INHERITED"))
  }

  const MARKS := {OWNER_PROPERTY, OWNER_ID_PROPERTY, GRAVEYARD_PROPERTY, DELETED_AT_PROPERTY, RETIRED_FROM_PROPERTY}

  /** The properties the appliance answers a query with. */
  function View(pool: Pool, id: string): map<string, Property> {
    map key | key in MARKS && Shown(pool, id, key).Some? :: Shown(pool, id, key).value
  }

  predicate Owned(pool: Pool, id: string) {
    VerifyOwned(id, View(pool, id))
  }

  function RetiredAt(pool: Pool, id: string): Option<int> {
    DeletedAt(id, View(pool, id))
  }

  predicate Expired(p: Policy, pool: Pool, id: string, now: int) {
    Reapable(p, id, View(pool, id), now)
  }

  /** A property is taken for the dataset's own when the dataset sets it, or when one above does and the
      appliance does not tell inherited from local. */
  lemma LocalIff(pool: Pool, id: string, key: string)
    requires key in MARKS
    ensures var h := Holder(pool.local, id, key);
            LocalProperty(View(pool, id), key) ==
            if h.Some? && (h.value == id || !pool.faithful) then pool.local[h.value][key] else ""
  {
    hide Holder;
  }

  /** On an appliance that tells them apart, a deletion timestamp counts only where it was set: a dataset
      that does not set one was retired when its name says. */
  lemma InheritedTimestampIgnored(pool: Pool, id: string)
    requires pool.faithful && (id in pool.local ==> DELETED_AT_PROPERTY !in pool.local[id])
    ensures RetiredAt(pool, id) == DeletedAtFromEntryName(id)
  {
    hide Holder, View, ParseDeletedAt, DeletedAtFromEntryName;
    LocalIff(pool, id, DELETED_AT_PROPERTY);
    HolderSets(pool.local, id, DELETED_AT_PROPERTY);
    assert ParseDeletedAt("").None? by { BlankReadsAsNothing(); }
  }

  lemma HolderSets(local: map<string, Properties>, id: string, key: string)
    ensures Holder(local, id, key) == Some(id) ==> id in local && key in local[id]
  {
  }

  lemma BlankReadsAsNothing()
    ensures ParseDeletedAt("").None?
  {
  }

  // What the appliance does

  /** The dataset and everything beneath it, under the new name. */
  function Moved(local: map<string, Properties>, src: string, dst: string): map<string, Properties> {
    var names := set d | d in local && AtOrUnder(d, src) :: dst + d[|src|..];
    (map d | d in local && !AtOrUnder(d, src) :: local[d])
    + (map e | e in names && src + e[|dst|..] in local :: local[src + e[|dst|..]])
  }

  /** A rename carries every dataset at or beneath the old name, with its properties, to the same place
      beneath the new one, and leaves every other as it was. */
  lemma MovedCarries(local: map<string, Properties>, src: string, dst: string, d: string)
    requires d in local
    ensures var after := Moved(local, src, dst);
            && (AtOrUnder(d, src) ==> dst + d[|src|..] in after && after[dst + d[|src|..]] == local[d])
            && (!AtOrUnder(d, src) && !AtOrUnder(d, dst) ==> d in after && after[d] == local[d])
  {
    if AtOrUnder(d, src) {
      var e := dst + d[|src|..];
      assert e[|dst|..] == d[|src|..];
      assert src + e[|dst|..] == d;
    } else if !AtOrUnder(d, dst) {
      forall x | x in local && AtOrUnder(x, src) ensures dst + x[|src|..] != d {
        assert x[|src|..] == "" || (x[|src|] == '/' && x[|src|..] == "/" + x[|src| + 1..]);
        assert x[|src|..] != "" ==> dst + x[|src|..] == dst + "/" + x[|src| + 1..];
      }
    }
  }

  /** A dataset cannot be renamed onto another or into itself. */
  predicate CanMove(local: map<string, Properties>, src: string, dst: string) {
    src in local && dst !in local && !AtOrUnder(dst, src)
  }

  function WithProperty(local: map<string, Properties>, id: string, key: string, value: string): map<string, Properties>
  {
    if id in local then local[id := local[id][key := value]] else local
  }

  function Without(local: map<string, Properties>, gone: set<string>): map<string, Properties> {
    map d | d in local && !(exists g :: g in gone && AtOrUnder(d, g)) :: local[d]
  }

  /** The three stamps of a retired dataset, in the order they are written. */
  function Stamps(dst: string, at: Civil, handle: string): (r: seq<(string, string)>)
    requires Valid(at)
    ensures |r| == 3
  {
    [(OWNER_ID_PROPERTY, dst), (DELETED_AT_PROPERTY, FormatDeletedAt(at)), (RETIRED_FROM_PROPERTY, handle)]
  }

  function StampAll(local: map<string, Properties>, dst: string, stamps: seq<(string, string)>): map<string, Properties>
  {
    if stamps == [] then local
    else StampAll(WithProperty(local, dst, stamps[0].0, stamps[0].1), dst, stamps[1..])
  }

  // Reading an entry of the graveyard

  lemma EntryParent(p: Policy, id: string)
    requires p.Confined(id)
    ensures '/' in id && ParentOf(id) == p.Root()
  {
    var prefix := p.Root() + "/";
    assert id == p.Root() + "/" + id[|prefix|..];
    ParentOfEntry(p.Root(), id[|prefix|..]);
    assert id[|p.Root()|] == '/';
  }

  lemma EntryHolder(p: Policy, local: map<string, Properties>, id: string, key: string)
    requires p.Confined(id)
    ensures Holder(local, id, key)
         == if id in local && key in local[id] then Some(id) else Holder(local, p.Root(), key)
  {
    hide ParentOf;
    EntryParent(p, id);
  }

  /** Properties are read from a dataset and what is above it, so a change elsewhere is not seen. */
  lemma {:induction false} HolderSame(a: map<string, Properties>, b: map<string, Properties>, id: string, key: string)
    requires forall d :: AtOrUnder(id, d) ==> (d in a <==> d in b)
    requires forall d :: AtOrUnder(id, d) && d in a && d in b ==> a[d] == b[d]
    ensures Holder(a, id, key) == Holder(b, id, key)
    decreases |id|
  {
    assert AtOrUnder(id, id);
    if '/' in id {
      var up := ParentOf(id);
      UnderParent(id);
      forall d | AtOrUnder(up, d) ensures AtOrUnder(id, d) {
        UnderTransitive(id, up, d);
      }
      HolderSame(a, b, up, key);
    }
  }

  lemma {:induction false} UnderParent(id: string)
    requires '/' in id
    ensures AtOrUnder(id, ParentOf(id))
  {
    var last := LastComponent(id);
    SlashBefore(id);
    assert id[..|id| - |last| - 1] + "/" == id[..|id| - |last|];
  }

  lemma {:induction false} SlashBefore(id: string)
    requires '/' in id
    ensures id[|id| - |LastComponent(id)| - 1] == '/'
  {
    var rest := id[1..];
    if '/' in rest {
      SlashBefore(rest);
    } else {
      assert id[0] == '/';
    }
  }

  lemma UnderTransitive(a: string, b: string, c: string)
    requires AtOrUnder(a, b) && AtOrUnder(b, c)
    ensures AtOrUnder(a, c)
  {
  }

  lemma NotAbove(p: Policy, id: string, d: string)
    requires p.Confined(id) && AtOrUnder(p.Root(), d)
    ensures !AtOrUnder(d, id)
  {
  }
}
