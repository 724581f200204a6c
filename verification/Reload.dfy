/** Adopting an edited configuration file without a restart: only credentials may change. */
module Reload {
  import opened Wrappers

  /** A floating-point setting. A number differs from another as numbers do; NaN differs from
      everything, itself included. */
  datatype Float = NaN | Number(value: real)

  predicate SameFloat(a: Float, b: Float) {
    a.Number? && b.Number? && a.value == b.value
  }

  datatype Credential = Credential(username: string, apiKey: string, caCert: seq<int>, insecure: bool)

  datatype Quotas = Quotas(enabled: bool, defaultBytes: int, perNamespace: map<string, int>)

  datatype Protection = Protection(enabled: bool, grace: int, graveyard: string, reap: int)

  /** One appliance. Settings with a default or another spelling are held as the driver reads them. */
  datatype Backend = Backend(name: string, endpoint: string, flavour: string, pool: string, parentDataset: string,
                             reservedBytes: int, reservedPercent: Float, rateLimit: Float, breakerThreshold: int,
                             breakerReset: int, quotas: Quotas, protection: Protection, credential: Credential)

  datatype Config = Config(nodeID: string, metricsAddr: string, metricsInterval: int, backends: map<string, Backend>)

  datatype FieldChange = FieldChange(backend: string, field: string)

  // Equality of the parts

  /** Same length, and every entry of the first in the second. */
  method QuotasEqual(a: Quotas, b: Quotas) returns (r: bool)
    ensures r <==> a == b
  {
    if a.enabled != b.enabled || a.defaultBytes != b.defaultBytes {
      return false;
    }
    if |a.perNamespace| != |b.perNamespace| {
      return false;
    }
    var rest := a.perNamespace.Keys;
    while rest != {}
      invariant rest <= a.perNamespace.Keys
      invariant forall k :: k in a.perNamespace && k !in rest ==>
                  k in b.perNamespace && b.perNamespace[k] == a.perNamespace[k]
      decreases |rest|
    {
      var k :| k in rest;
      if k !in b.perNamespace || b.perNamespace[k] != a.perNamespace[k] {
        return false;
      }
      rest := rest - {k};
    }
    SameSize(a.perNamespace, b.perNamespace);
    r := true;
  }

  lemma SameSize(a: map<string, int>, b: map<string, int>)
    requires |a| == |b| && forall k :: k in a ==> k in b && b[k] == a[k]
    ensures a == b
  {
    assert a.Keys <= b.Keys && |a.Keys| == |b.Keys|;
    SubsetOfSameSize(a.Keys, b.Keys);
  }

  lemma SubsetOfSameSize(a: set<string>, b: set<string>)
    requires a <= b && |a| == |b|
    ensures a == b
  {
    assert |b - a| == |b| - |a|;
  }

  /** The settings of one appliance that differ, by name. */
  function Differences(a: Backend, b: Backend): seq<string> {
    (if a.name != b.name then ["name"] else [])
    + (if a.endpoint != b.endpoint then ["endpoint"] else [])
    + (if a.flavour != b.flavour then ["flavour"] else [])
    + (if a.pool != b.pool then ["pool"] else [])
    + (if a.parentDataset != b.parentDataset then ["parentDataset"] else [])
    + (if a.reservedBytes != b.reservedBytes then ["reservedBytes"] else [])
    + (if !SameFloat(a.reservedPercent, b.reservedPercent) then ["reservedPercent"] else [])
    + (if !SameFloat(a.rateLimit, b.rateLimit) then ["rateLimit"] else [])
    + (if a.breakerThreshold != b.breakerThreshold then ["breakerThreshold"] else [])
    + (if a.breakerReset != b.breakerReset then ["breakerResetTimeout"] else [])
    + (if a.quotas != b.quotas then ["namespaceQuotas"] else [])
    + (if a.protection != b.protection then ["deleteProtection"] else [])
  }

  /** No number among an appliance's settings is a NaN. */
  predicate Numeric(b: Backend) {
    b.reservedPercent.Number? && b.rateLimit.Number?
  }

  /** Two appliances differ in nothing but the credential, and hold no NaN. */
  predicate Alike(a: Backend, b: Backend) {
    Numeric(a) && a == b.(credential := a.credential)
  }

  lemma AlikeIff(a: Backend, b: Backend)
    ensures Differences(a, b) == [] <==> Alike(a, b)
  {
  }

  /** What may replace a running configuration: the same node, metrics settings and appliances, each
      like its predecessor. */
  ghost predicate Reloadable(cur: Config, next: Config) {
    && cur.nodeID == next.nodeID && cur.metricsAddr == next.metricsAddr && cur.metricsInterval == next.metricsInterval
    && cur.backends.Keys == next.backends.Keys
    && forall k :: k in cur.backends && k in next.backends ==> Alike(cur.backends[k], next.backends[k])
  }

  function DriverChanges(cur: Config, next: Config): seq<FieldChange> {
    (if cur.nodeID != next.nodeID then [FieldChange("", "nodeID")] else [])
    + (if cur.metricsAddr != next.metricsAddr then [FieldChange("", "metricsAddr")] else [])
    + (if cur.metricsInterval != next.metricsInterval then [FieldChange("", "metricsInterval")] else [])
  }

  function Named(backend: string, fields: seq<string>): seq<FieldChange> {
    seq(|fields|, i requires 0 <= i < |fields| => FieldChange(backend, fields[i]))
  }

  /** A setting of an appliance that both configurations have is not the same in both. */
  ghost predicate Differs(cur: Config, next: Config, k: string, field: string) {
    k in cur.backends && k in next.backends && field in Differences(cur.backends[k], next.backends[k])
  }

  /** Every change that needs a restart. There is none exactly when the configuration is reloadable,
      and each one listed for an appliance is one. */
  method CheckReloadable(cur: Config, next: Config) returns (changed: seq<FieldChange>)
    ensures changed == [] <==> Reloadable(cur, next)
    ensures forall c :: c in changed ==> c in DriverChanges(cur, next) || Genuine(cur, next, c)
    ensures forall c :: c in DriverChanges(cur, next) ==> c in changed
    ensures forall k, f :: Differs(cur, next, k, f) ==> FieldChange(k, f) in changed
  {
    hide Differences, Alike, Genuine;
    var driver := DriverChanges(cur, next);
    var backends := BackendChanges(cur, next);
    var added := AddedBackends(cur, next);
    changed := driver + backends + added;
  }

  /** The appliances that are gone, and what differs in those that are not. */
  method BackendChanges(cur: Config, next: Config) returns (changed: seq<FieldChange>)
    ensures changed == [] <==>
              forall k :: k in cur.backends ==> k in next.backends && Alike(cur.backends[k], next.backends[k])
    ensures forall c :: c in changed ==> Genuine(cur, next, c)
    ensures forall k, f :: Differs(cur, next, k, f) ==> FieldChange(k, f) in changed
  {
    hide Differences, Alike;
    changed := [];
    var rest := cur.backends.Keys;
    while rest != {}
      invariant rest <= cur.backends.Keys
      invariant changed == [] <==> forall k :: k in cur.backends && k !in rest ==>
                  k in next.backends && Alike(cur.backends[k], next.backends[k])
      invariant forall c :: c in changed ==> Genuine(cur, next, c)
      invariant forall k, f :: Differs(cur, next, k, f) && k !in rest ==> FieldChange(k, f) in changed
      decreases |rest|
    {
      var k :| k in rest;
      rest := rest - {k};
      if k !in next.backends {
        changed := changed + [FieldChange(k, "(removed)")];
      } else {
        var fields := Differences(cur.backends[k], next.backends[k]);
        AlikeIff(cur.backends[k], next.backends[k]);
        NamedAre(k, fields);
        changed := changed + Named(k, fields);
      }
    }
  }

  method AddedBackends(cur: Config, next: Config) returns (changed: seq<FieldChange>)
    ensures changed == [] <==> next.backends.Keys <= cur.backends.Keys
    ensures forall c :: c in changed ==> Genuine(cur, next, c)
  {
    hide Differences;
    changed := [];
    var rest := next.backends.Keys;
    while rest != {}
      invariant rest <= next.backends.Keys
      invariant changed == [] <==> forall k :: k in next.backends && k !in rest ==> k in cur.backends
      invariant forall c :: c in changed ==> Genuine(cur, next, c)
      decreases |rest|
    {
      var k :| k in rest;
      rest := rest - {k};
      if k !in cur.backends {
        changed := changed + [FieldChange(k, "(added)")];
      }
    }
  }

  /** The change is one of an appliance: added, removed, or a setting of it that differs. */
  ghost predicate Genuine(cur: Config, next: Config, c: FieldChange) {
    || (c.field == "(removed)" && c.backend in cur.backends && c.backend !in next.backends)
    || (c.field == "(added)" && c.backend !in cur.backends && c.backend in next.backends)
    || (c.backend in cur.backends && c.backend in next.backends
        && c.field in Differences(cur.backends[c.backend], next.backends[c.backend]))
  }

  lemma NamedAre(backend: string, fields: seq<string>)
    ensures forall c :: c in Named(backend, fields) <==> c.backend == backend && c.field in fields
    ensures Named(backend, fields) == [] <==> fields == []
  {
    forall f | f in fields ensures FieldChange(backend, f) in Named(backend, fields) {
      var i :| 0 <= i < |fields| && fields[i] == f;
      assert Named(backend, fields)[i] == FieldChange(backend, f);
    }
  }

  // An equivalence, but for NaN

  lemma ReloadableSymmetric(a: Config, b: Config)
    requires Reloadable(a, b)
    ensures Reloadable(b, a)
  {
  }

  lemma ReloadableTransitive(a: Config, b: Config, c: Config)
    requires Reloadable(a, b) && Reloadable(b, c)
    ensures Reloadable(a, c)
  {
  }

  ghost predicate AllNumeric(c: Config) {
    forall k :: k in c.backends ==> Numeric(c.backends[k])
  }

  /** A configuration may replace itself unless one of its settings is a NaN; and one with a NaN can
      be replaced by nothing at all, so no credential is taken over without a restart. */
  lemma ReloadableReflexiveIff(c: Config)
    ensures Reloadable(c, c) <==> AllNumeric(c)
    ensures !AllNumeric(c) ==> forall next :: !Reloadable(c, next)
  {
    if !AllNumeric(c) {
      var k :| k in c.backends && !Numeric(c.backends[k]);
      forall next ensures !Reloadable(c, next) {
        if k in next.backends {
          assert !Alike(c.backends[k], next.backends[k]);
        }
      }
    }
  }

  // Rotation

  /** The configuration in force and the credentials recorded since startup. */
  datatype Running = Running(cur: Config, creds: map<string, Credential>)

  function Rotated(cur: Config, next: Config): map<string, Credential> {
    map k | k in next.backends && k in cur.backends && cur.backends[k].credential != next.backends[k].credential ::
      next.backends[k].credential
  }

  function Filled(cur: Config, next: Config): Config {
    if next.nodeID == "" then next.(nodeID := cur.nodeID) else next
  }

  /** One attempt: a file that cannot be loaded, or is not reloadable, changes nothing. */
  ghost function Attempt(r: Running, file: Option<Config>): Running {
    if file.None? then r
    else
      var next := Filled(r.cur, file.value);
      if !Reloadable(r.cur, next) then r
      else Running(next, r.creds + Rotated(r.cur, next))
  }

  /** A file that names no node is taken for one that names the running node, and the node id stays. */
  lemma UnnamedNodeKept(r: Running, next: Config)
    requires Reloadable(r.cur, next)
    ensures Attempt(r, Some(next.(nodeID := ""))) == Attempt(r, Some(next))
    ensures Attempt(r, Some(next)) == Running(next, r.creds + Rotated(r.cur, next))
    ensures next.nodeID == r.cur.nodeID
  {
    assert next.(nodeID := r.cur.nodeID) == next;
  }

  ghost function Attempts(r: Running, files: seq<Option<Config>>): Running
    decreases |files|
  {
    if files == [] then r else Attempts(Attempt(r, files[0]), files[1..])
  }

  /** A copy of an appliance's settings as it is presented when dialling. */
  function Current(creds: map<string, Credential>, b: Backend): Backend {
    if b.name in creds then b.(credential := creds[b.name]) else b
  }

  /** The startup copy of every appliance filed under its own name presents the credential in force. */
  ghost predicate Presents(startup: Config, r: Running) {
    forall k :: k in startup.backends && startup.backends[k].name == k ==>
      k in r.cur.backends && Current(r.creds, startup.backends[k]).credential == r.cur.backends[k].credential
  }

  ghost predicate Faithful(startup: Config, r: Running) {
    (r.cur == startup || Reloadable(startup, r.cur)) && Presents(startup, r)
  }

  lemma AttemptKeeps(startup: Config, r: Running, file: Option<Config>)
    requires Faithful(startup, r)
    ensures Faithful(startup, Attempt(r, file))
  {
    hide Alike;
    if file.Some? {
      var next := Filled(r.cur, file.value);
      if Reloadable(r.cur, next) {
        if r.cur != startup {
          ReloadableTransitive(startup, r.cur, next);
        }
        assert r.cur.backends.Keys == next.backends.Keys;
      }
    }
  }

  /** After any sequence of attempts the running configuration is the startup one or may still
      replace it, and every appliance filed under its own name presents, from its startup copy, the
      credential of the latest file accepted. */
  lemma {:induction false} AttemptsKeep(startup: Config, r: Running, files: seq<Option<Config>>)
    requires Faithful(startup, r)
    ensures Faithful(startup, Attempts(r, files))
    decreases |files|
  {
    hide Faithful, Attempt;
    if files != [] {
      AttemptKeeps(startup, r, files[0]);
      AttemptsKeep(startup, Attempt(r, files[0]), files[1..]);
    }
  }

  lemma FaithfulAtStart(startup: Config)
    ensures Faithful(startup, Running(startup, map[]))
  {
  }

  /** The startup configuration with one credential changed. */
  function Rotating(startup: Config, k: string, c: Credential): Config
    requires k in startup.backends
  {
    startup.(backends := startup.backends[k := startup.backends[k].(credential := c)])
  }

  lemma RotatingIsAccepted(startup: Config, k: string, c: Credential)
    requires AllNumeric(startup) && k in startup.backends && c != startup.backends[k].credential
    ensures Attempt(Running(startup, map[]), Some(Rotating(startup, k, c)))
         == Running(Rotating(startup, k, c), map[k := c])
  {
    var next := Rotating(startup, k, c);
    assert startup.backends.Keys == next.backends.Keys;
    assert Filled(startup, next) == next;
    assert Rotated(startup, next) == map[k := c];
    assert Reloadable(startup, next);
    assert map[] + map[k := c] == map[k := c];
  }

  /** Rotating the credential of an appliance filed under another name than its own leaves it
      presenting its old one. */
  lemma MisfiledStaysStale(startup: Config, k: string, c: Credential)
    requires AllNumeric(startup) && k in startup.backends && startup.backends[k].name != k
    requires c != startup.backends[k].credential
    ensures var r := Attempt(Running(startup, map[]), Some(Rotating(startup, k, c)));
            && k in r.cur.backends && r.cur.backends[k].credential == c
            && Current(r.creds, startup.backends[k]).credential == startup.backends[k].credential
  {
    RotatingIsAccepted(startup, k, c);
  }

  /** And rotating the one it is named like makes it present that one's credential. */
  lemma MisfiledTakesOther(startup: Config, k: string, other: string, c: Credential)
    requires AllNumeric(startup) && k in startup.backends && other in startup.backends && k != other
    requires startup.backends[k].name == other && c != startup.backends[other].credential
    ensures var r := Attempt(Running(startup, map[]), Some(Rotating(startup, other, c)));
            && k in r.cur.backends && r.cur.backends[k].credential == startup.backends[k].credential
            && Current(r.creds, startup.backends[k]).credential == c
  {
    RotatingIsAccepted(startup, other, c);
  }

  /** After any attempts, the startup copy of the appliance presents the credential in force. */
  ghost predicate AlwaysPresents(startup: Config, k: string)
    requires k in startup.backends
  {
    forall files: seq<Option<Config>> ::
      var r := Attempts(Running(startup, map[]), files);
      k in r.cur.backends && Current(r.creds, startup.backends[k]).credential == r.cur.backends[k].credential
  }

  lemma {:induction false} NothingAdopted(r: Running, files: seq<Option<Config>>)
    requires !AllNumeric(r.cur)
    ensures Attempts(r, files) == r
    decreases |files|
  {
    hide Reloadable, AllNumeric;
    if files != [] {
      ReloadableReflexiveIff(r.cur);
      NothingAdopted(r, files[1..]);
    }
  }

  /** It does so whatever files come if and only if it is filed under its own name, or a NaN keeps
      every file from being adopted. */
  lemma PresentsIff(startup: Config, k: string)
    requires k in startup.backends
    ensures AlwaysPresents(startup, k) <==> startup.backends[k].name == k || !AllNumeric(startup)
  {
    if !AllNumeric(startup) {
      forall files: seq<Option<Config>> ensures Attempts(Running(startup, map[]), files) == Running(startup, map[]) {
        NothingAdopted(Running(startup, map[]), files);
      }
    } else {
      PresentsNumeric(startup, k);
    }
  }

  lemma PresentsNumeric(startup: Config, k: string)
    requires AllNumeric(startup) && k in startup.backends
    ensures AlwaysPresents(startup, k) <==> startup.backends[k].name == k
  {
    hide Attempt, Current, Reloadable;
    if startup.backends[k].name == k {
      FaithfulAtStart(startup);
      forall files: seq<Option<Config>>
        ensures var r := Attempts(Running(startup, map[]), files);
                k in r.cur.backends && Current(r.creds, startup.backends[k]).credential == r.cur.backends[k].credential
      {
        AttemptsKeep(startup, Running(startup, map[]), files);
      }
    } else {
      var was := startup.backends[k].credential;
      var c := was.(insecure := !was.insecure);
      MisfiledStaysStale(startup, k, c);
      var files := [Some(Rotating(startup, k, c))];
      var r := Attempt(Running(startup, map[]), files[0]);
      assert files[1..] == [] && Attempts(Running(startup, map[]), files) == Attempts(r, []) == r;
      assert !AlwaysPresents(startup, k);
    }
  }

  // The driver

  class Reloader {
    var cur: Config
    var creds: map<string, Credential>

    constructor (cur: Config)
      ensures this.cur == cur && creds == map[]
    {
      this.cur, creds := cur, map[];
    }

    ghost function State(): Running
      reads this
    {
      Running(cur, creds)
    }

    method RotatedCredentials(cur: Config, next: Config) returns (out: map<string, Credential>)
      ensures out == Rotated(cur, next)
    {
      out := map[];
      var rest := next.backends.Keys;
      while rest != {}
        invariant rest <= next.backends.Keys
        invariant forall k :: k in out <==> k in Rotated(cur, next) && k !in rest
        invariant forall k :: k in out ==> out[k] == next.backends[k].credential
        decreases |rest|
      {
        var k :| k in rest;
        rest := rest - {k};
        if k !in cur.backends {
          continue;
        }
        if cur.backends[k].credential != next.backends[k].credential {
          out := out[k := next.backends[k].credential];
        }
      }
    }

    /** Adopts the file if it may be adopted, and says which credentials changed; otherwise leaves
        everything as it was. */
    method Reload(file: Option<Config>) returns (rotated: Option<map<string, Credential>>)
      modifies this`cur
      ensures rotated.Some? <==> file.Some? && Reloadable(old(cur), Filled(old(cur), file.value))
      ensures rotated.Some? ==> cur == Filled(old(cur), file.value) && rotated.value == Rotated(old(cur), cur)
      ensures rotated.None? ==> cur == old(cur)
    {
      if file.None? {
        return None;
      }
      var next := file.value;
      if next.nodeID == "" {
        next := next.(nodeID := cur.nodeID);
      }
      var changed := CheckReloadable(cur, next);
      if changed != [] {
        return None;
      }
      var out := RotatedCredentials(cur, next);
      cur := next;
      rotated := Some(out);
    }

    /** Records every new credential. */
    method ApplyRotated(rotated: map<string, Credential>)
      modifies this`creds
      ensures creds == old(creds) + rotated
    {
      var rest := rotated.Keys;
      while rest != {}
        invariant rest <= rotated.Keys
        invariant creds == old(creds) + (rotated - rest)
        decreases |rest|
      {
        var k :| k in rest;
        creds := creds[k := rotated[k]];
        rest := rest - {k};
      }
    }

    /** What the file watcher does on each change is one attempt. */
    method OnChange(file: Option<Config>)
      modifies this
      ensures State() == Attempt(old(State()), file)
    {
      var rotated := Reload(file);
      if rotated.Some? && rotated.value != map[] {
        ApplyRotated(rotated.value);
      }
    }
  }
}
