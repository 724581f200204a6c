/** Delete protection: where retired datasets go, what they are called there, and when the reaper
    may destroy one. */
module Graveyard {
  import opened Wrappers
  import opened Timestamps
  import opened Text
  import opened Volume

  datatype Policy = Policy(pool: string, parent: string, graveyard: string, grace: int)
  {
    predicate On() {
      grace > 0 && pool != "" && parent != "" && graveyard != ""
    }

    function Root(): string {
      pool + "/" + parent + "/" + graveyard
    }

    /** The dataset is a direct child of the graveyard. */
    predicate Confined(id: string) {
      var prefix := Root() + "/";
      On() && id != Root() && prefix <= id && id != prefix && '/' !in id[|prefix|..]
    }
  }

  /** A volume the driver serves is inside the graveyard exactly when its namespace has the
      graveyard's name. A flat volume never is, and a graveyard whose name begins with a dot shares
      it with no Kubernetes namespace. */
  lemma LiveIsOutside(p: Policy, id: ID)
    requires Confine(id, p.pool, p.parent)
    ensures p.Confined(id.DatasetPath()) <==> p.On() && id.namespace == p.graveyard
    ensures p.graveyard != "" && p.graveyard[0] == '.' && (id.namespace != "" ==> id.namespace[0] != '.') ==>
              !p.Confined(id.DatasetPath())
  {
    if p.Confined(id.DatasetPath()) {
      InsideIsNamed(p, id);
    }
    if p.On() && id.namespace == p.graveyard {
      var prefix := p.Root() + "/";
      assert id.DatasetPath() == prefix + id.name;
      assert id.DatasetPath()[|prefix|..] == id.name;
    }
  }

  lemma InsideIsNamed(p: Policy, id: ID)
    requires Confine(id, p.pool, p.parent) && p.Confined(id.DatasetPath())
    ensures id.namespace == p.graveyard
  {
    hide Policy.On;
    var top := p.pool + "/" + p.parent + "/";
    var below := if id.namespace == "" then id.name else id.namespace + "/" + id.name;
    assert id.DatasetPath() == top + below;
    assert p.Root() + "/" == top + (p.graveyard + "/");
    CancelPrefix(top, p.graveyard + "/", below);
    SlashAfter(p.graveyard, below);
    assert below[..|p.graveyard|] == (p.graveyard + "/")[..|p.graveyard|] == p.graveyard;
  }

  lemma CancelPrefix(top: string, x: string, y: string)
    requires top + x <= top + y
    ensures x <= y
  {
    forall i | 0 <= i < |x| ensures x[i] == y[i] {
      assert x[i] == (top + x)[|top| + i] == (top + y)[|top| + i] == y[i];
    }
  }

  // Names

  predicate Allowed(c: char) {
    'a' <= c <= 'z' || 'A' <= c <= 'Z' || '0' <= c <= '9' || c == '-' || c == '_' || c == '.'
  }

  function Substituted(s: string): string {
    seq(|s|, i requires 0 <= i < |s| => if Allowed(s[i]) then s[i] else '-')
  }

  /** strings.Trim(s, "-"). */
  function Trimmed(s: string): string {
    if s != "" && s[0] == '-' then Trimmed(s[1..])
    else if s != "" && s[|s| - 1] == '-' then Trimmed(s[..|s| - 1])
    else s
  }

  predicate Clean(s: string) {
    && (forall i :: 0 <= i < |s| ==> Allowed(s[i]))
    && s != "" && s[0] != '-' && s[|s| - 1] != '-' && s != "." && s != ".."
  }

  lemma {:induction false} TrimmedShape(s: string)
    ensures var t := Trimmed(s);
            && (t != "" ==> t[0] != '-' && t[|t| - 1] != '-')
            && forall i :: 0 <= i < |t| ==> t[i] in s
    decreases |s|
  {
    if s != "" && s[0] == '-' {
      TrimmedShape(s[1..]);
    } else if s != "" && s[|s| - 1] == '-' {
      TrimmedShape(s[..|s| - 1]);
    }
  }

  /** Replaces what ZFS will not accept in a name component. Whatever comes in, the result is one
      legal component; and a name that already is one comes back unchanged. */
  method SanitiseComponent(s: string) returns (out: string)
    ensures Clean(out)
    ensures Clean(s) ==> out == s
    ensures out == Sanitised(s)
  {
    var b := "";
    for i := 0 to |s|
      invariant b == Substituted(s[..i])
    {
      assert Substituted(s[..i + 1]) == Substituted(s[..i]) + [if Allowed(s[i]) then s[i] else '-'];
      b := b + [if Allowed(s[i]) then s[i] else '-'];
    }
    assert s[..|s|] == s;
    SanitisedIsClean(s);
    out := Trimmed(b);
    if out == "" || out == "." || out == ".." {
      out := "volume";
    }
  }

  function Sanitised(s: string): string {
    var out := Trimmed(Substituted(s));
    if out == "" || out == "." || out == ".." then "volume" else out
  }

  lemma SanitisedIsClean(s: string)
    ensures Clean(Sanitised(s))
    ensures Clean(s) ==> Sanitised(s) == s
  {
    var t := Trimmed(Substituted(s));
    TrimmedShape(Substituted(s));
    assert forall c :: c in Substituted(s) ==> Allowed(c);
    assert forall i :: 0 <= i < |t| ==> Allowed(t[i]);
    if Clean(s) {
      assert Substituted(s) == s;
    }
  }

  /** All that is lost of a name, besides what is replaced, is dashes at its two ends; a name of which
      nothing usable is left becomes "volume". */
  lemma SanitisedKeeps(s: string)
    ensures exists lo, hi :: 0 <= lo <= hi <= |s| && Between(Substituted(s), lo, hi)
              && Sanitised(s) == (var kept := Substituted(s)[lo..hi];
                                  if kept == "" || kept == "." || kept == ".." then "volume" else kept)
  {
    var lo, hi := TrimmedIs(Substituted(s));
    assert Between(Substituted(s), lo, hi);
  }

  /** Everything outside these bounds is a dash. */
  predicate Between(s: string, lo: nat, hi: nat)
    requires lo <= hi <= |s|
  {
    (forall i :: 0 <= i < lo ==> s[i] == '-') && (forall i :: hi <= i < |s| ==> s[i] == '-')
  }

  lemma {:induction false} TrimmedIs(s: string) returns (lo: nat, hi: nat)
    ensures lo <= hi <= |s| && Between(s, lo, hi) && Trimmed(s) == s[lo..hi]
    decreases |s|
  {
    if s != "" && s[0] == '-' {
      lo, hi := TrimmedIs(s[1..]);
      lo, hi := lo + 1, hi + 1;
      assert s[1..][lo - 1..hi - 1] == s[lo..hi];
      assert forall i :: 0 < i < |s| ==> s[i] == s[1..][i - 1];
    } else if s != "" && s[|s| - 1] == '-' {
      lo, hi := TrimmedIs(s[..|s| - 1]);
      assert s[..|s| - 1][lo..hi] == s[lo..hi];
    } else {
      lo, hi := 0, |s|;
    }
  }

  const MAX_ENTRY_NAME := 120
  const MAX_ENTRY_ATTEMPTS := 32

  function Leaf(id: ID): string {
    if id.namespace == "" then id.name else id.namespace + "-" + id.name
  }

  function EntryName(id: ID, deletedAt: Civil): string
    requires Valid(deletedAt)
  {
    var name := Stamp(deletedAt) + "-" + Sanitised(Leaf(id));
    if |name| > MAX_ENTRY_NAME then name[..MAX_ENTRY_NAME] else name
  }

  function Decimal(n: nat): string {
    if n < 10 then [Digit(n)] else Decimal(n / 10) + [Digit(n % 10)]
  }

  /** The name tried on the given attempt, counting from one. */
  function Candidate(base: string, attempt: nat): string {
    if attempt <= 1 then base else base + "-" + Decimal(attempt)
  }

  function Undecimal(s: string): int {
    if s == "" then 0 else 10 * Undecimal(s[..|s| - 1]) + Value(s[|s| - 1])
  }

  lemma {:induction false} DecimalRoundTrip(n: nat)
    ensures Undecimal(Decimal(n)) == n && Decimal(n) != "" && '/' !in Decimal(n)
  {
    hide Digit, Value;
    DigitValue(n % 10);
    if n < 10 {
      assert [Digit(n)][..0] == [];
    } else {
      DecimalRoundTrip(n / 10);
      assert Decimal(n)[..|Decimal(n)| - 1] == Decimal(n / 10);
    }
  }

  lemma DigitValue(d: int)
    requires 0 <= d < 10
    ensures Value(Digit(d)) == d && Digit(d) != '/'
  {
  }

  /** No two attempts try the same name. */
  lemma CandidatesDistinct(base: string, j: nat, k: nat)
    requires 1 <= j < k
    ensures Candidate(base, j) != Candidate(base, k)
  {
    DecimalRoundTrip(j);
    DecimalRoundTrip(k);
    if j > 1 {
      assert Candidate(base, j)[|base| + 1..] == Decimal(j);
      assert Candidate(base, k)[|base| + 1..] == Decimal(k);
    }
  }

  // Reading a name back

  function LastComponent(s: string): (r: string)
    ensures |r| <= |s| && '/' !in r
    ensures '/' in s ==> |r| < |s|
  {
    if '/' in s then LastComponent(s[1..]) else s
  }

  lemma {:induction false} LastOf(dir: string, name: string)
    requires '/' !in name
    ensures LastComponent(dir + "/" + name) == name
  {
    var s := dir + "/" + name;
    assert s[|dir|] == '/';
    if dir == "" {
      assert s[1..] == name;
    } else {
      LastOf(dir[1..], name);
      assert s[1..] == dir[1..] + "/" + name;
    }
  }

  function UpTo(s: string, c: char): Option<string> {
    if s == "" then None
    else if s[0] == c then Some("")
    else
      var rest := UpTo(s[1..], c);
      if rest.None? then None else Some([s[0]] + rest.value)
  }

  lemma {:induction false} UpToIs(a: string, c: char, b: string)
    requires c !in a
    ensures UpTo(a + [c] + b, c) == Some(a)
  {
    var s := a + [c] + b;
    if a != "" {
      UpToIs(a[1..], c, b);
      assert s[1..] == a[1..] + [c] + b;
      assert a == [a[0]] + a[1..];
    }
  }

  function DeletedAtFromEntryName(id: string): Option<int> {
    var stamp := UpTo(LastComponent(id), '-');
    if stamp.None? then None else ParseStamp(stamp.value)
  }

  lemma EntryNameShape(id: ID, c: Civil)
    requires Valid(c)
    ensures '/' !in EntryName(id, c) && |EntryName(id, c)| > 17
    ensures EntryName(id, c)[..17] == Stamp(c) + "-"
    ensures var leaf := Sanitised(if id.namespace == "" then id.name else id.namespace + "-" + id.name);
            && EntryName(id, c) <= Stamp(c) + "-" + leaf
            && |EntryName(id, c)| == (if 17 + |leaf| < 120 then 17 + |leaf| else 120)
  {
    hide Stamp, Clean, Sanitised;
    StampShape(c);
    var leaf := Sanitised(Leaf(id));
    CleanHasNoSlash(Leaf(id));
    var name := Stamp(c) + "-" + leaf;
    assert name[..17] == Stamp(c) + "-";
    assert '/' !in name;
    if |name| > MAX_ENTRY_NAME {
      assert name[..MAX_ENTRY_NAME][..17] == name[..17];
    }
  }

  lemma CleanHasNoSlash(s: string)
    ensures Sanitised(s) != "" && '/' !in Sanitised(s)
  {
    hide Sanitised;
    SanitisedIsClean(s);
  }

  lemma CandidateShape(id: ID, c: Civil, attempt: nat)
    requires Valid(c)
    ensures '/' !in Candidate(EntryName(id, c), attempt) && |Candidate(EntryName(id, c), attempt)| > 17
    ensures Candidate(EntryName(id, c), attempt)[..17] == Stamp(c) + "-"
  {
    hide EntryName, Stamp, Decimal;
    EntryNameShape(id, c);
    DecimalRoundTrip(attempt);
    var base := EntryName(id, c);
    if attempt > 1 {
      assert (base + "-" + Decimal(attempt))[..17] == base[..17];
    }
  }

  /** Every candidate path is a direct child of the graveyard, and its name reads back as the
      instant it was retired at, to the second: sanitising, truncating and suffixing lose nothing
      the reaper needs. */
  lemma CandidateReadsBack(p: Policy, id: ID, c: Civil, attempt: nat)
    requires p.On() && Valid(c)
    ensures var path := p.Root() + "/" + Candidate(EntryName(id, c), attempt);
            p.Confined(path) && DeletedAtFromEntryName(path) == Some(Nanos(Truncated(c)))
  {
    hide EntryName, Stamp, Candidate, Nanos, ParseStamp;
    var name := Candidate(EntryName(id, c), attempt);
    CandidateShape(id, c, attempt);
    StampShape(c);
    LastOf(p.Root(), name);
    assert name == Stamp(c) + ['-'] + name[17..];
    UpToIs(Stamp(c), '-', name[17..]);
    StampRoundTrip(c);
    var prefix := p.Root() + "/";
    assert (prefix + name)[|prefix|..] == name;
  }

  // The reaper's decision

  const GRAVEYARD_PROPERTY := "io.truenas.csi:graveyard"
  const DELETED_AT_PROPERTY := "io.truenas.csi:deleted-at"
  const RETIRED_FROM_PROPERTY := "io.truenas.csi:retired-from"
  const GRAVEYARD_VALUE := "truenas-csi"

  function LocalProperty(props: map<string, Property>, key: string): string {
    if key in props && props[key].source == SOURCE_LOCAL then props[key].value else ""
  }

  /** When the dataset was retired: what its property says, or else its name. */
  function DeletedAt(id: string, props: map<string, Property>): Option<int> {
    var stamped := ParseDeletedAt(LocalProperty(props, DELETED_AT_PROPERTY));
    if stamped.Some? then stamped else DeletedAtFromEntryName(id)
  }

  predicate Reapable(p: Policy, id: string, props: map<string, Property>, now: int) {
    && p.Confined(id)
    && VerifyOwned(id, props)
    && var at := DeletedAt(id, props);
       at.Some? && now - at.value >= p.grace
  }
}
