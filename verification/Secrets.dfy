/**
 * Database credentials: environment variable names, their placeholders in the rendered
 * configuration, and the expansion of the placeholders by the init script.
 */
module Secrets {
  import opened Options
  import opened Strings
  import opened Rewriting
  import opened Spec
  import opened Templates

  /** Environment variables and placeholders for one database. */
  function DbCredentialEnvVars(prefix: string, db: Option<DatabaseConfig>): (seq<EnvVar>, DBCredentials) {
    if db.None? || db.value.credentialsSecretRef.None? then ([], NO_CREDENTIALS)
    else
      var secret := db.value.credentialsSecretRef.value;
      ([EnvVar(prefix + "_USER", secret, "username"), EnvVar(prefix + "_PASSWORD", secret, "password")],
       DBCredentials("$" + prefix + "_USER", "$" + prefix + "_PASSWORD"))
  }

  function HostsPrefix(i: nat): string { "KEA_HOSTS_DBS_" + Decimal(i) }

  function HostsEnvVars(dbs: seq<DatabaseConfig>): seq<EnvVar> {
    if dbs == [] then []
    else
      var last := |dbs| - 1;
      HostsEnvVars(dbs[..last]) + DbCredentialEnvVars(HostsPrefix(last), Some(dbs[last])).0
  }

  function SecretEnvVars(spec: Dhcp4Spec): seq<EnvVar> {
    DbCredentialEnvVars("KEA_LEASE_DB", spec.leaseDatabase).0
    + DbCredentialEnvVars("KEA_HOSTS_DB", spec.hostsDatabase).0
    + HostsEnvVars(spec.hostsDatabases)
  }

  /** What the renderer uses for entry `i`: entries beyond the slice are empty. */
  function CredentialsAt(hostsDBs: seq<DBCredentials>, i: nat): DBCredentials {
    if i < |hostsDBs| then hostsDBs[i] else NO_CREDENTIALS
  }

  /** The credential fields of the renderer. */
  datatype Credentials = Credentials(lease: DBCredentials, hosts: DBCredentials, hostsDBs: seq<DBCredentials>)

  /** The first `n` databases are rendered with the placeholders of their own variables. */
  ghost predicate HostsAligned(dbs: seq<DatabaseConfig>, hostsDBs: seq<DBCredentials>, n: nat)
    requires n <= |dbs|
  {
    forall i | 0 <= i < n :: CredentialsAt(hostsDBs, i) == DbCredentialEnvVars(HostsPrefix(i), Some(dbs[i])).1
  }

  /** Every database is rendered with the placeholders of its own variables. */
  ghost predicate Aligned(spec: Dhcp4Spec, creds: Credentials) {
    && creds.lease == DbCredentialEnvVars("KEA_LEASE_DB", spec.leaseDatabase).1
    && creds.hosts == DbCredentialEnvVars("KEA_HOSTS_DB", spec.hostsDatabase).1
    && HostsAligned(spec.hostsDatabases, creds.hostsDBs, |spec.hostsDatabases|)
  }

  /** Collects the variables and keeps `hostsDBs` aligned with the list of databases. */
  method CollectCredentials(spec: Dhcp4Spec) returns (envVars: seq<EnvVar>, creds: Credentials)
    ensures envVars == SecretEnvVars(spec)
    ensures Aligned(spec, creds)
  {
    envVars := [];
    var lease, hosts := NO_CREDENTIALS, NO_CREDENTIALS;
    if spec.leaseDatabase.Some? && spec.leaseDatabase.value.credentialsSecretRef.Some? {
      var (envs, placeholders) := DbCredentialEnvVars("KEA_LEASE_DB", spec.leaseDatabase);
      envVars := envVars + envs;
      lease := placeholders;
    }
    if spec.hostsDatabase.Some? && spec.hostsDatabase.value.credentialsSecretRef.Some? {
      var (envs, placeholders) := DbCredentialEnvVars("KEA_HOSTS_DB", spec.hostsDatabase);
      envVars := envVars + envs;
      hosts := placeholders;
    }
    var envs, hostsDBs := CollectHosts(spec.hostsDatabases);
    envVars := envVars + envs;
    creds := Credentials(lease, hosts, hostsDBs);
  }

  /** The loop over `hosts-databases`: pads the slice with empty entries up to the current index. */
  method CollectHosts(dbs: seq<DatabaseConfig>) returns (envVars: seq<EnvVar>, hostsDBs: seq<DBCredentials>)
    ensures envVars == HostsEnvVars(dbs)
    ensures HostsAligned(dbs, hostsDBs, |dbs|)
  {
    envVars, hostsDBs := [], [];
    for i := 0 to |dbs|
      invariant envVars == HostsEnvVars(dbs[..i])
      invariant |hostsDBs| <= i
      invariant HostsAligned(dbs, hostsDBs, i)
    {
      assert dbs[..i + 1][..i] == dbs[..i];
      if dbs[i].credentialsSecretRef.Some? {
        var (envs, placeholders) := DbCredentialEnvVars(HostsPrefix(i), Some(dbs[i]));
        envVars := envVars + envs;
        ghost var before := hostsDBs;
        while |hostsDBs| <= i
          invariant |before| <= |hostsDBs| <= i + 1
          invariant forall j | 0 <= j < i :: CredentialsAt(hostsDBs, j) == CredentialsAt(before, j)
        {
          hostsDBs := hostsDBs + [NO_CREDENTIALS];
        }
        hostsDBs := hostsDBs[i := placeholders];
      }
    }
    assert dbs[..|dbs|] == dbs;
  }

  // ---------- the variables as slots ----------

  datatype Slot = Lease(user: bool) | Hosts(user: bool) | HostsAt(i: nat, user: bool)

  function KeySuffix(user: bool): string { if user then "_USER" else "_PASSWORD" }

  function EnvName(s: Slot): string {
    match s
    case Lease(user) => "KEA_LEASE_DB" + KeySuffix(user)
    case Hosts(user) => "KEA_HOSTS_DB" + KeySuffix(user)
    case HostsAt(i, user) => HostsPrefix(i) + KeySuffix(user)
  }

  function Placeholder(s: Slot): (p: string)
    ensures p != "" && p[0] == '$'
  {
    "$" + EnvName(s)
  }

  predicate NameChar(c: char) { 'A' <= c <= 'Z' || IsDigit(c) || c == '_' }

  predicate NameText(s: string) { forall k | 0 <= k < |s| :: NameChar(s[k]) }

  lemma NameTextConcat(a: string, b: string)
    requires NameText(a) && NameText(b)
    ensures NameText(a + b)
  {
  }

  lemma EnvNameChars(s: Slot)
    ensures NameText(EnvName(s))
  {
    assert NameText("_USER") && NameText("_PASSWORD");
    assert NameText("KEA_LEASE_DB");
    assert NameText("KEA_HOSTS_DB");
    assert NameText("KEA_HOSTS_DBS_");
    match s
    case Lease(user) => NameTextConcat("KEA_LEASE_DB", KeySuffix(user));
    case Hosts(user) => NameTextConcat("KEA_HOSTS_DB", KeySuffix(user));
    case HostsAt(i, user) =>
      var d := Decimal(i);
      forall k | 0 <= k < |d| ensures NameChar(d[k]) { assert d[k] in d; }
      NameTextConcat("KEA_HOSTS_DBS_", d);
      NameTextConcat(HostsPrefix(i), KeySuffix(user));
  }

  lemma PlaceholderShape(s: Slot)
    ensures forall k | 0 < k < |Placeholder(s)| :: NameChar(Placeholder(s)[k])
  {
    EnvNameChars(s);
    assert forall k | 0 < k < |Placeholder(s)| :: Placeholder(s)[k] == EnvName(s)[k - 1];
  }

  /** The characters that tell the slots apart. */
  lemma NameLandmarks(s: Slot)
    ensures var p := EnvName(s);
            && |p| > 14 && p[4] == (if s.Lease? then 'L' else 'H')
            && (!s.Lease? ==> p[12] == if s.Hosts? then '_' else 'S')
            && (!s.HostsAt? ==> p[13] == if s.user then 'U' else 'P')
            && (s.HostsAt? ==> p[14..] == Decimal(s.i) + ['_'] + KeySuffix(s.user)[1..])
  {
    match s
    case Lease(user) => FixedLandmarks("KEA_LEASE_DB", user);
    case Hosts(user) => FixedLandmarks("KEA_HOSTS_DB", user);
    case HostsAt(i, user) => HostsLandmarks(i, user);
  }

  lemma FixedLandmarks(prefix: string, user: bool)
    requires |prefix| == 12
    ensures var p := prefix + KeySuffix(user);
            |p| > 14 && p[..12] == prefix && p[12] == '_' && p[13] == if user then 'U' else 'P'
  {
  }

  lemma HostsLandmarks(i: nat, user: bool)
    ensures var p := HostsPrefix(i) + KeySuffix(user);
            && |p| > 14 && p[4] == 'H' && p[12] == 'S'
            && p[14..] == Decimal(i) + ['_'] + KeySuffix(user)[1..]
  {
    var tail := KeySuffix(user)[1..];
    assert KeySuffix(user) == ['_'] + tail;
    var rest := Decimal(i) + ['_'] + tail;
    assert HostsPrefix(i) + KeySuffix(user) == "KEA_HOSTS_DBS_" + rest;
    assert ("KEA_HOSTS_DBS_" + rest)[14..] == rest;
  }

  lemma EnvNamesIncompatible(s: Slot, u: Slot)
    requires Compatible(EnvName(s), EnvName(u))
    ensures s == u
  {
    var p, q := EnvName(s), EnvName(u);
    NameLandmarks(s);
    NameLandmarks(u);
    assert p[4] == q[4] && p[12] == q[12] && p[13] == q[13];
    if s.HostsAt? {
      assert Compatible(p[14..], q[14..]);
      HostsTailsIncompatible(s.i, s.user, u.i, u.user);
    }
  }

  lemma HostsTailsIncompatible(i: nat, user: bool, j: nat, user': bool)
    requires Compatible(Decimal(i) + ['_'] + KeySuffix(user)[1..], Decimal(j) + ['_'] + KeySuffix(user')[1..])
    ensures i == j && user == user'
  {
    var x, y := Decimal(i) + ['_'] + KeySuffix(user)[1..], Decimal(j) + ['_'] + KeySuffix(user')[1..];
    DigitRunsAgree(Decimal(i), '_', KeySuffix(user)[1..], Decimal(j), '_', KeySuffix(user')[1..]);
    DecimalInjective(i, j);
    var n := |Decimal(i)| + 1;
    assert x[n] == y[n];
  }

  /** No placeholder is a prefix of the placeholder of another slot. */
  lemma PlaceholdersIncompatible(s: Slot, u: Slot)
    ensures Compatible(Placeholder(s), Placeholder(u)) ==> s == u
  {
    var p, q := Placeholder(s), Placeholder(u);
    assert p[1..] == EnvName(s) && q[1..] == EnvName(u);
    if Compatible(p, q) {
      assert Compatible(p[1..], q[1..]);
      EnvNamesIncompatible(s, u);
    }
  }

  function SlotsOf(ref: bool, user: Slot, password: Slot): seq<Slot> {
    if ref then [user, password] else []
  }

  function HostsSlots(dbs: seq<DatabaseConfig>): seq<Slot> {
    if dbs == [] then []
    else
      var last := |dbs| - 1;
      HostsSlots(dbs[..last])
      + SlotsOf(dbs[last].credentialsSecretRef.Some?, HostsAt(last, true), HostsAt(last, false))
  }

  function HasRef(db: Option<DatabaseConfig>): bool { db.Some? && db.value.credentialsSecretRef.Some? }

  function SlotsOfSpec(spec: Dhcp4Spec): seq<Slot> {
    SlotsOf(HasRef(spec.leaseDatabase), Lease(true), Lease(false))
    + SlotsOf(HasRef(spec.hostsDatabase), Hosts(true), Hosts(false))
    + HostsSlots(spec.hostsDatabases)
  }

  predicate Distinct<T(==)>(s: seq<T>) { forall i, j | 0 <= i < j < |s| :: s[i] != s[j] }

  ghost predicate NamesOf(envVars: seq<EnvVar>, slots: seq<Slot>) {
    |slots| == |envVars| && forall i | 0 <= i < |slots| :: envVars[i].name == EnvName(slots[i])
  }

  lemma OneDatabase(prefix: string, db: Option<DatabaseConfig>, user: Slot, password: Slot)
    requires EnvName(user) == prefix + "_USER" && EnvName(password) == prefix + "_PASSWORD"
    ensures NamesOf(DbCredentialEnvVars(prefix, db).0, SlotsOf(HasRef(db), user, password))
  {
  }

  lemma {:induction false} HostsSlotsMatch(dbs: seq<DatabaseConfig>)
    ensures NamesOf(HostsEnvVars(dbs), HostsSlots(dbs))
    ensures Distinct(HostsSlots(dbs))
    ensures forall s | s in HostsSlots(dbs) :: s.HostsAt? && s.i < |dbs|
  {
    if dbs != [] {
      var last := |dbs| - 1;
      HostsSlotsMatch(dbs[..last]);
      OneDatabase(HostsPrefix(last), Some(dbs[last]), HostsAt(last, true), HostsAt(last, false));
    }
  }

  lemma NamesConcat(a: seq<EnvVar>, sa: seq<Slot>, b: seq<EnvVar>, sb: seq<Slot>)
    requires NamesOf(a, sa) && NamesOf(b, sb)
    ensures NamesOf(a + b, sa + sb)
  {
    forall i | 0 <= i < |a + b| ensures (a + b)[i].name == EnvName((sa + sb)[i]) {
      if i < |a| {
        assert a[i].name == EnvName(sa[i]);
      } else {
        assert b[i - |a|].name == EnvName(sb[i - |a|]);
      }
    }
  }

  /** The variables of a spec are those of its slots, each slot once. */
  lemma SlotsMatch(spec: Dhcp4Spec)
    ensures NamesOf(SecretEnvVars(spec), SlotsOfSpec(spec))
    ensures Distinct(SlotsOfSpec(spec))
  {
    HostsSlotsMatch(spec.hostsDatabases);
    OneDatabase("KEA_LEASE_DB", spec.leaseDatabase, Lease(true), Lease(false));
    OneDatabase("KEA_HOSTS_DB", spec.hostsDatabase, Hosts(true), Hosts(false));
    var a := SlotsOf(HasRef(spec.leaseDatabase), Lease(true), Lease(false));
    var b := SlotsOf(HasRef(spec.hostsDatabase), Hosts(true), Hosts(false));
    var va := DbCredentialEnvVars("KEA_LEASE_DB", spec.leaseDatabase).0;
    var vb := DbCredentialEnvVars("KEA_HOSTS_DB", spec.hostsDatabase).0;
    NamesConcat(va, a, vb, b);
    NamesConcat(va + vb, a + b, HostsEnvVars(spec.hostsDatabases), HostsSlots(spec.hostsDatabases));
    SlotsDistinct(a, b, HostsSlots(spec.hostsDatabases));
  }

  lemma SlotsDistinct(a: seq<Slot>, b: seq<Slot>, c: seq<Slot>)
    requires Distinct(a) && Distinct(b) && Distinct(c)
    requires (forall s | s in a :: s.Lease?) && (forall s | s in b :: s.Hosts?) && (forall s | s in c :: s.HostsAt?)
    ensures Distinct(a + b + c)
  {
    DistinctConcat(a, b);
    forall x, y | x in a + b && y in c ensures x != y {
      assert x in a || x in b;
    }
    DistinctConcat(a + b, c);
  }

  lemma DistinctConcat(a: seq<Slot>, b: seq<Slot>)
    requires Distinct(a) && Distinct(b) && forall x, y | x in a && y in b :: x != y
    ensures Distinct(a + b)
  {
    forall i, j | 0 <= i < j < |a + b| ensures (a + b)[i] != (a + b)[j] {
      if i < |a| <= j { assert a[i] in a && b[j - |a|] in b; }
    }
  }

  // ---------- expansion ----------

  /** The sed commands of the init script: `$NAME` becomes the value of the variable. */
  function SecretRules(slots: seq<Slot>, value: Slot -> string): (rules: seq<Rule>)
    ensures |rules| == |slots| && WellFormed(rules)
    ensures forall i | 0 <= i < |slots| :: rules[i] == Rule(Placeholder(slots[i]), value(slots[i]))
  {
    seq(|slots|, i requires 0 <= i < |slots| => Rule(Placeholder(slots[i]), value(slots[i])))
  }

  /**
   * Placeholder rules in general: one sigil starts every pattern and occurs nowhere else, neither
   * in a pattern nor in a value, and no pattern is a prefix of another.
   */
  ghost predicate SigilRules(rules: seq<Rule>, d: char) {
    && WellFormed(rules) && PrefixFree(rules)
    && forall rule | rule in rules ::
         && rule.pattern[0] == d && d !in rule.pattern[1..] && d !in rule.replacement
  }

  lemma SecretRulesHaveSigil(slots: seq<Slot>, value: Slot -> string)
    requires Distinct(slots) && forall s | s in slots :: '$' !in value(s)
    ensures SigilRules(SecretRules(slots, value), '$')
  {
    var rules := SecretRules(slots, value);
    forall i, j | 0 <= i < |rules| && 0 <= j < |rules| && i != j
      ensures !(rules[i].pattern <= rules[j].pattern)
    {
      PlaceholdersIncompatible(slots[i], slots[j]);
    }
    forall rule | rule in rules
      ensures rule.pattern[0] == '$' && '$' !in rule.pattern[1..] && '$' !in rule.replacement
    {
      var i :| 0 <= i < |rules| && rules[i] == rule;
      PlaceholderShape(slots[i]);
    }
  }

  /** A value of an earlier variable completes a truncated placeholder of a later one. */
  ghost predicate Completes(rules: seq<Rule>, i: nat, j: nat, k: nat) {
    i < j < |rules| && 0 < k < |rules[j].pattern| && Compatible(rules[j].pattern[k..], rules[i].replacement)
  }

  ghost predicate SequentialAgrees(rules: seq<Rule>)
    requires WellFormed(rules)
  {
    forall t: string :: Sequential(t, rules) == Simultaneous(t, rules)
  }

  /**
   * Expanding the variables one by one equals simultaneous substitution on every text exactly
   * when no value completes a truncated placeholder of a later variable.
   */
  lemma ExpansionExactly(rules: seq<Rule>, d: char)
    requires SigilRules(rules, d)
    ensures SequentialAgrees(rules) <==> !exists i: nat, j: nat, k: nat :: Completes(rules, i, j, k)
  {
    if i: nat, j: nat, k: nat :| Completes(rules, i, j, k) {
      CompletionDiffers(rules, d, i, j, k);
    } else {
      forall t: string
        ensures Sequential(t, rules) == Simultaneous(t, rules)
      {
        forall i, j | 0 <= i < j < |rules|
          ensures rules[j].pattern[0] !in rules[i].replacement && Independent(t, rules[i], rules[j])
        {
          SigilIndependent(t, rules, d, i, j);
        }
        SequentialIsSimultaneous(t, rules);
      }
    }
  }

  lemma SigilIndependent(t: string, rules: seq<Rule>, d: char, i: nat, j: nat)
    requires SigilRules(rules, d) && i < j < |rules|
    requires forall k: nat :: !Completes(rules, i, j, k)
    ensures rules[j].pattern[0] !in rules[i].replacement && Independent(t, rules[i], rules[j])
  {
    var p, q := rules[j].pattern, rules[i].pattern;
    assert rules[i] in rules && rules[j] in rules;
    forall x: nat, y: nat | OccursAt(t, x, p) && OccursAt(t, y, q)
      ensures !(x < y < x + |p|)
    {
      OccurrenceChars(t, x, p);
      OccurrenceChars(t, y, q);
      assert q[0] == t[y + 0] == d;
      if x < y < x + |p| {
        InnerCharAt(t, x, p, y);
      }
    }
    forall k: nat, y: nat | 0 < k < |p| && k <= y && OccursAt(t, y, q) && OccursAt(t, y - k, p[..k])
      ensures !Compatible(p[k..], rules[i].replacement)
    {
      assert !Completes(rules, i, j, k);
    }
  }

  lemma OccurrenceChars(t: string, x: nat, p: string)
    requires OccursAt(t, x, p)
    ensures forall m | 0 <= m < |p| :: p[m] == t[x + m]
  {
  }

  lemma InnerCharAt(t: string, x: nat, p: string, y: nat)
    requires OccursAt(t, x, p) && x < y < x + |p|
    ensures t[y] in p[1..]
  {
    OccurrenceChars(t, x, p);
    InnerChar(p, y - x);
  }

  lemma SuffixAvoids(p: string, n: nat, d: char)
    requires 1 <= n <= |p| && d !in p[1..]
    ensures d !in p[n..]
  {
    assert p[n..] == p[1..][n - 1..];
  }

  lemma InnerChar(p: string, m: nat)
    requires 0 < m < |p|
    ensures p[m] in p[1..]
  {
    assert p[m] == p[1..][m - 1];
  }

  // ---------- the failing direction ----------

  /** In a text whose only sigil stands at `x`, a pattern that does not match there matches nowhere. */
  lemma {:induction false} SingleSigil(t: string, x: nat, d: char, p: string, r: string)
    requires x < |t| && p != "" && p[0] == d && (forall m | 0 <= m < |t| && m != x :: t[m] != d)
    requires !(p <= t[x..])
    ensures ReplaceAll(t, p, r) == t
  {
    if x == 0 {
      assert t[0..] == t;
      ReplaceAfter(t[1..], "", p, r);
      assert t[1..] + "" == t[1..] && ReplaceAll("", p, r) == "";
      assert [t[0]] + t[1..] == t;
    } else {
      assert t[1..][x - 1..] == t[x..];
      SingleSigil(t[1..], x - 1, d, p, r);
      assert [t[0]] + t[1..] == t;
    }
  }

  lemma {:induction false} SequentialSingleSigil(t: string, x: nat, d: char, rules: seq<Rule>)
    requires WellFormed(rules) && x < |t| && (forall m | 0 <= m < |t| && m != x :: t[m] != d)
    requires forall rule | rule in rules :: rule.pattern[0] == d && !(rule.pattern <= t[x..])
    ensures Sequential(t, rules) == t
  {
    if rules != [] {
      var last := rules[|rules| - 1];
      SequentialSingleSigil(t, x, d, rules[..|rules| - 1]);
      SingleSigil(t, x, d, last.pattern, last.replacement);
    }
  }

  /** A text without the sigil is left alone. */
  lemma NoSigil(t: string, d: char, rules: seq<Rule>)
    requires WellFormed(rules) && d !in t && forall rule | rule in rules :: rule.pattern[0] == d
    ensures Sequential(t, rules) == t
  {
    SequentialUntouched(t, rules);
  }

  /**
   * A text that starts with the pattern of rule `j` and has no further sigil: exactly that
   * pattern is replaced.
   */
  lemma OwnValue(rules: seq<Rule>, d: char, j: nat, rest: string)
    requires SigilRules(rules, d) && j < |rules| && d !in rest
    ensures Sequential(rules[j].pattern + rest, rules) == rules[j].replacement + rest
  {
    var b := rules[j];
    var p, t := b.pattern, b.pattern + rest;
    assert b in rules;
    var before, after := rules[..j], rules[j + 1..];
    assert rules == before + [b] + after;
    forall m | 0 < m < |t| ensures t[m] != d {
      if m < |p| { assert p[m] == p[1..][m - 1]; } else { assert t[m] == rest[m - |p|]; }
    }
    forall rule | rule in before
      ensures !(rule.pattern <= t[0..])
    {
      var i :| 0 <= i < j && rules[i] == rule;
      assert t[0..] == t;
      if rule.pattern <= t { PrefixesCompatible(rule.pattern, p, t); }
    }
    SequentialSingleSigil(t, 0, d, before);
    SequentialAppend(t, before, [b]);
    OneCommand(t, b);
    assert t[|p|..] == rest;
    ReplaceAfter(rest, "", p, b.replacement);
    assert rest + "" == rest;
    var u := b.replacement + rest;
    NoSigil(u, d, after);
    SequentialAppend(t, before + [b], after);
  }

  lemma OneCommand(t: string, b: Rule)
    requires b.pattern != ""
    ensures Sequential(t, [b]) == ReplaceAll(t, b.pattern, b.replacement)
  {
    assert [b][..0] == [];
    assert Sequential(t, []) == t;
  }

  /** The truncated placeholder of rule `j`, completed by the value of rule `i`. */
  lemma CompletionDiffers(rules: seq<Rule>, d: char, i: nat, j: nat, k: nat)
    requires SigilRules(rules, d) && Completes(rules, i, j, k)
    ensures !SequentialAgrees(rules)
  {
    var a, b := rules[i], rules[j];
    assert a in rules && b in rules;
    var p, q, r := b.pattern, a.pattern, a.replacement;
    var rest := if |r| < |p| - k then p[k + |r|..] else "";
    var tail := CompletedText(p, k, r, rest, d);
    var t, u := p[..k] + (q + rest), p[..k] + (r + rest);
    SequentialOnBridge(rules, d, i, j, k, rest);
    SimultaneousOnBridge(rules, d, i, j, k, rest);
    CompletedIsExpanded(rules, d, i, j, t, u, tail);
    assert u[0] == p[0];
    SigilTells(u, b.replacement, tail, d);
    Disagreement(rules, t);
  }

  lemma SigilTells(u: string, a: string, b: string, d: char)
    requires u != "" && u[0] == d && d !in a && d !in b
    ensures u != a + b
  {
    assert d in u;
  }

  lemma Disagreement(rules: seq<Rule>, t: string)
    requires WellFormed(rules) && Sequential(t, rules) != Simultaneous(t, rules)
    ensures !SequentialAgrees(rules)
  {
  }

  /** After rule `i` the sequential run expands the completed placeholder as well. */
  lemma CompletedIsExpanded(rules: seq<Rule>, d: char, i: nat, j: nat, t: string, u: string, tail: string)
    requires SigilRules(rules, d) && i < j < |rules| && d !in tail
    requires u == rules[j].pattern + tail && Sequential(t, rules[..i + 1]) == u
    ensures Sequential(t, rules) == rules[j].replacement + tail
  {
    var front, back := rules[..i + 1], rules[i + 1..];
    assert rules == front + back;
    SequentialAppend(t, front, back);
    SigilBack(rules, d, i + 1);
    OwnValue(back, d, j - i - 1, tail);
  }

  lemma SigilBack(rules: seq<Rule>, d: char, n: nat)
    requires SigilRules(rules, d) && n <= |rules|
    ensures SigilRules(rules[n..], d)
  {
    var back := rules[n..];
    forall i, j | 0 <= i < |back| && 0 <= j < |back| && i != j
      ensures !(back[i].pattern <= back[j].pattern)
    {
      assert back[i] == rules[n + i] && back[j] == rules[n + j];
    }
  }

  lemma CompletedText(p: string, k: nat, r: string, rest: string, d: char) returns (tail: string)
    requires 0 < k < |p| && Compatible(p[k..], r) && d !in p[1..] && d !in r
    requires rest == if |r| < |p| - k then p[k + |r|..] else ""
    ensures d !in rest && d !in tail && p[..k] + (r + rest) == p + tail
  {
    if |r| < |p| - k {
      SuffixAvoids(p, k + |r|, d);
      tail := "";
      assert r == p[k..][..|r|];
      assert p[k..] == p[k..][..|r|] + p[k..][|r|..];
      assert p[k..][|r|..] == p[k + |r|..];
      assert p[..k] + p[k..] == p + "";
    } else {
      tail := r[|p| - k..];
      assert r == p[k..] + tail;
      assert p[..k] + (p[k..] + tail + "") == p + tail;
    }
  }

  /** In the bridge text nothing matches before the placeholder of rule `i`. */
  lemma BridgeMatches(rules: seq<Rule>, d: char, i: nat, j: nat, k: nat, rest: string, x: nat)
    requires SigilRules(rules, d) && i < |rules| && j < |rules| && 0 < k < |rules[j].pattern| && d !in rest
    requires x < k
    ensures var t := rules[j].pattern[..k] + (rules[i].pattern + rest);
            FirstMatch(t[x..], rules).None?
  {
    var p, q := rules[j].pattern, rules[i].pattern;
    var t := p[..k] + (q + rest);
    assert rules[i] in rules && rules[j] in rules;
    assert t[k] == d;
    forall m | 0 <= m < |rules|
      ensures !(rules[m].pattern <= t[x..])
    {
      var s := rules[m].pattern;
      assert rules[m] in rules;
      assert t[x..][0] == t[x] == p[x];
      if x > 0 {
        InnerChar(p, x);
      } else if s <= t[x..] {
        assert t[0..] == t;
        ShortMatch(s, t, k, d);
        assert t[..k] == p[..k];
        PrefixOfCut(s, t, p, k);
      }
    }
  }

  lemma PrefixOfCut(s: string, t: string, p: string, k: nat)
    requires s <= t && |s| <= k <= |p| && k <= |t| && t[..k] == p[..k]
    ensures s <= p
  {
    assert p[..|s|] == p[..k][..|s|] == t[..k][..|s|] == t[..|s|];
  }

  lemma ShortMatch(s: string, t: string, k: nat, d: char)
    requires s <= t && 0 < k < |t| && t[k] == d && s != "" && d !in s[1..]
    ensures |s| <= k
  {
    if |s| > k { InnerChar(s, k); }
  }

  lemma SimultaneousOnBridge(rules: seq<Rule>, d: char, i: nat, j: nat, k: nat, rest: string)
    requires SigilRules(rules, d) && i < |rules| && j < |rules| && 0 < k < |rules[j].pattern| && d !in rest
    ensures Simultaneous(rules[j].pattern[..k] + (rules[i].pattern + rest), rules)
            == rules[j].pattern[..k] + (rules[i].replacement + rest)
  {
    var p, q := rules[j].pattern, rules[i].pattern;
    var t := p[..k] + (q + rest);
    forall x | 0 <= x < k ensures FirstMatch(t[x..], rules).None? {
      BridgeMatches(rules, d, i, j, k, rest, x);
    }
    CopyUntil(t, rules, k);
    assert t[..k] == p[..k] && t[k..] == q + rest;
    var s := q + rest;
    assert rules[i] in rules && q <= s;
    var a := FirstMatch(s, rules).value;
    var m :| 0 <= m < |rules| && rules[m] == a;
    PrefixesCompatible(a.pattern, q, s);
    assert m == i;
    assert s[|q|..] == rest;
    SimultaneousNoSigil(rest, d, rules);
  }

  lemma {:induction false} SimultaneousNoSigil(t: string, d: char, rules: seq<Rule>)
    requires WellFormed(rules) && d !in t && forall rule | rule in rules :: rule.pattern[0] == d
    ensures Simultaneous(t, rules) == t
    decreases |t|
  {
    if t != "" {
      assert t[0] in t;
      forall rule | rule in rules ensures !(rule.pattern <= t) {
        assert rule.pattern[0] != t[0];
      }
      SimultaneousNoSigil(t[1..], d, rules);
      assert [t[0]] + t[1..] == t;
    }
  }

  lemma SequentialOnBridge(rules: seq<Rule>, d: char, i: nat, j: nat, k: nat, rest: string)
    requires SigilRules(rules, d) && i < |rules| && j < |rules| && 0 < k < |rules[j].pattern| && d !in rest
    ensures Sequential(rules[j].pattern[..k] + (rules[i].pattern + rest), rules[..i + 1])
            == rules[j].pattern[..k] + (rules[i].replacement + rest)
  {
    var p, a := rules[j].pattern, rules[i];
    var q := a.pattern;
    var t := p[..k] + (q + rest);
    assert rules[i] in rules && rules[j] in rules;
    var front := rules[..i];
    assert rules[..i + 1] == front + [a];
    BridgeUntouched(t, d, front, k, rules, i, j, rest);
    SequentialAppend(t, front, [a]);
    OneCommand(t, a);
    forall x | 0 <= x < k ensures !(q <= t[x..]) {
      BridgeMatches(rules, d, i, j, k, rest, x);
    }
    CopyBefore(t, q, a.replacement, k);
    assert t[..k] == p[..k] && t[k..] == q + rest && (q + rest)[|q|..] == rest;
    ReplaceAfter(rest, "", q, a.replacement);
    assert rest + "" == rest;
  }

  lemma {:induction false} BridgeUntouched(t: string, d: char, front: seq<Rule>, k: nat,
                                           rules: seq<Rule>, i: nat, j: nat, rest: string)
    requires SigilRules(rules, d) && i < |rules| && j < |rules| && 0 < k < |rules[j].pattern| && d !in rest
    requires front <= rules[..i] && t == rules[j].pattern[..k] + (rules[i].pattern + rest)
    ensures Sequential(t, front) == t
  {
    if front != [] {
      var n := |front| - 1;
      var a := front[n];
      assert a == rules[n] && a in rules;
      BridgeUntouched(t, d, front[..n], k, rules, i, j, rest);
      forall x | 0 <= x < |t| ensures !(a.pattern <= t[x..]) {
        NoEarlierMatch(t, d, k, rules, i, j, rest, n, x);
      }
      CopyBefore(t, a.pattern, a.replacement, |t|);
      assert t[|t|..] == "" && t[..|t|] + "" == t;
    }
  }

  lemma NoEarlierMatch(t: string, d: char, k: nat, rules: seq<Rule>, i: nat, j: nat, rest: string, n: nat, x: nat)
    requires SigilRules(rules, d) && n < i < |rules| && j < |rules| && 0 < k < |rules[j].pattern| && d !in rest
    requires t == rules[j].pattern[..k] + (rules[i].pattern + rest) && x < |t|
    ensures !(rules[n].pattern <= t[x..])
  {
    var q, s := rules[i].pattern, rules[n].pattern;
    assert rules[n] in rules && rules[i] in rules && rules[j] in rules;
    assert s[0] == d;
    if x < k {
      BridgeMatches(rules, d, i, j, k, rest, x);
    } else if x == k {
      assert t[k..] == q + rest && q <= q + rest;
      if s <= t[x..] { PrefixesCompatible(s, q, q + rest); }
    } else {
      assert t[x..][0] == t[x];
      assert t[x] == (q + rest)[x - k];
      if x - k < |q| { InnerChar(q, x - k); } else { assert t[x] == rest[x - k - |q|]; }
    }
  }

  // ---------- what it means for a configuration ----------

  /** A value that starts with a character no variable name contains completes nothing. */
  predicate SafeStart(v: string) {
    v != "" && !('A' <= v[0] <= 'Z') && !IsDigit(v[0]) && v[0] != '_'
  }

  /**
   * With non-empty values that start outside `[A-Z0-9_]` and contain no `$`, any configuration
   * text is expanded as by simultaneous substitution.
   */
  lemma SafeValuesExpand(t: string, slots: seq<Slot>, value: Slot -> string)
    requires Distinct(slots) && forall s | s in slots :: '$' !in value(s) && SafeStart(value(s))
    ensures Sequential(t, SecretRules(slots, value)) == Simultaneous(t, SecretRules(slots, value))
  {
    var rules := SecretRules(slots, value);
    SecretRulesHaveSigil(slots, value);
    forall i: nat, j: nat, k: nat
      ensures !Completes(rules, i, j, k)
    {
      if i < j < |rules| && 0 < k < |rules[j].pattern| {
        PlaceholderShape(slots[j]);
        assert rules[j].pattern[k..][0] == rules[j].pattern[k];
        assert slots[i] in slots;
      }
    }
    ExpansionExactly(rules, '$');
  }

  /**
   * Whatever surrounds it, a quoted placeholder receives the value of its own variable: no other
   * variable of the list touches it, for any number of databases.
   */
  lemma QuotedPlaceholder(a: string, b: string, slots: seq<Slot>, value: Slot -> string, j: nat)
    requires Distinct(slots) && j < |slots| && forall s | s in slots :: '$' !in value(s)
    ensures var rules := SecretRules(slots, value);
            Sequential(a + ['"'] + (Placeholder(slots[j]) + ['"'] + b), rules)
            == Sequential(a, rules) + ['"'] + (value(slots[j]) + ['"'] + Sequential(b, rules))
  {
    var rules := SecretRules(slots, value);
    SecretRulesHaveSigil(slots, value);
    forall rule | rule in rules ensures '"' !in rule.pattern {
      var i :| 0 <= i < |rules| && rules[i] == rule;
      PlaceholderShape(slots[i]);
    }
    SequentialAcross(a, '"', Placeholder(slots[j]) + ['"'] + b, rules);
    SequentialAcross(Placeholder(slots[j]), '"', b, rules);
    OwnValue(rules, '$', j, "");
    assert Placeholder(slots[j]) + "" == Placeholder(slots[j]);
    assert value(slots[j]) + "" == value(slots[j]);
  }

  /** Without prefix-freeness an earlier variable takes the placeholder of a longer name. */
  lemma PrefixTakesPlaceholder(a: Rule, b: Rule, d: char)
    requires a.pattern != "" && a.pattern < b.pattern && a.pattern[0] == d
    requires d !in b.pattern[1..] && d !in a.replacement
    ensures Sequential(b.pattern, [a, b]) == a.replacement + b.pattern[|a.pattern|..]
  {
    var p := b.pattern;
    var rest := p[|a.pattern|..];
    SuffixAvoids(p, |a.pattern|, d);
    ReplaceAfter(rest, "", a.pattern, a.replacement);
    assert rest + "" == rest;
    var u := a.replacement + rest;
    OneCommand(p, a);
    assert ReplaceAll(p, a.pattern, a.replacement) == u;
    assert p[0] == d && d !in u;
    ReplaceAfter(u, "", p, b.replacement);
    assert u + "" == u;
    assert [a, b][..1] == [a];
  }

  // ---------- the control agent's names ----------

  /** The placeholder of the password of client `i` of a control agent; nothing closes the number. */
  function AuthPlaceholder(i: nat): (p: string)
    ensures p != "" && p[0] == '$'
  {
    "$KEA_AUTH_PASSWORD_" + Decimal(i)
  }

  ghost predicate AuthPrefixFree(n: nat) {
    forall i: nat, j: nat | i < n && j < n && i != j :: !(AuthPlaceholder(i) <= AuthPlaceholder(j))
  }

  /** The names are prefix-free exactly up to ten clients. */
  lemma AuthPrefixFreeExactly(n: nat)
    ensures AuthPrefixFree(n) <==> n <= 10
  {
    if n <= 10 {
      forall i: nat, j: nat | i < n && j < n && i != j
        ensures !(AuthPlaceholder(i) <= AuthPlaceholder(j))
      {
        if AuthPlaceholder(i) <= AuthPlaceholder(j) {
          AuthDigits(i, j);
          DecimalInjective(i, j);
        }
      }
    } else {
      AuthTen();
      assert AuthPlaceholder(1) <= AuthPlaceholder(10);
    }
  }

  lemma AuthDigits(i: nat, j: nat)
    requires i < 10 && j < 10 && AuthPlaceholder(i) <= AuthPlaceholder(j)
    ensures Decimal(i) == Decimal(j)
  {
    assert AuthPlaceholder(i)[19..] == Decimal(i) && AuthPlaceholder(j)[19..] == Decimal(j);
    assert AuthPlaceholder(i) == AuthPlaceholder(j)[..20];
  }

  lemma AuthTen()
    ensures AuthPlaceholder(10) == AuthPlaceholder(1) + "0" && '$' !in AuthPlaceholder(10)[1..]
  {
    assert Decimal(1) == "1" && Decimal(10) == Decimal(1) + "0";
  }
}
