/**
 * High availability end to end: filled peer URLs, per-pod Services, and the init script of one
 * pod together point every peer URL at the right pod.
 */
module HaWiring {
  import opened Options
  import opened Strings
  import opened Rewriting
  import opened Names
  import opened HostNames
  import opened Spec
  import opened Secrets
  import opened ApiServer
  import opened Builders
  import opened PodTemplate
  import opened Templates

  // ---------- filling peer URLs ----------

  /** `http://<host>:<port>/` */
  function HttpURL(host: string, port: nat): string {
    "http://" + host + ":" + Decimal(port) + "/"
  }

  /** A peer with its URL derived from the naming convention unless the user gave one. */
  function Filled(peer: HAPeer, ns: string, cr: string, c: Component, i: nat, port: nat): HAPeer {
    if peer.url == "" then peer.(url := Site(ns, cr, c).URL(i, port)) else peer
  }

  /** The resource object whose spec the controller completes in memory. */
  class Resource {
    var spec: Dhcp4Spec

    constructor (s: Dhcp4Spec)
      ensures spec == s
    {
      spec := s;
    }

    method FillPeerURLs(ns: string, cr: string, c: Component, port: nat)
      modifies this
      ensures old(spec).highAvailability.None? ==> spec == old(spec)
      ensures old(spec).highAvailability.Some? ==>
                && spec.highAvailability.Some?
                && spec == old(spec).(highAvailability := spec.highAvailability)
                && spec.highAvailability.value ==
                   old(spec).highAvailability.value.(peers := spec.highAvailability.value.peers)
                && |spec.highAvailability.value.peers| == |old(spec).highAvailability.value.peers|
                && forall i | 0 <= i < |spec.highAvailability.value.peers| ::
                     spec.highAvailability.value.peers[i] ==
                     Filled(old(spec).highAvailability.value.peers[i], ns, cr, c, i, port)
    {
      if spec.highAvailability.None? {
        return;
      }
      var ha := spec.highAvailability.value;
      for i := 0 to |ha.peers|
        invariant ha == old(spec).highAvailability.value.(peers := ha.peers)
        invariant |ha.peers| == |old(spec).highAvailability.value.peers|
        invariant forall k | 0 <= k < i ::
                    ha.peers[k] == Filled(old(spec).highAvailability.value.peers[k], ns, cr, c, k, port)
        invariant forall k | i <= k < |ha.peers| :: ha.peers[k] == old(spec).highAvailability.value.peers[k]
      {
        if ha.peers[i].url == "" {
          ha := ha.(peers := ha.peers[i := ha.peers[i].(url := Site(ns, cr, c).URL(i, port))]);
        }
      }
      spec := spec.(highAvailability := Some(ha));
    }
  }

  // ---------- the host name map ----------

  /** One highly available resource: where it lives and what its peers are called. */
  datatype Site = Site(ns: string, cr: string, component: Component) {
    function Sts(): string { StatefulSetName(cr, component) }

    /** The generated host name of peer `i`. */
    function Host(i: nat): (h: string)
      ensures h != ""
    {
      HostName(Sts(), ns, i)
    }

    /** The DNS name of the Service of pod `i`. */
    function ServiceHost(i: nat): string {
      PerPodServiceName(cr, component, i) + "." + ns + ".svc.cluster.local"
    }

    function URL(i: nat, port: nat): string { HttpURL(Host(i), port) }

    predicate Valid() { ValidNames(Sts(), ns) }
  }

  predicate HostChar(ch: char) {
    IsLower(ch) || 'A' <= ch <= 'Z' || IsDigit(ch) || ch in ['.', '_', '-']
  }

  predicate ValidHostname(h: string) { h != "" && forall ch | ch in h :: HostChar(ch) }

  /** `parse` stands for url.Parse followed by Hostname; `None` is a parse error. */
  type UrlHost = string -> Option<string>

  /** The entries of peers `0 .. n-1`; a later peer with the same host name wins. */
  function HostMap(peers: seq<HAPeer>, parse: UrlHost, site: Site): map<string, string> {
    if peers == [] then map[]
    else
      var last := |peers| - 1;
      var front := HostMap(peers[..last], parse, site);
      match parse(peers[last].url)
      case None => front
      case Some(h) => front[h := site.ServiceHost(last)]
  }

  predicate HostsValid(peers: seq<HAPeer>, parse: UrlHost) {
    forall peer | peer in peers && parse(peer.url).Some? :: ValidHostname(parse(peer.url).value)
  }

  /** Maps configuration host names to per-pod Service host names; an invalid host name is an error. */
  method BuildHostMap(peers: seq<HAPeer>, parse: UrlHost, site: Site) returns (r: Option<map<string, string>>)
    ensures r == if HostsValid(peers, parse) then Some(HostMap(peers, parse, site)) else None
  {
    var m := map[];
    for i := 0 to |peers|
      invariant m == HostMap(peers[..i], parse, site)
      invariant HostsValid(peers[..i], parse)
    {
      assert peers[..i + 1][..i] == peers[..i];
      assert peers[i] in peers;
      match parse(peers[i].url) {
        case None =>
        case Some(h) =>
          if !ValidHostname(h) {
            return None;
          }
          m := m[h := site.ServiceHost(i)];
      }
    }
    assert peers[..|peers|] == peers;
    r := Some(m);
  }

  /** What the model assumes of URL parsing: the host of an `http` URL of this form is found. */
  ghost predicate ParsesHttp(parse: UrlHost) {
    forall h: string, port: nat :: ValidHostname(h) ==> parse("http://" + h + ":" + Decimal(port) + "/") == Some(h)
  }

  lemma HostNameIsValid(site: Site, i: nat)
    requires site.Valid()
    ensures ValidHostname(site.Host(i))
  {
    HostChars(site.Sts(), site.ns, i);
  }

  /** All URLs follow the naming convention. */
  predicate AllFilled(peers: seq<HAPeer>, site: Site, port: nat) {
    forall i | 0 <= i < |peers| :: peers[i].url == site.URL(i, port)
  }

  /** The map has exactly one entry per ordinal. */
  ghost predicate PeerMap(m: map<string, string>, n: nat, site: Site) {
    && (forall i: nat | i < n :: site.Host(i) in m && m[site.Host(i)] == site.ServiceHost(i))
    && (forall h | h in m :: exists i: nat :: i < n && h == site.Host(i))
  }

  lemma {:induction false} FilledHostMap(peers: seq<HAPeer>, parse: UrlHost, site: Site, port: nat)
    requires site.Valid() && ParsesHttp(parse) && AllFilled(peers, site, port)
    ensures HostsValid(peers, parse) && PeerMap(HostMap(peers, parse, site), |peers|, site)
  {
    forall peer | peer in peers
      ensures parse(peer.url).Some? && ValidHostname(parse(peer.url).value)
    {
      var i :| 0 <= i < |peers| && peers[i] == peer;
      FilledParses(peers, parse, site, port, i);
    }
    if peers != [] {
      var last := |peers| - 1;
      FilledHostMap(peers[..last], parse, site, port);
      FilledParses(peers, parse, site, port, last);
      PeerMapExtends(HostMap(peers[..last], parse, site), last, site);
    }
  }

  lemma FilledParses(peers: seq<HAPeer>, parse: UrlHost, site: Site, port: nat, i: nat)
    requires site.Valid() && ParsesHttp(parse) && AllFilled(peers, site, port) && i < |peers|
    ensures parse(peers[i].url) == Some(site.Host(i)) && ValidHostname(site.Host(i))
  {
    HostNameIsValid(site, i);
    assert peers[i].url == HttpURL(site.Host(i), port);
  }

  lemma PeerMapExtends(m: map<string, string>, n: nat, site: Site)
    requires PeerMap(m, n, site)
    ensures PeerMap(m[site.Host(n) := site.ServiceHost(n)], n + 1, site)
  {
    var more := m[site.Host(n) := site.ServiceHost(n)];
    forall i: nat | i < n + 1 ensures site.Host(i) in more && more[site.Host(i)] == site.ServiceHost(i) {
      if i < n {
        HostsIncompatible(site.Sts(), site.ns, i, n);
      }
    }
    forall h | h in more ensures exists i: nat :: i < n + 1 && h == site.Host(i) {
      if h in m {
        var i: nat :| i < n && h == site.Host(i);
      }
    }
  }

  // ---------- running the init script ----------

  /** What the environment of one pod provides; `vars` are its environment variables. */
  datatype Pod = Pod(ordinal: nat, ip: string, dns: string -> Option<string>, vars: string -> string) {
    /** The secret value of a slot. */
    function Secret(s: Slot): string { vars(EnvName(s)) }
  }

  /** Addresses really are addresses, and secrets contain no `$`. */
  ghost predicate GoodPod(pod: Pod) {
    && IsAddress(pod.ip)
    && (forall h :: pod.dns(h).Some? ==> IsAddress(pod.dns(h).value))
    && forall s :: '$' !in pod.Secret(s)
  }

  /** The ordinal the script computes from its host name. */
  lemma OrdinalFromHostname(sts: string, o: nat)
    ensures AfterLastDash(PodName(sts, o)) == Decimal(o)
  {
    var d := Decimal(o);
    assert '-' in d ==> IsDigit('-');
    AfterLastDashOf(sts, d);
  }

  /** The substitution one peer command performs, if its lookup succeeds. */
  function PeerRule(op: ScriptOp, sts: string, pod: Pod): Option<Rule>
    requires op.ResolvePeer?
  {
    if sts + "-" + AfterLastDash(PodName(sts, pod.ordinal)) + "." <= op.configHost then Some(Rule(op.configHost, pod.ip))
    else match pod.dns(op.serviceHost)
      case Some(ip) => Some(Rule(op.configHost, ip))
      case None => None
  }

  predicate AllResolve(ops: seq<ScriptOp>) { forall op | op in ops :: op.ResolvePeer? && op.configHost != "" }

  function PeerRules(ops: seq<ScriptOp>, sts: string, pod: Pod): (rules: seq<Rule>)
    requires AllResolve(ops)
    ensures WellFormed(rules)
  {
    if ops == [] then []
    else
      var last := |ops| - 1;
      PeerRules(ops[..last], sts, pod)
      + match PeerRule(ops[last], sts, pod)
        case Some(rule) => [rule]
        case None => []
  }

  predicate Resolvable(j: nat, site: Site, pod: Pod) {
    j == pod.ordinal || pod.dns(site.ServiceHost(j)).Some?
  }

  /** What host name `j` stands for in this pod: its own address, or the address of the Service of pod `j`. */
  function Target(j: nat, site: Site, pod: Pod): string
    requires Resolvable(j, site, pod)
  {
    if j == pod.ordinal then pod.ip else pod.dns(site.ServiceHost(j)).value
  }

  ghost predicate IsPeerOp(op: ScriptOp, j: nat, site: Site) {
    op == ResolvePeer(site.Host(j), site.ServiceHost(j))
  }

  ghost predicate OpsOfPeers(ops: seq<ScriptOp>, site: Site) {
    AllResolve(ops) && forall op | op in ops :: exists j: nat :: IsPeerOp(op, j, site)
  }

  ghost predicate IsPeerRule(rule: Rule, j: nat, site: Site, pod: Pod) {
    Resolvable(j, site, pod) && rule == Rule(site.Host(j), Target(j, site, pod))
  }

  /** Every rule of the script belongs to a peer and carries that peer's target. */
  ghost predicate RulesOfPeers(rules: seq<Rule>, site: Site, pod: Pod) {
    WellFormed(rules) && forall rule | rule in rules :: exists j: nat :: IsPeerRule(rule, j, site, pod)
  }

  lemma RuleOfPeer(op: ScriptOp, j: nat, site: Site, pod: Pod)
    requires IsPeerOp(op, j, site)
    ensures PeerRule(op, site.Sts(), pod) ==
            if Resolvable(j, site, pod) then Some(Rule(site.Host(j), Target(j, site, pod))) else None
  {
    var sts := site.Sts();
    OrdinalFromHostname(sts, pod.ordinal);
    OwnHostTest(sts, site.ns, pod.ordinal, j);
    assert sts + "-" + Decimal(pod.ordinal) + "." == PodName(sts, pod.ordinal) + ".";
  }

  /** The commands, in any order, perform substitutions of peers only. */
  lemma {:induction false} ScriptRules(ops: seq<ScriptOp>, site: Site, pod: Pod)
    requires OpsOfPeers(ops, site)
    ensures RulesOfPeers(PeerRules(ops, site.Sts(), pod), site, pod)
  {
    if ops != [] {
      var last := |ops| - 1;
      assert forall op | op in ops[..last] :: op in ops;
      ScriptRules(ops[..last], site, pod);
      assert ops[last] in ops;
      var j: nat :| IsPeerOp(ops[last], j, site);
      RuleOfPeer(ops[last], j, site, pod);
      if Resolvable(j, site, pod) {
        assert IsPeerRule(Rule(site.Host(j), Target(j, site, pod)), j, site, pod);
      }
    }
  }

  /** They perform the substitution of every resolvable peer. */
  lemma {:induction false} ScriptHasRule(ops: seq<ScriptOp>, k: nat, site: Site, pod: Pod)
    requires AllResolve(ops) && HasPeerOp(ops, k, site) && Resolvable(k, site, pod)
    ensures Rule(site.Host(k), Target(k, site, pod)) in PeerRules(ops, site.Sts(), pod)
  {
    var last := |ops| - 1;
    if ops[last] == ResolvePeer(site.Host(k), site.ServiceHost(k)) {
      RuleOfPeer(ops[last], k, site, pod);
    } else {
      assert forall op | op in ops[..last] :: op in ops;
      ScriptHasRule(ops[..last], k, site, pod);
    }
  }

  // ---------- rewriting one host name ----------

  lemma NoMatchAnywhere(t: string, p: string, r: string)
    requires p != "" && forall x | 0 <= x < |t| :: !(p <= t[x..])
    ensures ReplaceAll(t, p, r) == t
  {
    CopyBefore(t, p, r, |t|);
    assert t[|t|..] == "" && t[..|t|] + "" == t;
  }

  /** No other peer's host name occurs in the text of a host name. */
  lemma HostAlone(site: Site, i: nat, j: nat, x: nat)
    requires site.Valid() && i != j && x < |site.Host(j)|
    ensures !(site.Host(i) <= site.Host(j)[x..])
  {
    var p, h := site.Host(i), site.Host(j);
    HostShape(site.Sts(), site.ns, i);
    if p <= h[x..] {
      if x == 0 {
        assert h[0..] == h;
        HostsIncompatible(site.Sts(), site.ns, i, j);
      } else {
        BorderIsLocal(site.Sts(), site.ns, j, i, x);
      }
    }
  }

  lemma PeerSkipsOther(rule: Rule, i: nat, j: nat, site: Site, pod: Pod)
    requires site.Valid() && IsPeerRule(rule, i, site, pod) && i != j
    ensures ReplaceAll(site.Host(j), rule.pattern, rule.replacement) == site.Host(j)
  {
    forall x | 0 <= x < |site.Host(j)| ensures !(rule.pattern <= site.Host(j)[x..]) {
      HostAlone(site, i, j, x);
    }
    NoMatchAnywhere(site.Host(j), rule.pattern, rule.replacement);
  }

  lemma PeerSkipsAddress(rule: Rule, i: nat, site: Site, pod: Pod, r: string)
    requires site.Valid() && IsPeerRule(rule, i, site, pod) && IsAddress(r)
    ensures ReplaceAll(r, rule.pattern, rule.replacement) == r
  {
    HostStartNotInAddress(site.Sts(), site.ns, i, r);
    ReplaceAfter(r, "", rule.pattern, rule.replacement);
    assert r + "" == r;
  }

  lemma PeerReplacesOwn(rule: Rule, j: nat, site: Site, pod: Pod)
    requires IsPeerRule(rule, j, site, pod)
    ensures ReplaceAll(site.Host(j), rule.pattern, rule.replacement) == Target(j, site, pod)
  {
    var h := site.Host(j);
    assert h[|h|..] == "" && rule.replacement + "" == rule.replacement;
  }

  /** The host name of peer `j` becomes the target of peer `j`, wherever its command stands in the script. */
  lemma {:induction false} HostRewritten(rules: seq<Rule>, j: nat, site: Site, pod: Pod)
    requires site.Valid() && GoodPod(pod) && RulesOfPeers(rules, site, pod)
    ensures Sequential(site.Host(j), rules) ==
            if Resolvable(j, site, pod) && Rule(site.Host(j), Target(j, site, pod)) in rules
            then Target(j, site, pod) else site.Host(j)
  {
    if rules != [] {
      var front, last := rules[..|rules| - 1], rules[|rules| - 1];
      assert last in rules && forall rule | rule in front :: rule in rules;
      HostRewritten(front, j, site, pod);
      var i: nat :| IsPeerRule(last, i, site, pod);
      if i == j {
        PeerReplacesOwn(last, j, site, pod);
      } else {
        PeerSkipsOther(last, i, j, site, pod);
        if site.Host(i) == site.Host(j) {
          HostsIncompatible(site.Sts(), site.ns, i, j);
        }
      }
      if Resolvable(j, site, pod) {
        PeerSkipsAddress(last, i, site, pod, Target(j, site, pod));
      }
    }
  }

  // ---------- rewriting a URL in its context ----------

  /** A text with no dot contains no host name. */
  lemma {:induction false} DotlessUntouched(t: string, rules: seq<Rule>)
    requires WellFormed(rules) && '.' !in t && forall rule | rule in rules :: '.' in rule.pattern
    ensures Sequential(t, rules) == t
  {
    if rules != [] {
      var last := rules[|rules| - 1];
      assert last in rules;
      DotlessUntouched(t, rules[..|rules| - 1]);
      forall x | 0 <= x < |t| ensures !(last.pattern <= t[x..]) {
        if last.pattern <= t[x..] {
          DotInSuffix(t, x, last.pattern);
        }
      }
      NoMatchAnywhere(t, last.pattern, last.replacement);
    }
  }

  lemma DotInSuffix(t: string, x: nat, p: string)
    requires x <= |t| && p <= t[x..] && '.' in p
    ensures '.' in t
  {
    var k :| 0 <= k < |p| && p[k] == '.';
    assert t[x + k] == '.';
  }

  /** Characters of the configuration text that end every host name. */
  predicate Delimiter(d: char) { d == '"' || d == ':' || d == '/' }

  lemma PeerPatterns(rules: seq<Rule>, site: Site, pod: Pod)
    requires site.Valid() && RulesOfPeers(rules, site, pod)
    ensures forall rule, d | rule in rules && Delimiter(d) :: d !in rule.pattern
    ensures forall rule | rule in rules :: '.' in rule.pattern
  {
    forall rule | rule in rules
      ensures '.' in rule.pattern && forall d | Delimiter(d) :: d !in rule.pattern
    {
      var j: nat :| IsPeerRule(rule, j, site, pod);
      HostChars(site.Sts(), site.ns, j);
      HostShape(site.Sts(), site.ns, j);
      assert rule.pattern[FirstDot(site.Sts(), j)] == '.';
    }
  }

  lemma DotlessPrefix(a: string, d: char, b: string, rules: seq<Rule>, site: Site, pod: Pod)
    requires site.Valid() && RulesOfPeers(rules, site, pod) && '.' !in a && Delimiter(d)
    ensures Sequential(a + [d] + b, rules) == a + [d] + Sequential(b, rules)
  {
    PeerPatterns(rules, site, pod);
    DotlessUntouched(a, rules);
    SequentialAcross(a, d, b, rules);
  }

  function HostAndPort(host: string, digits: string): string { host + [':'] + (digits + ['/'] + "") }

  lemma HostAndPortRewritten(rules: seq<Rule>, site: Site, pod: Pod, host: string, digits: string)
    requires site.Valid() && RulesOfPeers(rules, site, pod) && '.' !in digits
    ensures Sequential(HostAndPort(host, digits), rules) == HostAndPort(Sequential(host, rules), digits)
  {
    PeerPatterns(rules, site, pod);
    assert Delimiter(':');
    DotlessUntouched("", rules);
    DotlessPrefix(digits, '/', "", rules, site, pod);
    SequentialAcross(host, ':', digits + ['/'] + "", rules);
  }

  lemma SchemeKept(rules: seq<Rule>, site: Site, pod: Pod, rest: string)
    requires site.Valid() && RulesOfPeers(rules, site, pod)
    ensures Sequential("http://" + rest, rules) == "http://" + Sequential(rest, rules)
  {
    var slash := "" + ['/'] + rest;
    var slashes := "" + ['/'] + slash;
    DotlessPrefix("http", ':', slashes, rules, site, pod);
    DotlessPrefix("", '/', slash, rules, site, pod);
    DotlessPrefix("", '/', rest, rules, site, pod);
    SchemePieces(rest);
    SchemePieces(Sequential(rest, rules));
  }

  lemma SchemePieces(rest: string)
    ensures "http://" + rest == "http" + [':'] + ("" + ['/'] + ("" + ['/'] + rest))
  {
  }

  /** Rewriting a URL rewrites its host. */
  lemma URLRewritten(rules: seq<Rule>, site: Site, pod: Pod, host: string, port: nat)
    requires site.Valid() && RulesOfPeers(rules, site, pod)
    ensures Sequential(HttpURL(host, port), rules) == HttpURL(Sequential(host, rules), port)
  {
    var digits := Decimal(port);
    assert '.' in digits ==> IsDigit('.');
    URLPieces(host, port);
    HostAndPortRewritten(rules, site, pod, host, digits);
    SchemeKept(rules, site, pod, HostAndPort(host, digits));
    URLPieces(Sequential(host, rules), port);
  }

  lemma URLPieces(host: string, port: nat)
    ensures HttpURL(host, port) == "http://" + HostAndPort(host, Decimal(port))
  {
  }

  // ---------- the visiting order of the peer map ----------

  lemma {:induction false} RuleFromOp(ops: seq<ScriptOp>, site: Site, pod: Pod, rule: Rule) returns (op: ScriptOp)
    requires AllResolve(ops) && rule in PeerRules(ops, site.Sts(), pod)
    ensures op in ops && PeerRule(op, site.Sts(), pod) == Some(rule)
  {
    var last := |ops| - 1;
    if PeerRule(ops[last], site.Sts(), pod) == Some(rule) {
      op := ops[last];
    } else {
      op := RuleFromOp(ops[..last], site, pod, rule);
    }
  }

  lemma {:induction false} OpGivesRule(ops: seq<ScriptOp>, site: Site, pod: Pod, op: ScriptOp)
    requires AllResolve(ops) && op in ops && PeerRule(op, site.Sts(), pod).Some?
    ensures PeerRule(op, site.Sts(), pod).value in PeerRules(ops, site.Sts(), pod)
  {
    var last := |ops| - 1;
    if op != ops[last] {
      OpGivesRule(ops[..last], site, pod, op);
    }
  }

  lemma {:induction false} PeerRulesPrefixFree(ops: seq<ScriptOp>, site: Site, pod: Pod)
    requires OpsOfPeers(ops, site) && Distinct(ops)
    ensures PrefixFree(PeerRules(ops, site.Sts(), pod))
  {
    if ops != [] {
      var front, op := ops[..|ops| - 1], ops[|ops| - 1];
      assert op in ops && forall o | o in front :: o in ops;
      PeerRulesPrefixFree(front, site, pod);
      var rules := PeerRules(front, site.Sts(), pod);
      if PeerRule(op, site.Sts(), pod).Some? {
        forall rule | rule in rules
          ensures !Compatible(rule.pattern, op.configHost)
        {
          var other := RuleFromOp(front, site, pod, rule);
          assert other in ops && other != op;
          var i: nat :| IsPeerOp(other, i, site);
          var j: nat :| IsPeerOp(op, j, site);
          HostsIncompatible(site.Sts(), site.ns, i, j);
        }
      }
    }
  }

  /**
   * Two visiting orders of the same peers, some of them possibly unresolvable, rewrite every text
   * without overlapping host names to the same result.
   */
  lemma ScriptOrderIrrelevant(t: string, ops: seq<ScriptOp>, other: seq<ScriptOp>, m: map<string, string>, n: nat, site: Site, pod: Pod)
    requires site.Valid() && GoodPod(pod) && PeerMap(m, n, site) && Enumerates(ops, m) && Enumerates(other, m)
    requires NoHostOverlap(t, site.Sts(), site.ns, n)
    ensures AllResolve(ops) && AllResolve(other)
    ensures Sequential(t, PeerRules(ops, site.Sts(), pod)) == Sequential(t, PeerRules(other, site.Sts(), pod))
  {
    ScriptIsSimultaneous(t, ops, m, n, site, pod);
    ScriptIsSimultaneous(t, other, m, n, site, pod);
    SameRules(ops, other, m, site, pod);
    SimultaneousSameRules(t, PeerRules(ops, site.Sts(), pod), PeerRules(other, site.Sts(), pod));
  }

  predicate PatternsApart(rules: seq<Rule>) { forall i, j | 0 <= i < j < |rules| :: rules[i].pattern != rules[j].pattern }

  lemma OnePatternMore(rules: seq<Rule>, rule: Rule)
    requires PatternsApart(rules) && forall i | 0 <= i < |rules| :: rules[i].pattern != rule.pattern
    ensures PatternsApart(rules + [rule])
  {
  }

  /** Commands for different hosts have different patterns. */
  lemma {:induction false} PatternsDiffer(ops: seq<ScriptOp>, site: Site, pod: Pod)
    requires AllResolve(ops) && forall i, j | 0 <= i < j < |ops| :: ops[i].configHost != ops[j].configHost
    ensures PatternsApart(PeerRules(ops, site.Sts(), pod))
  {
    if ops != [] {
      var front, op := ops[..|ops| - 1], ops[|ops| - 1];
      PatternsDiffer(front, site, pod);
      var rules := PeerRules(front, site.Sts(), pod);
      forall i | 0 <= i < |rules| ensures rules[i].pattern != op.configHost {
        var earlier := RuleFromOp(front, site, pod, rules[i]);
        var k :| 0 <= k < |front| && front[k] == earlier;
        assert ops[k] == earlier && rules[i].pattern == earlier.configHost;
      }
      match PeerRule(op, site.Sts(), pod) {
        case None =>
        case Some(rule) => OnePatternMore(rules, rule);
      }
    }
  }

  ghost predicate SameMembers(rules: seq<Rule>, other: seq<Rule>) { forall rule :: rule in rules <==> rule in other }

  lemma SameRules(ops: seq<ScriptOp>, other: seq<ScriptOp>, m: map<string, string>, site: Site, pod: Pod)
    requires AllResolve(ops) && AllResolve(other) && Enumerates(ops, m) && Enumerates(other, m)
    ensures SameMembers(PeerRules(ops, site.Sts(), pod), PeerRules(other, site.Sts(), pod))
  {
    forall rule
      ensures rule in PeerRules(ops, site.Sts(), pod) <==> rule in PeerRules(other, site.Sts(), pod)
    {
      if rule in PeerRules(ops, site.Sts(), pod) {
        var op := RuleFromOp(ops, site, pod, rule);
        OpGivesRule(other, site, pod, op);
      }
      if rule in PeerRules(other, site.Sts(), pod) {
        var op := RuleFromOp(other, site, pod, rule);
        OpGivesRule(ops, site, pod, op);
      }
    }
  }

  /** Rules with the same members and pairwise different patterns are prefix-free together. */
  lemma SamePrefixFree(rules: seq<Rule>, other: seq<Rule>)
    requires PrefixFree(rules) && SameMembers(rules, other) && PatternsApart(other)
    ensures PrefixFree(other)
  {
    forall i, j | 0 <= i < |other| && 0 <= j < |other| && i != j ensures !(other[i].pattern <= other[j].pattern) {
      assert other[i] in rules && other[j] in rules;
      var x :| 0 <= x < |rules| && rules[x] == other[i];
      var y :| 0 <= y < |rules| && rules[y] == other[j];
      assert x != y;
    }
  }

  /**
   * Whatever URLs the peers have: if the substitutions of one visiting order do not interfere on a
   * text, every other order rewrites the text alike.
   */
  lemma AnyHostsOrderIrrelevant(t: string, ops: seq<ScriptOp>, other: seq<ScriptOp>, m: map<string, string>, site: Site, pod: Pod)
    requires AllResolve(ops) && AllResolve(other) && Enumerates(ops, m) && Enumerates(other, m)
    requires var rules := PeerRules(ops, site.Sts(), pod);
             PrefixFree(rules) && StartFree(rules) && AllIndependent(t, rules)
    ensures Sequential(t, PeerRules(ops, site.Sts(), pod)) == Sequential(t, PeerRules(other, site.Sts(), pod))
  {
    var rules, rules' := PeerRules(ops, site.Sts(), pod), PeerRules(other, site.Sts(), pod);
    SameRules(ops, other, m, site, pod);
    CommandsDiffer(other, m);
    PatternsDiffer(other, site, pod);
    SameMembersSameResult(t, rules, rules');
  }

  lemma CommandsDiffer(ops: seq<ScriptOp>, m: map<string, string>)
    requires AllResolve(ops) && Enumerates(ops, m)
    ensures forall i, j | 0 <= i < j < |ops| :: ops[i].configHost != ops[j].configHost
  {
    forall i, j | 0 <= i < j < |ops| ensures ops[i].configHost != ops[j].configHost {
      assert ops[i] in ops && ops[j] in ops;
    }
  }

  lemma SameMembersSameResult(t: string, rules: seq<Rule>, other: seq<Rule>)
    requires WellFormed(rules) && WellFormed(other) && SameMembers(rules, other) && PatternsApart(other)
    requires PrefixFree(rules) && StartFree(rules) && AllIndependent(t, rules)
    ensures Sequential(t, rules) == Sequential(t, other)
  {
    SamePrefixFree(rules, other);
    SameRulesSameResult(t, rules, other);
  }

  lemma {:induction false} HostMapValid(peers: seq<HAPeer>, parse: UrlHost, site: Site)
    requires HostsValid(peers, parse)
    ensures forall h | h in HostMap(peers, parse, site) :: ValidHostname(h)
  {
    if peers != [] {
      assert peers[|peers| - 1] in peers && forall peer | peer in peers[..|peers| - 1] :: peer in peers;
      HostMapValid(peers[..|peers| - 1], parse, site);
    }
  }

  lemma ScriptIsSimultaneous(t: string, ops: seq<ScriptOp>, m: map<string, string>, n: nat, site: Site, pod: Pod)
    requires site.Valid() && GoodPod(pod) && PeerMap(m, n, site) && Enumerates(ops, m)
    requires NoHostOverlap(t, site.Sts(), site.ns, n)
    ensures OpsOfPeers(ops, site) && PrefixFree(PeerRules(ops, site.Sts(), pod))
    ensures Sequential(t, PeerRules(ops, site.Sts(), pod)) == Simultaneous(t, PeerRules(ops, site.Sts(), pod))
  {
    PeersOfTemplate(ops, m, n, site);
    PeerRulesPrefixFree(ops, site, pod);
    var rules := PeerRules(ops, site.Sts(), pod);
    forall i, j | 0 <= i < j < |rules|
      ensures rules[j].pattern[0] !in rules[i].replacement && Independent(t, rules[i], rules[j])
    {
      var a, x := PeerOfRule(ops, m, n, site, pod, rules[i]);
      var b, y := PeerOfRule(ops, m, n, site, pod, rules[j]);
      HostStartNotInAddress(site.Sts(), site.ns, b, x);
      assert NoOverlap(t, HostName(site.Sts(), site.ns, b), HostName(site.Sts(), site.ns, a));
      HostPairIndependent(t, site.Sts(), site.ns, a, x, b, y);
    }
    SequentialIsSimultaneous(t, rules);
  }

  lemma PeerOfRule(ops: seq<ScriptOp>, m: map<string, string>, n: nat, site: Site, pod: Pod, rule: Rule) returns (i: nat, ip: string)
    requires GoodPod(pod) && PeerMap(m, n, site) && Enumerates(ops, m) && OpsOfPeers(ops, site)
    requires rule in PeerRules(ops, site.Sts(), pod)
    ensures i < n && IsAddress(ip) && rule == Rule(HostName(site.Sts(), site.ns, i), ip)
  {
    var op := RuleFromOp(ops, site, pod, rule);
    i :| i < n && op.configHost == site.Host(i);
    assert IsPeerOp(op, i, site);
    RuleOfPeer(op, i, site, pod);
    ip := rule.replacement;
  }

  // ---------- end to end ----------

  /** The substitutions of one pod: peers in the order of the script, then the secrets. */
  function InitRules(peerOps: seq<ScriptOp>, slots: seq<Slot>, site: Site, pod: Pod): (rules: seq<Rule>)
    requires AllResolve(peerOps)
  {
    PeerRules(peerOps, site.Sts(), pod) + SecretRules(slots, pod.Secret)
  }

  lemma PeersOfTemplate(peerOps: seq<ScriptOp>, m: map<string, string>, n: nat, site: Site)
    requires Enumerates(peerOps, m) && PeerMap(m, n, site)
    ensures OpsOfPeers(peerOps, site)
    ensures forall j: nat | j < n :: HasPeerOp(peerOps, j, site)
  {
    forall op | op in peerOps ensures exists j: nat :: IsPeerOp(op, j, site) {
      var i: nat :| i < n && op.configHost == site.Host(i);
      assert IsPeerOp(op, i, site);
    }
  }

  ghost predicate HasPeerOp(ops: seq<ScriptOp>, j: nat, site: Site) {
    ResolvePeer(site.Host(j), site.ServiceHost(j)) in ops
  }

  /** A quoted piece of the configuration is rewritten on its own. */
  lemma QuotedPiece(a: string, piece: string, b: string, rules: seq<Rule>)
    requires WellFormed(rules) && forall rule | rule in rules :: '"' !in rule.pattern
    ensures Sequential(a + ['"'] + (piece + ['"'] + b), rules) ==
            Sequential(a, rules) + ['"'] + (Sequential(piece, rules) + ['"'] + Sequential(b, rules))
  {
    SequentialAcross(a, '"', piece + ['"'] + b, rules);
    SequentialAcross(piece, '"', b, rules);
  }

  lemma InitRulesShape(peerOps: seq<ScriptOp>, slots: seq<Slot>, site: Site, pod: Pod)
    requires site.Valid() && OpsOfPeers(peerOps, site)
    ensures WellFormed(InitRules(peerOps, slots, site, pod))
    ensures forall rule | rule in InitRules(peerOps, slots, site, pod) :: '"' !in rule.pattern
    ensures forall rule | rule in SecretRules(slots, pod.Secret) :: rule.pattern[0] == '$'
  {
    ScriptRules(peerOps, site, pod);
    PeerPatterns(PeerRules(peerOps, site.Sts(), pod), site, pod);
    assert Delimiter('"');
    SecretPatterns(slots, pod.Secret);
  }

  lemma SecretPatterns(slots: seq<Slot>, value: Slot -> string)
    ensures forall rule | rule in SecretRules(slots, value) :: '"' !in rule.pattern && rule.pattern[0] == '$'
  {
    var secrets := SecretRules(slots, value);
    forall rule | rule in secrets ensures '"' !in rule.pattern && rule.pattern[0] == '$' {
      var i :| 0 <= i < |secrets| && secrets[i] == rule;
      PlaceholderShape(slots[i]);
    }
  }

  /** A text without `$` after the peer commands is final. */
  lemma InitOfPiece(t: string, peerOps: seq<ScriptOp>, slots: seq<Slot>, site: Site, pod: Pod)
    requires site.Valid() && OpsOfPeers(peerOps, site)
    requires '$' !in Sequential(t, PeerRules(peerOps, site.Sts(), pod))
    ensures WellFormed(InitRules(peerOps, slots, site, pod))
    ensures Sequential(t, InitRules(peerOps, slots, site, pod)) == Sequential(t, PeerRules(peerOps, site.Sts(), pod))
  {
    InitRulesShape(peerOps, slots, site, pod);
    var peers, secrets := PeerRules(peerOps, site.Sts(), pod), SecretRules(slots, pod.Secret);
    SequentialAppend(t, peers, secrets);
    SequentialUntouched(Sequential(t, peers), secrets);
  }

  lemma NoSigilInURL(host: string, port: nat)
    requires forall c | c in host :: IsLabelChar(c) || c == '.'
    ensures '$' !in HttpURL(host, port)
  {
    var digits := Decimal(port);
    assert '$' in digits ==> IsDigit('$');
    assert '$' !in "http://" && '$' !in ":" && '$' !in "/";
  }

  /** The address text that ends up in the URL of peer `j`. */
  function Resolved(j: nat, site: Site, pod: Pod): string {
    if Resolvable(j, site, pod) then Target(j, site, pod) else site.Host(j)
  }

  /** The generated URL of peer `j` is rewritten to the target of peer `j`; an unresolvable peer keeps its host name. */
  lemma PeerURLAlone(j: nat, port: nat, peerOps: seq<ScriptOp>, m: map<string, string>, n: nat, slots: seq<Slot>, site: Site, pod: Pod)
    requires site.Valid() && GoodPod(pod) && j < n && Enumerates(peerOps, m) && PeerMap(m, n, site)
    ensures OpsOfPeers(peerOps, site) && WellFormed(InitRules(peerOps, slots, site, pod))
    ensures Sequential(site.URL(j, port), InitRules(peerOps, slots, site, pod)) == HttpURL(Resolved(j, site, pod), port)
  {
    PeersOfTemplate(peerOps, m, n, site);
    var peers := PeerRules(peerOps, site.Sts(), pod);
    ScriptRules(peerOps, site, pod);
    if Resolvable(j, site, pod) {
      ScriptHasRule(peerOps, j, site, pod);
    }
    HostRewritten(peers, j, site, pod);
    URLRewritten(peers, site, pod, site.Host(j), port);
    assert forall c | c in Resolved(j, site, pod) :: IsLabelChar(c) || c == '.' by {
      if Resolvable(j, site, pod) {
        var _, _, _ := AddressShape(Target(j, site, pod));
      } else {
        HostChars(site.Sts(), site.ns, j);
      }
    }
    NoSigilInURL(Resolved(j, site, pod), port);
    InitOfPiece(site.URL(j, port), peerOps, slots, site, pod);
  }

  /**
   * In any configuration text a quoted generated URL of peer `j` ends up pointing at the target
   * of peer `j`, whatever order the peers were visited in and whatever stands around it; an
   * unresolvable peer keeps its host name.
   */
  lemma PeerURLRewritten(a: string, b: string, j: nat, port: nat,
                         peerOps: seq<ScriptOp>, m: map<string, string>, n: nat, slots: seq<Slot>, site: Site, pod: Pod)
    requires site.Valid() && GoodPod(pod) && j < n && Enumerates(peerOps, m) && PeerMap(m, n, site)
    ensures OpsOfPeers(peerOps, site)
    ensures var rules := InitRules(peerOps, slots, site, pod);
            && WellFormed(rules)
            && Sequential(a + ['"'] + (site.URL(j, port) + ['"'] + b), rules) ==
               Sequential(a, rules) + ['"'] + (HttpURL(Resolved(j, site, pod), port) + ['"'] + Sequential(b, rules))
  {
    PeersOfTemplate(peerOps, m, n, site);
    InitRulesShape(peerOps, slots, site, pod);
    PeerURLAlone(j, port, peerOps, m, n, slots, site, pod);
    QuotedPiece(a, site.URL(j, port), b, InitRules(peerOps, slots, site, pod));
  }

  /** No pattern of the rules occurs in a text. */
  ghost predicate NothingOccurs(t: string, rules: seq<Rule>) {
    forall rule, x | rule in rules && 0 <= x < |t| :: !(rule.pattern <= t[x..])
  }

  /** Then the rules leave it alone. */
  lemma {:induction false} NothingReplaced(t: string, rules: seq<Rule>)
    requires WellFormed(rules) && NothingOccurs(t, rules)
    ensures Sequential(t, rules) == t
  {
    if rules != [] {
      var front, last := rules[..|rules| - 1], rules[|rules| - 1];
      assert last in rules && forall rule | rule in front :: rule in rules;
      NothingReplaced(t, front);
      NoMatchAnywhere(t, last.pattern, last.replacement);
    }
  }

  /** A quoted server name in which no host name and no placeholder occurs survives the init script. */
  lemma ServerNameKept(a: string, b: string, name: string,
                       peerOps: seq<ScriptOp>, m: map<string, string>, n: nat, slots: seq<Slot>, site: Site, pod: Pod)
    requires site.Valid() && Enumerates(peerOps, m) && PeerMap(m, n, site)
    requires AllResolve(peerOps) && NothingOccurs(name, InitRules(peerOps, slots, site, pod))
    ensures var rules := InitRules(peerOps, slots, site, pod);
            && WellFormed(rules)
            && Sequential(a + ['"'] + (name + ['"'] + b), rules) ==
               Sequential(a, rules) + ['"'] + (name + ['"'] + Sequential(b, rules))
  {
    PeersOfTemplate(peerOps, m, n, site);
    InitRulesShape(peerOps, slots, site, pod);
    NothingReplaced(name, InitRules(peerOps, slots, site, pod));
    QuotedPiece(a, name, b, InitRules(peerOps, slots, site, pod));
  }

  /** A host name needs two dots, a placeholder a `$`: most texts contain neither. */
  lemma OneDotIsSafe(t: string, dot: nat, peerOps: seq<ScriptOp>, m: map<string, string>, n: nat, slots: seq<Slot>, site: Site, pod: Pod)
    requires site.Valid() && Enumerates(peerOps, m) && PeerMap(m, n, site) && AllResolve(peerOps)
    requires '$' !in t && forall x | 0 <= x < |t| && t[x] == '.' :: x == dot
    ensures WellFormed(InitRules(peerOps, slots, site, pod)) && NothingOccurs(t, InitRules(peerOps, slots, site, pod))
    ensures Sequential(t, InitRules(peerOps, slots, site, pod)) == t
  {
    PeersOfTemplate(peerOps, m, n, site);
    InitRulesShape(peerOps, slots, site, pod);
    var peers, secrets := PeerRules(peerOps, site.Sts(), pod), SecretRules(slots, pod.Secret);
    ScriptRules(peerOps, site, pod);
    forall rule, x | rule in InitRules(peerOps, slots, site, pod) && 0 <= x < |t| ensures !(rule.pattern <= t[x..]) {
      if rule in peers {
        var j: nat :| IsPeerRule(rule, j, site, pod);
        TwoDots(site, j, t, x, dot);
      } else {
        assert rule in secrets;
        PrefixChar(rule.pattern, t, x, 0);
      }
    }
    NothingReplaced(t, InitRules(peerOps, slots, site, pod));
  }

  /** A host name starts with a letter, a placeholder with `$`: an address contains neither. */
  lemma NoLettersIsSafe(t: string, peerOps: seq<ScriptOp>, m: map<string, string>, n: nat, slots: seq<Slot>, site: Site, pod: Pod)
    requires site.Valid() && Enumerates(peerOps, m) && PeerMap(m, n, site) && AllResolve(peerOps)
    requires forall c | c in t :: IsAddressChar(c)
    ensures WellFormed(InitRules(peerOps, slots, site, pod)) && Sequential(t, InitRules(peerOps, slots, site, pod)) == t
  {
    PeersOfTemplate(peerOps, m, n, site);
    InitRulesShape(peerOps, slots, site, pod);
    var peers := PeerRules(peerOps, site.Sts(), pod);
    ScriptRules(peerOps, site, pod);
    forall rule, x | rule in InitRules(peerOps, slots, site, pod) && 0 <= x < |t| ensures !(rule.pattern <= t[x..]) {
      PrefixChar(rule.pattern, t, x, 0);
      assert t[x] in t;
      if rule in peers {
        var j: nat :| IsPeerRule(rule, j, site, pod);
        HostStart(site.Sts(), site.ns, j);
      } else {
        assert rule in SecretRules(slots, pod.Secret);
      }
    }
    NothingReplaced(t, InitRules(peerOps, slots, site, pod));
  }

  lemma TwoDots(site: Site, j: nat, t: string, x: nat, dot: nat)
    requires site.Valid() && x < |t| && forall k | 0 <= k < |t| && t[k] == '.' :: k == dot
    ensures !(site.Host(j) <= t[x..])
  {
    var h := site.Host(j);
    HostShape(site.Sts(), site.ns, j);
    var p, q := FirstDot(site.Sts(), j), SecondDot(site.Sts(), j);
    PrefixChar(h, t, x, p);
    PrefixChar(h, t, x, q);
  }

  lemma PrefixChar(h: string, t: string, x: nat, k: nat)
    requires x <= |t| && k < |h|
    ensures h <= t[x..] ==> x + k < |t| && t[x + k] == h[k]
  {
  }

  /** Cluster DNS of a namespace: every Service with an address is found under its name. */
  ghost predicate ServesDNS(dns: string -> Option<string>, store: Store, ns: string) {
    forall id | id in store && id.kind == Service && id.namespace == ns
                && store[id].body.ServiceSpec? && store[id].body.clusterIP != "None" ::
      dns(id.name + "." + ns + ".svc.cluster.local") == Some(store[id].body.clusterIP)
  }

  /** The per-pod Services exist and have addresses of their own. */
  predicate Allocated(store: Store, site: Site, n: nat) {
    forall j: nat | j < n :: ClusterIP(store, ServiceId(site, j)) != "" && ClusterIP(store, ServiceId(site, j)) != "None"
  }

  lemma FoundByName(dns: string -> Option<string>, store: Store, site: Site, n: nat, j: nat)
    requires ServesDNS(dns, store, site.ns) && Allocated(store, site, n) && j < n
    ensures dns(site.ServiceHost(j)) == Some(ClusterIP(store, ServiceId(site, j)))
  {
    assert ServiceId(site, j) in store;
    assert site.ServiceHost(j) == ServiceId(site, j).name + "." + site.ns + ".svc.cluster.local";
  }

  function ClusterIP(store: Store, id: Id): string {
    if id in store && store[id].body.ServiceSpec? then store[id].body.clusterIP else ""
  }

  function SelectorOf(store: Store, id: Id): map<string, string> {
    if id in store && store[id].body.ServiceSpec? then store[id].body.selector else map[]
  }

  /** The Service listens on one port and hands it on to the same port of its pods. */
  predicate ListensOn(store: Store, id: Id, port: int) {
    && id in store && store[id].body.ServiceSpec? && |store[id].body.ports| == 1
    && store[id].body.ports[0].port == port
    && store[id].body.ports[0].targetPort == IntPort(port)
    && store[id].body.ports[0].protocol == "TCP"
  }

  function ServiceId(site: Site, j: nat): Id {
    Id(Service, site.ns, PerPodServiceName(site.cr, site.component, j))
  }

  /**
   * End to end. In pod `o` of a converged resource, with every name resolving, the quoted URL of
   * peer `j` names pod `o` itself when `j == o`, and otherwise the ClusterIP of a Service that
   * selects pod `j` of this resource and no other pod of any resource.
   */
  lemma EndToEnd(a: string, b: string, j: nat, port: nat, peerOps: seq<ScriptOp>, m: map<string, string>, n: nat,
                 slots: seq<Slot>, site: Site, pod: Pod, d: Body -> Body, store: Store, owner: string, params: ServiceParams)
    requires site.Valid() && GoodPod(pod) && j < n && pod.ordinal < n
    requires Enumerates(peerOps, m) && PeerMap(m, n, site)
    requires OnlyDefaults(d) && (params.namespace, params.cr, params.component) == (site.ns, site.cr, site.component)
    requires forall i: nat | i < n :: Conforms(d, store, owner, BuildPerPodService(params, i))
    requires ServesDNS(pod.dns, store, site.ns) && Allocated(store, site, n)
    ensures OpsOfPeers(peerOps, site)
    ensures var rules := InitRules(peerOps, slots, site, pod);
            var address := if j == pod.ordinal then pod.ip else ClusterIP(store, ServiceId(site, j));
            && WellFormed(rules)
            && Sequential(a + ['"'] + (site.URL(j, port) + ['"'] + b), rules) ==
               Sequential(a, rules) + ['"'] + (HttpURL(address, port) + ['"'] + Sequential(b, rules))
    ensures forall cr, c, k: nat ::
              Selects(SelectorOf(store, ServiceId(site, j)), PodLabels(cr, c, k))
              <==> (cr, c, k) == (site.cr, site.component, j)
  {
    assert Conforms(d, store, owner, BuildPerPodService(params, j));
    FoundByName(pod.dns, store, site, n, j);
    ServiceOfPeer(d, store, owner, params, site, j);
    PeerURLRewritten(a, b, j, port, peerOps, m, n, slots, site, pod);
  }

  /** The conforming per-pod Service of a peer selects that peer's pod only. */
  lemma ServiceOfPeer(d: Body -> Body, store: Store, owner: string, params: ServiceParams, site: Site, j: nat)
    requires OnlyDefaults(d) && (params.namespace, params.cr, params.component) == (site.ns, site.cr, site.component)
    requires Conforms(d, store, owner, BuildPerPodService(params, j))
    ensures forall cr, c, k: nat ::
              Selects(SelectorOf(store, ServiceId(site, j)), PodLabels(cr, c, k))
              <==> (cr, c, k) == (site.cr, site.component, j)
  {
    forall cr, c, k: nat
      ensures Selects(SelectorOf(store, ServiceId(site, j)), PodLabels(cr, c, k))
              <==> (cr, c, k) == (site.cr, site.component, j)
    {
      PerPodSelectsOnePod(params, j, cr, c, k);
    }
  }
}
