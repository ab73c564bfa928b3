/**
 * The peer host names the operator generates, the addresses that replace them, and when
 * the order in which the init script rewrites them matters.
 */
module HostNames {
  import opened Strings
  import opened Rewriting
  import opened Names

  predicate IsLabelChar(c: char) { IsLower(c) || IsDigit(c) || c == '-' }

  predicate IsLabel(s: string) { s != "" && forall c | c in s :: IsLabelChar(c) }

  /** A StatefulSet name and a namespace as the API server admits them next to a Service. */
  predicate ValidNames(sts: string, ns: string) {
    IsLabel(sts) && IsLower(sts[0]) && |sts| >= 6 && IsLabel(ns)
  }

  /** `<sts>-<i>.<sts>-hl.<namespace>.svc.cluster.local`, the host part of a filled peer URL. */
  function HostName(sts: string, ns: string, i: nat): (h: string)
    ensures h != ""
  {
    PodName(sts, i) + "." + sts + "-hl" + "." + ns + ".svc.cluster.local"
  }

  function Quad(a: nat, b: nat, c: nat, d: nat): string {
    Decimal(a) + "." + Decimal(b) + "." + Decimal(c) + "." + Decimal(d)
  }

  /** A dotted-quad IPv4 address. */
  ghost predicate IsAddress(r: string) {
    exists a: nat, b: nat, c: nat, d: nat :: r == Quad(a, b, c, d)
  }

  predicate IsAddressChar(c: char) { IsDigit(c) || c == '.' }

  lemma AddressShape(r: string) returns (x: nat, y: nat, z: nat)
    requires IsAddress(r)
    ensures forall c | c in r :: IsAddressChar(c)
    ensures 0 < x < y < z < |r| - 1
    ensures r[x] == '.' && r[y] == '.' && r[z] == '.'
    ensures IsDigit(r[x + 1]) && IsDigit(r[y + 1]) && IsDigit(r[z + 1])
  {
    var a: nat, b: nat, c: nat, d: nat :| r == Quad(a, b, c, d);
    var p, q, s, t := Decimal(a), Decimal(b), Decimal(c), Decimal(d);
    x := |p|;
    y := x + 1 + |q|;
    z := y + 1 + |s|;
    assert r[x + 1] == q[0] && q[0] in q;
    assert r[y + 1] == s[0] && s[0] in s;
    assert r[z + 1] == t[0] && t[0] in t;
  }

  // ---------- shape of a host name ----------

  function FirstDot(sts: string, i: nat): nat { |sts| + 1 + |Decimal(i)| }

  function SecondDot(sts: string, i: nat): nat { FirstDot(sts, i) + |sts| + 4 }

  function ThirdDot(sts: string, ns: string, i: nat): nat { SecondDot(sts, i) + 1 + |ns| }

  /** What the overlap arguments need to know of a host name with dots at `a`, `b`, `c`, `c + 4` and `c + 12`. */
  ghost predicate Shape(h: string, sts: string, a: nat, b: nat, c: nat) {
    && |h| == c + 18 && |sts| + 1 < a && b == a + |sts| + 4 && b + 1 < c
    && h[..|sts|] == sts && h[|sts|] == '-'
    && (forall k | |sts| < k < a :: IsDigit(h[k]))
    && h[a] == '.' && h[b - 1] == 'l' && h[b] == '.'
    && (forall k | 0 <= k < c && k != a && k != b :: h[k] != '.')
    && DomainAt(h, c)
  }

  /** `.svc.cluster.local` from offset `c` on. */
  ghost predicate DomainAt(h: string, c: nat)
    requires |h| == c + 18
  {
    && h[c] == '.' && h[c + 1] == 's' && h[c + 2] == 'v' && h[c + 3] == 'c'
    && h[c + 4] == '.' && h[c + 5] == 'c' && h[c + 6] == 'l' && h[c + 7] == 'u' && h[c + 8] == 's'
    && h[c + 9] == 't' && h[c + 10] == 'e' && h[c + 11] == 'r'
    && h[c + 12] == '.' && h[c + 13..] == "local" && h[c + 17] == 'l'
    && forall k | c + 12 < k < |h| :: h[k] != '.' && !IsDigit(h[k])
  }

  lemma HostShape(sts: string, ns: string, i: nat)
    requires ValidNames(sts, ns)
    ensures Shape(HostName(sts, ns, i), sts, FirstDot(sts, i), SecondDot(sts, i), ThirdDot(sts, ns, i))
  {
    var h, a, b, c := HostName(sts, ns, i), FirstDot(sts, i), SecondDot(sts, i), ThirdDot(sts, ns, i);
    var d := Decimal(i);
    forall k | |sts| < k < a ensures IsDigit(h[k]) {
      assert h[k] == d[k - |sts| - 1];
      assert h[k] in d;
    }
    forall k | 0 <= k < c && k != a && k != b ensures h[k] != '.' {
      if k < |sts| {
        assert h[k] == sts[k] && h[k] in sts;
      } else if a < k < a + 1 + |sts| {
        assert h[k] == sts[k - a - 1] && h[k] in sts;
      } else if b < k {
        assert h[k] == ns[k - b - 1] && h[k] in ns;
      }
    }
    DomainSuffix(PodName(sts, i) + "." + sts + "-hl" + "." + ns, h, c);
  }

  lemma DomainSuffix(front: string, h: string, c: nat)
    requires c == |front| && h == front + ".svc.cluster.local"
    ensures |h| == c + 18 && DomainAt(h, c)
  {
  }

  lemma HostStart(sts: string, ns: string, i: nat)
    requires ValidNames(sts, ns)
    ensures IsLower(HostName(sts, ns, i)[0]) && HostName(sts, ns, i)[0] == sts[0]
  {
  }

  /** Every character of a host name is a label character or a dot. */
  lemma HostChars(sts: string, ns: string, i: nat)
    requires ValidNames(sts, ns)
    ensures forall c | c in HostName(sts, ns, i) :: IsLabelChar(c) || c == '.'
  {
    assert forall c | c in Decimal(i) :: IsDigit(c);
  }

  lemma HostAfterDash(sts: string, ns: string, i: nat)
    ensures HostName(sts, ns, i) == (sts + "-") + (Decimal(i) + ['.'] + (sts + "-hl" + "." + ns + ".svc.cluster.local"))
  {
  }

  lemma PrefixCancels(u: string, a: string, b: string)
    ensures u + a <= u + b ==> a <= b
  {
    if u + a <= u + b {
      assert a == (u + a)[|u|..] && b == (u + b)[|u|..];
      assert b[..|a|] == (u + b)[..|u + a|][|u|..];
    }
  }

  /** Different ordinals give host names that differ before either of them ends. */
  lemma HostsIncompatible(sts: string, ns: string, i: nat, j: nat)
    ensures Compatible(HostName(sts, ns, i), HostName(sts, ns, j)) ==> i == j
  {
    var rest := sts + "-hl" + "." + ns + ".svc.cluster.local";
    var x, y := Decimal(i) + ['.'] + rest, Decimal(j) + ['.'] + rest;
    HostAfterDash(sts, ns, i);
    HostAfterDash(sts, ns, j);
    PrefixCancels(sts + "-", x, y);
    PrefixCancels(sts + "-", y, x);
    if Compatible(x, y) {
      DigitRunsAgree(Decimal(i), '.', rest, Decimal(j), '.', rest);
      DecimalInjective(i, j);
    }
  }

  /** The test `grep -q "^<sts>-<ordinal>\."` recognises exactly the pod's own host name. */
  lemma OwnHostTest(sts: string, ns: string, o: nat, j: nat)
    ensures PodName(sts, o) + "." <= HostName(sts, ns, j) <==> o == j
  {
    var rest := sts + "-hl" + "." + ns + ".svc.cluster.local";
    var x, y := Decimal(o) + ['.'] + "", Decimal(j) + ['.'] + rest;
    HostAfterDash(sts, ns, j);
    assert PodName(sts, o) + "." == (sts + "-") + x;
    PrefixCancels(sts + "-", x, y);
    if x <= y {
      DigitRunsAgree(Decimal(o), '.', "", Decimal(j), '.', rest);
      DecimalInjective(o, j);
    }
  }

  /** No window of a host name looks like an address. */
  lemma AddressNotInHost(sts: string, ns: string, i: nat, k: nat, r: string)
    requires ValidNames(sts, ns) && IsAddress(r)
    ensures !OccursAt(HostName(sts, ns, i), k, r)
  {
    HostShape(sts, ns, i);
    AddressNotInShape(HostName(sts, ns, i), sts, FirstDot(sts, i), SecondDot(sts, i), ThirdDot(sts, ns, i), k, r);
  }

  lemma AddressNotInShape(h: string, sts: string, a: nat, b: nat, c: nat, k: nat, r: string)
    requires Shape(h, sts, a, b, c) && IsAddress(r)
    ensures !OccursAt(h, k, r)
  {
    var x, y, z := AddressShape(r);
    if OccursAt(h, k, r) {
      WindowChars(h, k, r);
      DottedDigitAt(h, sts, a, b, c, k, r, x);
      DottedDigitAt(h, sts, a, b, c, k, r, y);
      DottedDigitAt(h, sts, a, b, c, k, r, z);
    }
  }

  lemma WindowChars(t: string, k: nat, p: string)
    requires OccursAt(t, k, p)
    ensures forall m | 0 <= m < |p| :: p[m] == t[k + m]
  {
  }

  /** Only the first two dots of a host name can be followed by a digit. */
  lemma DottedDigitAt(h: string, sts: string, a: nat, b: nat, c: nat, k: nat, r: string, x: nat)
    requires Shape(h, sts, a, b, c) && k + |r| <= |h| && forall m | 0 <= m < |r| :: r[m] == h[k + m]
    requires x + 1 < |r| && r[x] == '.' && IsDigit(r[x + 1])
    ensures k + x == a || k + x == b
  {
    assert h[k + x] == '.' && IsDigit(h[k + (x + 1)]);
  }

  /** Replacing a host name by an address never completes another host name. */
  lemma AddressCompletesNothing(sts: string, ns: string, i: nat, k: nat, r: string)
    requires ValidNames(sts, ns) && IsAddress(r) && 0 < k < |HostName(sts, ns, i)|
    ensures !Compatible(HostName(sts, ns, i)[k..], r)
  {
    HostShape(sts, ns, i);
    AddressNotInHost(sts, ns, i, k, r);
    SuffixNotCompatible(HostName(sts, ns, i), k, r);
  }

  lemma SuffixNotCompatible(h: string, k: nat, r: string)
    requires IsAddress(r) && k < |h| && h[|h| - 1] == 'l' && !OccursAt(h, k, r)
    ensures !Compatible(h[k..], r)
  {
    var _, _, _ := AddressShape(r);
    var u := h[k..];
    assert u[|u| - 1] == 'l' && 'l' !in r;
    if u <= r {
      LastOfPrefix(u, r);
    } else if r <= u {
      PrefixOccurs(h, k, r);
    }
  }

  lemma LastOfPrefix(u: string, r: string)
    requires u <= r && u != ""
    ensures u[|u| - 1] in r
  {
    assert r[|u| - 1] == u[|u| - 1];
  }

  lemma MemberOfPrefix(u: string, r: string, i: nat)
    requires u <= r && i < |u|
    ensures u[i] in r
  {
    assert r[i] == u[i];
  }

  lemma PrefixOccurs(t: string, k: nat, p: string)
    requires k <= |t| && p <= t[k..]
    ensures OccursAt(t, k, p)
  {
    assert t[k..][..|p|] == t[k..k + |p|];
  }

  // ---------- overlaps ----------

  /** The name begins with the last `m` letters of `local`. */
  predicate LocalBorder(sts: string, m: nat) {
    1 <= m <= 5 && m <= |sts| && sts[..m] == "local"[5 - m..]
  }

  predicate StartsLikeLocal(sts: string) {
    exists m :: 1 <= m <= 5 && LocalBorder(sts, m)
  }

  /**
   * A host name can begin inside another one only by sharing the end of `.local` with the
   * beginning of the StatefulSet name.
   */
  lemma BorderIsLocal(sts: string, ns: string, i: nat, j: nat, k: nat)
    requires ValidNames(sts, ns)
    requires 0 < k < |HostName(sts, ns, i)|
    requires Compatible(HostName(sts, ns, i)[k..], HostName(sts, ns, j))
    ensures |HostName(sts, ns, i)| - k <= 5 && LocalBorder(sts, |HostName(sts, ns, i)| - k)
  {
    var p, q := HostName(sts, ns, i), HostName(sts, ns, j);
    HostShape(sts, ns, i);
    HostShape(sts, ns, j);
    CompatibleChars(p, k, q);
    var a, b, c := FirstDot(sts, i), SecondDot(sts, i), ThirdDot(sts, ns, i);
    var d, e, f := FirstDot(sts, j), SecondDot(sts, j), ThirdDot(sts, ns, j);
    FirstDotPastEnd(sts, p, a, b, c, q, d, e, f, k);
    BorderInLastLabel(sts, p, a, b, c, q, d, e, f, k);
  }

  lemma CompatibleChars(p: string, k: nat, q: string)
    requires k <= |p| && Compatible(p[k..], q)
    ensures forall m | 0 <= m < |q| && k + m < |p| :: q[m] == p[k + m]
  {
    assert forall m | 0 <= m < |p| - k :: p[k..][m] == p[k + m];
  }

  lemma BorderInLastLabel(sts: string, p: string, a: nat, b: nat, c: nat,
                          q: string, d: nat, e: nat, f: nat, k: nat)
    requires |sts| >= 6 && Shape(p, sts, a, b, c) && Shape(q, sts, d, e, f) && 0 < k < |p|
    requires forall m | 0 <= m < |q| && k + m < |p| :: q[m] == p[k + m]
    requires k + d >= |p|
    ensures |p| - k <= 5 && LocalBorder(sts, |p| - k)
  {
    var m := |p| - k;
    StartsPastLastDot(sts, p, a, b, c, q, d, e, f, k);
    assert p[k..] == p[c + 13..][k - c - 13..] == "local"[5 - m..];
    assert q[..m] == q[..|sts|][..m] == sts[..m];
    assert p[k..] == q[..m];
  }

  /** Otherwise the last dot of one name would stand in the dotless first label of the other. */
  lemma StartsPastLastDot(sts: string, p: string, a: nat, b: nat, c: nat,
                          q: string, d: nat, e: nat, f: nat, k: nat)
    requires |sts| >= 6 && Shape(p, sts, a, b, c) && Shape(q, sts, d, e, f) && 0 < k < |p|
    requires forall m | 0 <= m < |q| && k + m < |p| :: q[m] == p[k + m]
    requires k + d >= |p|
    ensures k > c + 12
  {
    if k <= c + 12 {
      SharedChar(p, k, q, c + 12 - k);
    }
  }

  lemma FirstDotPastEnd(sts: string, p: string, a: nat, b: nat, c: nat,
                        q: string, d: nat, e: nat, f: nat, k: nat)
    requires |sts| >= 6 && Shape(p, sts, a, b, c) && Shape(q, sts, d, e, f) && 0 < k < |p|
    requires forall m | 0 <= m < |q| && k + m < |p| :: q[m] == p[k + m]
    ensures k + d >= |p|
  {
    if k + d < |p| {
      SharedChar(p, k, q, d);
      SharedChar(p, k, q, d - 1);
      if k + d == c {
        SharedChar(p, k, q, d + 4);
      }
    }
  }

  lemma SharedChar(p: string, k: nat, q: string, m: nat)
    requires forall m | 0 <= m < |q| && k + m < |p| :: q[m] == p[k + m]
    requires m < |q| && k + m < |p|
    ensures q[m] == p[k + m]
  {
  }

  // ---------- the substitutions of one pod ----------

  /** The rules the init script applies: host name `i` becomes `ips[i]`. */
  function HostRules(sts: string, ns: string, ips: seq<string>): (rules: seq<Rule>)
    ensures |rules| == |ips| && WellFormed(rules)
    ensures forall i | 0 <= i < |ips| :: rules[i] == Rule(HostName(sts, ns, i), ips[i])
  {
    seq(|ips|, i requires 0 <= i < |ips| => Rule(HostName(sts, ns, i), ips[i]))
  }

  ghost predicate AllAddresses(ips: seq<string>) { forall ip | ip in ips :: IsAddress(ip) }

  /** No two host names of the set overlap anywhere in the text. */
  ghost predicate NoHostOverlap(t: string, sts: string, ns: string, n: nat) {
    forall i, j | 0 <= i < n && 0 <= j < n ::
      NoOverlap(t, HostName(sts, ns, i), HostName(sts, ns, j))
  }

  lemma HostRulesFree(sts: string, ns: string, ips: seq<string>)
    requires ValidNames(sts, ns) && AllAddresses(ips)
    ensures PrefixFree(HostRules(sts, ns, ips)) && StartFree(HostRules(sts, ns, ips))
  {
    var rules := HostRules(sts, ns, ips);
    forall i, j | 0 <= i < |rules| && 0 <= j < |rules| && i != j
      ensures !(rules[i].pattern <= rules[j].pattern)
    {
      HostsIncompatible(sts, ns, i, j);
    }
    forall a, b | a in rules && b in rules
      ensures a.pattern[0] !in b.replacement
    {
      var i :| 0 <= i < |rules| && rules[i] == a;
      var j :| 0 <= j < |rules| && rules[j] == b;
      assert ips[j] in ips;
      HostStartNotInAddress(sts, ns, i, ips[j]);
    }
  }

  lemma HostStartNotInAddress(sts: string, ns: string, i: nat, r: string)
    requires ValidNames(sts, ns) && IsAddress(r)
    ensures HostName(sts, ns, i)[0] !in r
  {
    HostStart(sts, ns, i);
    var _, _, _ := AddressShape(r);
  }

  /** Rewriting host `i` does not interfere with rewriting host `j`. */
  lemma HostPairIndependent(t: string, sts: string, ns: string, i: nat, ip: string, j: nat, ip': string)
    requires ValidNames(sts, ns) && IsAddress(ip)
    requires NoOverlap(t, HostName(sts, ns, j), HostName(sts, ns, i))
    ensures Independent(t, Rule(HostName(sts, ns, i), ip), Rule(HostName(sts, ns, j), ip'))
  {
    forall k: nat | 0 < k < |HostName(sts, ns, j)|
      ensures !Compatible(HostName(sts, ns, j)[k..], ip)
    {
      AddressCompletesNothing(sts, ns, j, k, ip);
    }
  }

  lemma HostRulesIndependent(t: string, sts: string, ns: string, ips: seq<string>)
    requires ValidNames(sts, ns) && AllAddresses(ips) && NoHostOverlap(t, sts, ns, |ips|)
    ensures AllIndependent(t, HostRules(sts, ns, ips))
  {
    var rules := HostRules(sts, ns, ips);
    forall a, b | a in rules && b in rules
      ensures Independent(t, a, b)
    {
      var i :| 0 <= i < |rules| && rules[i] == a;
      var j :| 0 <= j < |rules| && rules[j] == b;
      assert ips[i] in ips;
      assert NoOverlap(t, HostName(sts, ns, j), HostName(sts, ns, i));
      HostPairIndependent(t, sts, ns, i, ips[i], j, ips[j]);
    }
  }

  /** Whatever order the peers are visited in, a text without overlapping host names is rewritten the same way. */
  lemma HostOrderIrrelevant(t: string, sts: string, ns: string, ips: seq<string>, order: seq<Rule>)
    requires ValidNames(sts, ns) && AllAddresses(ips) && NoHostOverlap(t, sts, ns, |ips|)
    requires multiset(order) == multiset(HostRules(sts, ns, ips))
    ensures WellFormed(order)
    ensures Sequential(t, order) == Simultaneous(t, HostRules(sts, ns, ips))
  {
    HostRulesFree(sts, ns, ips);
    HostRulesIndependent(t, sts, ns, ips);
    OrderIrrelevant(t, HostRules(sts, ns, ips), order);
  }

  /** A host name preceded by a character that host names lack (such as the slash of a URL) overlaps nothing. */
  lemma GuardedHostsDoNotOverlap(t: string, sts: string, ns: string, n: nat)
    requires ValidNames(sts, ns)
    requires forall j: nat, y: nat | j < n && 0 < y && OccursAt(t, y, HostName(sts, ns, j)) ::
               !IsLabelChar(t[y - 1]) && t[y - 1] != '.'
    ensures NoHostOverlap(t, sts, ns, n)
  {
    forall i, j | 0 <= i < n && 0 <= j < n
      ensures NoOverlap(t, HostName(sts, ns, i), HostName(sts, ns, j))
    {
      var p := HostName(sts, ns, i);
      HostChars(sts, ns, i);
      forall x: nat, y: nat | OccursAt(t, x, p) && OccursAt(t, y, HostName(sts, ns, j))
        ensures !(x < y < x + |p|)
      {
        WindowChars(t, x, p);
        if x < y < x + |p| {
          MemberOfPrefix(p, p, y - 1 - x);
        }
      }
    }
  }

  lemma NamesPreventOverlap(t: string, sts: string, ns: string, n: nat)
    requires ValidNames(sts, ns) && !StartsLikeLocal(sts)
    ensures NoHostOverlap(t, sts, ns, n)
  {
    forall i, j | 0 <= i < n && 0 <= j < n
      ensures NoOverlap(t, HostName(sts, ns, i), HostName(sts, ns, j))
    {
      var p, q := HostName(sts, ns, i), HostName(sts, ns, j);
      forall x: nat, y: nat | OccursAt(t, x, p) && OccursAt(t, y, q)
        ensures !(x < y < x + |p|)
      {
        if x < y < x + |p| {
          assert p[y - x..] == t[y..x + |p|];
          PrefixesCompatible(p[y - x..], q, t[y..]);
          BorderIsLocal(sts, ns, i, j, y - x);
        }
      }
    }
  }

  // ---------- the exact condition ----------

  /** Two execution orders agree on every text. */
  ghost predicate OrdersAgree(a: seq<Rule>, b: seq<Rule>)
    requires WellFormed(a) && WellFormed(b)
  {
    forall t: string :: Sequential(t, a) == Sequential(t, b)
  }

  ghost predicate IsOrder(order: seq<Rule>, sts: string, ns: string, ips: seq<string>) {
    multiset(order) == multiset(HostRules(sts, ns, ips))
  }

  /**
   * For any number of peers, any two visiting orders rewrite all texts alike exactly when they are
   * the same order, or the StatefulSet name does not begin with a suffix of `local`.
   */
  lemma OrderIrrelevantExactly(sts: string, ns: string, ips: seq<string>, a: seq<Rule>, b: seq<Rule>)
    requires ValidNames(sts, ns) && AllAddresses(ips) && IsOrder(a, sts, ns, ips) && IsOrder(b, sts, ns, ips)
    ensures WellFormed(a) && WellFormed(b)
    ensures OrdersAgree(a, b) <==> a == b || !StartsLikeLocal(sts)
  {
    OrderShape(a, sts, ns, ips);
    OrderShape(b, sts, ns, ips);
    if !StartsLikeLocal(sts) {
      forall t: string ensures Sequential(t, a) == Sequential(t, b) {
        NamesPreventOverlap(t, sts, ns, |ips|);
        HostOrderIrrelevant(t, sts, ns, ips, a);
        HostOrderIrrelevant(t, sts, ns, ips, b);
      }
    } else if a != b {
      var n, x, y := FirstDifference(a, b);
      assert a[n] in a && b[n] in b;
      var i: nat :| IsHostRule(a[n], sts, ns, ips, i);
      var j: nat :| IsHostRule(b[n], sts, ns, ips, j);
      var m := LongestBorder(sts);
      OverlapOf(sts, ns, ips, a, n, b, i, j, m);
      Disagree(OverlapText(sts, ns, i, j, m), a, b);
    }
  }

  lemma Disagree(t: string, a: seq<Rule>, b: seq<Rule>)
    requires WellFormed(a) && WellFormed(b) && Sequential(t, a) != Sequential(t, b)
    ensures !OrdersAgree(a, b)
  {
  }

  /** The rule of ordinal `i`. */
  ghost predicate IsHostRule(rule: Rule, sts: string, ns: string, ips: seq<string>, i: nat) {
    i < |ips| && rule == Rule(HostName(sts, ns, i), ips[i])
  }

  /** An order consists of rules of ordinals, none of them twice. */
  ghost predicate OfHosts(order: seq<Rule>, sts: string, ns: string, ips: seq<string>) {
    && WellFormed(order)
    && (forall x, y | 0 <= x < |order| && 0 <= y < |order| && x != y :: order[x] != order[y])
    && forall rule | rule in order :: exists i: nat :: IsHostRule(rule, sts, ns, ips, i)
  }

  lemma OrderShape(order: seq<Rule>, sts: string, ns: string, ips: seq<string>)
    requires ValidNames(sts, ns) && AllAddresses(ips) && IsOrder(order, sts, ns, ips)
    ensures OfHosts(order, sts, ns, ips)
    ensures forall rule :: rule in order <==> rule in HostRules(sts, ns, ips)
  {
    var rules := HostRules(sts, ns, ips);
    HostRulesFree(sts, ns, ips);
    PrefixFreePermutation(rules, order);
    forall rule ensures rule in order <==> rule in rules {
      assert rule in order <==> rule in multiset(order);
      assert rule in rules <==> rule in multiset(rules);
    }
    forall rule | rule in order ensures exists i: nat :: IsHostRule(rule, sts, ns, ips, i) {
      var i :| 0 <= i < |rules| && rules[i] == rule;
      assert IsHostRule(rule, sts, ns, ips, i);
    }
  }

  /** Where two orders of the same rules part, each has the other's rule later. */
  lemma FirstDifference(a: seq<Rule>, b: seq<Rule>) returns (n: nat, x: nat, y: nat)
    requires multiset(a) == multiset(b) && a != b
    requires forall i, j | 0 <= i < |a| && 0 <= j < |a| && i != j :: a[i] != a[j]
    requires forall i, j | 0 <= i < |b| && 0 <= j < |b| && i != j :: b[i] != b[j]
    ensures n < x < |a| && n < y < |b| && a[..n] == b[..n] && a[n] != b[n] && a[x] == b[n] && b[y] == a[n]
  {
    assert |a| == |multiset(a)| == |multiset(b)| == |b|;
    n := 0;
    while n < |a| && a[n] == b[n]
      invariant n <= |a| && a[..n] == b[..n]
    {
      n := n + 1;
    }
    assert a[..|a|] == a && b[..|b|] == b;
    NotBefore(a, n);
    NotBefore(b, n);
    assert b[n] in multiset(b) && a[n] in multiset(a);
    x :| 0 <= x < |a| && a[x] == b[n];
    y :| 0 <= y < |b| && b[y] == a[n];
    assert forall k | 0 <= k < n :: a[k] == a[..n][k] && b[k] == b[..n][k];
  }

  // ---------- a text in which two host names share letters ----------

  /** Host name `i` and host name `j`, sharing `m` letters. */
  function OverlapText(sts: string, ns: string, i: nat, j: nat, m: nat): string
    requires m <= |HostName(sts, ns, j)|
  {
    HostName(sts, ns, i) + HostName(sts, ns, j)[m..]
  }

  /** The longest suffix of `local` the StatefulSet name begins with. */
  predicate LongestLocal(sts: string, m: nat) { LocalBorder(sts, m) && forall n: nat | m < n <= 5 :: !LocalBorder(sts, n) }

  lemma HostInsideHost(sts: string, ns: string, k: nat, j: nat, y: nat)
    requires ValidNames(sts, ns) && 0 < y <= |HostName(sts, ns, j)|
    ensures !(HostName(sts, ns, k) <= HostName(sts, ns, j)[y..])
  {
    HostShape(sts, ns, k);
    if y < |HostName(sts, ns, j)| && HostName(sts, ns, k) <= HostName(sts, ns, j)[y..] {
      BorderIsLocal(sts, ns, j, k, y);
    }
  }

  lemma HostAtStart(sts: string, ns: string, k: nat, i: nat, t: string)
    requires ValidNames(sts, ns) && k != i && HostName(sts, ns, i) <= t
    ensures !(HostName(sts, ns, k) <= t)
  {
    if HostName(sts, ns, k) <= t {
      PrefixesCompatible(HostName(sts, ns, k), HostName(sts, ns, i), t);
      HostsIncompatible(sts, ns, k, i);
    }
  }

  lemma HostBeginning(sts: string, ns: string, i: nat)
    ensures |sts| <= |HostName(sts, ns, i)| && HostName(sts, ns, i)[..|sts|] == sts
  {
  }

  lemma HostEnd(sts: string, ns: string, i: nat) returns (c: nat)
    requires ValidNames(sts, ns)
    ensures |HostName(sts, ns, i)| == c + 18 && DomainAt(HostName(sts, ns, i), c)
  {
    HostShape(sts, ns, i);
    c := ThirdDot(sts, ns, i);
  }

  /** `p` and `q` share the `m` letters in the middle of `t`. */
  predicate Shared(p: string, q: string, m: nat, t: string) {
    m < |p| && m <= |q| && p[|p| - m..] == q[..m] && t == p + q[m..] && t[|p| - m..] == q
  }

  lemma OverlapShape(sts: string, ns: string, i: nat, j: nat, m: nat)
    requires ValidNames(sts, ns) && LocalBorder(sts, m)
    ensures m <= |HostName(sts, ns, j)| && Shared(HostName(sts, ns, i), HostName(sts, ns, j), m, OverlapText(sts, ns, i, j, m))
  {
    HostBeginning(sts, ns, j);
    var c := HostEnd(sts, ns, i);
    BorderShared(HostName(sts, ns, i), HostName(sts, ns, j), sts, m, c, OverlapText(sts, ns, i, j, m));
  }

  lemma SharedTail(p: string, q: string, m: nat)
    requires m < |p| && m <= |q| && p[|p| - m..] == q[..m]
    ensures (p + q[m..])[|p| - m..] == q
  {
    assert (p + q[m..])[|p| - m..] == p[|p| - m..] + q[m..];
  }

  /** Before the letters they share no host name but the first occurs. */
  lemma OnlyFirstBefore(sts: string, ns: string, i: nat, j: nat, k: nat, m: nat, x: nat)
    requires ValidNames(sts, ns) && LongestLocal(sts, m) && m < |HostName(sts, ns, i)| && m <= |HostName(sts, ns, j)|
    requires x < |HostName(sts, ns, i)| - m && (x == 0 ==> k != i)
    ensures !(HostName(sts, ns, k) <= OverlapText(sts, ns, i, j, m)[x..])
  {
    var p, h, t := HostName(sts, ns, i), HostName(sts, ns, k), OverlapText(sts, ns, i, j, m);
    assert p[x..] <= t[x..];
    if h <= t[x..] {
      if x == 0 {
        assert t[0..] == t;
        HostAtStart(sts, ns, k, i, t);
      } else {
        PrefixesCompatible(p[x..], h, t[x..]);
        BorderIsLocal(sts, ns, i, k, x);
      }
    }
  }

  /** Nor does a third one anywhere. */
  lemma NoThirdHost(sts: string, ns: string, i: nat, j: nat, k: nat, m: nat, x: nat)
    requires ValidNames(sts, ns) && LongestLocal(sts, m) && k != i && k != j
    requires m <= |HostName(sts, ns, j)| && x < |OverlapText(sts, ns, i, j, m)|
    ensures !(HostName(sts, ns, k) <= OverlapText(sts, ns, i, j, m)[x..])
  {
    OverlapShape(sts, ns, i, j, m);
    var p, q, t := HostName(sts, ns, i), HostName(sts, ns, j), OverlapText(sts, ns, i, j, m);
    var e := |p| - m;
    if x < e {
      OnlyFirstBefore(sts, ns, i, j, k, m, x);
    } else {
      assert t[x..] == t[e..][x - e..];
      if x == e {
        assert q[0..] == q;
        HostAtStart(sts, ns, k, j, q);
      } else {
        HostInsideHost(sts, ns, k, j, x - e);
      }
    }
  }

  /** Once the first is replaced, none is left. */
  lemma NoneAfterFirst(sts: string, ns: string, j: nat, k: nat, m: nat, r: string, x: nat)
    requires ValidNames(sts, ns) && IsAddress(r) && 0 < m <= |HostName(sts, ns, j)| && x < |r + HostName(sts, ns, j)[m..]|
    ensures !(HostName(sts, ns, k) <= (r + HostName(sts, ns, j)[m..])[x..])
  {
    var h, q := HostName(sts, ns, k), HostName(sts, ns, j);
    var u := r + q[m..];
    HostStartNotInAddress(sts, ns, k, r);
    if x < |r| {
      StartsOutside(h, u, x, r);
    } else {
      assert u[x..] == q[m + x - |r|..];
      HostInsideHost(sts, ns, k, j, m + x - |r|);
    }
  }

  lemma StartsOutside(h: string, u: string, x: nat, r: string)
    requires h != "" && h[0] !in r && r <= u && x < |r|
    ensures !(h <= u[x..])
  {
    assert u[x..][0] == u[x] == r[x];
  }

  /** Once the second is replaced, none is left. */
  lemma NoneAfterSecond(sts: string, ns: string, i: nat, k: nat, e: nat, r: string, x: nat)
    requires ValidNames(sts, ns) && IsAddress(r) && 0 < e < |HostName(sts, ns, i)| && x < |HostName(sts, ns, i)[..e] + r|
    ensures !(HostName(sts, ns, k) <= (HostName(sts, ns, i)[..e] + r)[x..])
  {
    var h, p := HostName(sts, ns, k), HostName(sts, ns, i);
    var u := p[..e] + r;
    HostShape(sts, ns, k);
    var _, _, _ := AddressShape(r);
    if h <= u[x..] {
      LastLetter(h, u, x, e, r);
      assert x + |h| <= e;
      assert h <= p[x..] by {
        assert u[x..][..|h|] == p[x..][..|h|];
      }
      if x == 0 {
        assert p[0..] == p;
        if k != i {
          HostAtStart(sts, ns, k, i, p);
        }
      } else {
        HostInsideHost(sts, ns, k, i, x);
      }
    }
  }

  lemma LastLetter(h: string, u: string, x: nat, e: nat, r: string)
    requires h != "" && h[|h| - 1] == 'l' && x < |u| && e <= |u| && u[e..] == r && forall c | c in r :: IsAddressChar(c)
    requires h <= u[x..]
    ensures x + |h| <= e
  {
    assert u[x..][|h| - 1] == u[x + |h| - 1] == 'l';
    assert forall k | e <= k < |u| :: u[k] == r[k - e] && r[k - e] in r;
  }

  // ---------- what the orders make of it ----------

  ghost predicate Absent(rules: seq<Rule>, t: string) {
    forall rule, x | rule in rules && 0 <= x < |t| :: !(rule.pattern <= t[x..])
  }

  lemma {:induction false} AbsentUntouched(t: string, rules: seq<Rule>)
    requires WellFormed(rules) && Absent(rules, t)
    ensures Sequential(t, rules) == t
  {
    if rules != [] {
      var front, last := rules[..|rules| - 1], rules[|rules| - 1];
      assert last in rules && forall rule | rule in front :: rule in rules;
      AbsentUntouched(t, front);
      CopyBefore(t, last.pattern, last.replacement, |t|);
      assert t[|t|..] == "" && t[..|t|] + "" == t;
    }
  }

  /** If only rule `n` applies, and nothing applies after it, the order does what rule `n` does. */
  lemma OnlyOneApplies(t: string, order: seq<Rule>, n: nat, u: string)
    requires WellFormed(order) && n < |order| && Absent(order[..n], t)
    requires ReplaceAll(t, order[n].pattern, order[n].replacement) == u && Absent(order[n + 1..], u)
    ensures Sequential(t, order) == u
  {
    var a, s, b := order[..n], order[n], order[n + 1..];
    assert order == a + [s] + b;
    assert s in order;
    AbsentUntouched(t, a);
    SequentialAppend(t, a, [s]);
    assert [s][..0] == [] && Sequential(t, [s]) == u;
    SequentialAppend(t, a + [s], b);
    AbsentUntouched(u, b);
  }

  /** Rules of neither of the two hosts find nothing in the text the two share. */
  lemma OthersAbsent(sts: string, ns: string, ips: seq<string>, rules: seq<Rule>, i: nat, j: nat, m: nat, t: string)
    requires ValidNames(sts, ns) && LongestLocal(sts, m) && m <= |HostName(sts, ns, j)| && t == OverlapText(sts, ns, i, j, m)
    requires forall rule | rule in rules :: exists k: nat :: k != i && k != j && IsHostRule(rule, sts, ns, ips, k)
    ensures Absent(rules, t)
  {
    forall rule, x | rule in rules && 0 <= x < |t| ensures !(rule.pattern <= t[x..]) {
      var k: nat :| k != i && k != j && IsHostRule(rule, sts, ns, ips, k);
      NoThirdHost(sts, ns, i, j, k, m, x);
    }
  }

  lemma AbsentAfterFirst(sts: string, ns: string, ips: seq<string>, order: seq<Rule>, rules: seq<Rule>, j: nat, m: nat, r: string, u: string)
    requires ValidNames(sts, ns) && IsAddress(r) && 0 < m <= |HostName(sts, ns, j)| && u == r + HostName(sts, ns, j)[m..]
    requires OfHosts(order, sts, ns, ips) && forall rule | rule in rules :: rule in order
    ensures Absent(rules, u)
  {
    forall rule, x | rule in rules && 0 <= x < |u| ensures !(rule.pattern <= u[x..]) {
      var k: nat :| IsHostRule(rule, sts, ns, ips, k);
      NoneAfterFirst(sts, ns, j, k, m, r, x);
    }
  }

  lemma AbsentAfterSecond(sts: string, ns: string, ips: seq<string>, order: seq<Rule>, rules: seq<Rule>, i: nat, e: nat, r: string, u: string)
    requires ValidNames(sts, ns) && IsAddress(r) && 0 < e < |HostName(sts, ns, i)| && u == HostName(sts, ns, i)[..e] + r
    requires OfHosts(order, sts, ns, ips) && forall rule | rule in rules :: rule in order
    ensures Absent(rules, u)
  {
    forall rule, x | rule in rules && 0 <= x < |u| ensures !(rule.pattern <= u[x..]) {
      var k: nat :| IsHostRule(rule, sts, ns, ips, k);
      NoneAfterSecond(sts, ns, i, k, e, r, x);
    }
  }

  /** The rules before the one of host `i`, when that of host `j` is not among them, are of other hosts. */
  lemma EarlierRules(sts: string, ns: string, ips: seq<string>, order: seq<Rule>, n: nat, i: nat, j: nat)
    requires OfHosts(order, sts, ns, ips) && n < |order|
    requires IsHostRule(order[n], sts, ns, ips, i) && j < |ips| && Rule(HostName(sts, ns, j), ips[j]) !in order[..n]
    ensures forall rule | rule in order[..n] :: exists k: nat :: k != i && k != j && IsHostRule(rule, sts, ns, ips, k)
  {
    NotBefore(order, n);
    forall rule | rule in order[..n]
      ensures exists k: nat :: k != i && k != j && IsHostRule(rule, sts, ns, ips, k)
    {
      assert rule in order;
      var k: nat :| IsHostRule(rule, sts, ns, ips, k);
      assert k != i && k != j;
    }
  }

  /** The order that replaces the first of the two before the second. */
  lemma FirstBeforeSecond(sts: string, ns: string, ips: seq<string>, order: seq<Rule>, n: nat, i: nat, j: nat, m: nat)
    requires ValidNames(sts, ns) && AllAddresses(ips) && OfHosts(order, sts, ns, ips) && LongestLocal(sts, m)
    requires n < |order| && IsHostRule(order[n], sts, ns, ips, i) && j < |ips|
    requires Rule(HostName(sts, ns, j), ips[j]) !in order[..n]
    ensures m <= |HostName(sts, ns, j)|
    ensures Sequential(OverlapText(sts, ns, i, j, m), order) == ips[i] + HostName(sts, ns, j)[m..]
  {
    OverlapShape(sts, ns, i, j, m);
    var q, r := HostName(sts, ns, j), ips[i];
    assert r in ips;
    EarlierRules(sts, ns, ips, order, n, i, j);
    OthersAbsent(sts, ns, ips, order[..n], i, j, m, OverlapText(sts, ns, i, j, m));
    AbsentAfterFirst(sts, ns, ips, order, order[n + 1..], j, m, r, r + q[m..]);
    forall x | 0 <= x < |q[m..]| ensures !(HostName(sts, ns, i) <= q[m..][x..]) {
      assert q[m..][x..] == q[m + x..];
      HostInsideHost(sts, ns, i, j, m + x);
    }
    ReplacedFront(OverlapText(sts, ns, i, j, m), HostName(sts, ns, i), r, q[m..]);
    OnlyOneApplies(OverlapText(sts, ns, i, j, m), order, n, r + q[m..]);
  }

  lemma ReplacedFront(t: string, p: string, r: string, rest: string)
    requires p != "" && t == p + rest && forall x | 0 <= x < |rest| :: !(p <= rest[x..])
    ensures ReplaceAll(t, p, r) == r + rest
  {
    assert t[|p|..] == rest;
    CopyBefore(rest, p, r, |rest|);
    assert rest[|rest|..] == "" && rest[..|rest|] + "" == rest;
  }

  /** The order that replaces the second of the two before the first. */
  lemma SecondBeforeFirst(sts: string, ns: string, ips: seq<string>, order: seq<Rule>, n: nat, i: nat, j: nat, m: nat)
    requires ValidNames(sts, ns) && AllAddresses(ips) && OfHosts(order, sts, ns, ips) && LongestLocal(sts, m)
    requires n < |order| && IsHostRule(order[n], sts, ns, ips, j) && i < |ips| && i != j
    requires Rule(HostName(sts, ns, i), ips[i]) !in order[..n]
    ensures m < |HostName(sts, ns, i)| && m <= |HostName(sts, ns, j)|
    ensures Sequential(OverlapText(sts, ns, i, j, m), order) == HostName(sts, ns, i)[..|HostName(sts, ns, i)| - m] + ips[j]
  {
    OverlapShape(sts, ns, i, j, m);
    var front, r := HostName(sts, ns, i)[..|HostName(sts, ns, i)| - m], ips[j];
    assert r in ips;
    EarlierRules(sts, ns, ips, order, n, j, i);
    OthersAbsent(sts, ns, ips, order[..n], i, j, m, OverlapText(sts, ns, i, j, m));
    AbsentAfterSecond(sts, ns, ips, order, order[n + 1..], i, |front|, r, front + r);
    SecondReplaced(sts, ns, i, j, m, r);
    OnlyOneApplies(OverlapText(sts, ns, i, j, m), order, n, front + r);
  }

  lemma SecondReplaced(sts: string, ns: string, i: nat, j: nat, m: nat, r: string)
    requires ValidNames(sts, ns) && LongestLocal(sts, m) && i != j && m < |HostName(sts, ns, i)| && m <= |HostName(sts, ns, j)|
    ensures ReplaceAll(OverlapText(sts, ns, i, j, m), HostName(sts, ns, j), r) == HostName(sts, ns, i)[..|HostName(sts, ns, i)| - m] + r
  {
    OverlapShape(sts, ns, i, j, m);
    forall x | 0 <= x < |HostName(sts, ns, i)| - m ensures !(HostName(sts, ns, j) <= OverlapText(sts, ns, i, j, m)[x..]) {
      OnlyFirstBefore(sts, ns, i, j, j, m, x);
    }
    SharedReplaced(OverlapText(sts, ns, i, j, m), HostName(sts, ns, i), HostName(sts, ns, j), m, r);
  }

  lemma SharedReplaced(t: string, p: string, q: string, m: nat, r: string)
    requires q != "" && Shared(p, q, m, t)
    requires forall x | 0 <= x < |p| - m :: !(q <= t[x..])
    ensures ReplaceAll(t, q, r) == p[..|p| - m] + r
  {
    SplitShared(p, q, m);
    ReplacedBack(t, p[..|p| - m], q, r);
  }

  lemma SplitShared(p: string, q: string, m: nat)
    requires m < |p| && m <= |q| && p[|p| - m..] == q[..m]
    ensures p + q[m..] == p[..|p| - m] + q
  {
    SharedTail(p, q, m);
    assert p + q[m..] == (p + q[m..])[..|p| - m] + (p + q[m..])[|p| - m..];
  }

  lemma ReplacedBack(t: string, front: string, q: string, r: string)
    requires q != "" && t == front + q && forall x | 0 <= x < |front| :: !(q <= t[x..])
    ensures ReplaceAll(t, q, r) == front + r
  {
    CopyBefore(t, q, r, |front|);
    assert t[..|front|] == front && t[|front|..] == q && q[|q|..] == "";
    assert ReplaceAll(q, q, r) == r + "";
  }

  lemma OverlapOf(sts: string, ns: string, ips: seq<string>, a: seq<Rule>, n: nat, b: seq<Rule>, i: nat, j: nat, m: nat)
    requires ValidNames(sts, ns) && AllAddresses(ips) && OfHosts(a, sts, ns, ips) && OfHosts(b, sts, ns, ips)
    requires LongestLocal(sts, m) && n < |a| && n < |b| && a[..n] == b[..n] && a[n] != b[n]
    requires IsHostRule(a[n], sts, ns, ips, i) && IsHostRule(b[n], sts, ns, ips, j)
    ensures m <= |HostName(sts, ns, j)|
    ensures Sequential(OverlapText(sts, ns, i, j, m), a) != Sequential(OverlapText(sts, ns, i, j, m), b)
  {
    NotBefore(a, n);
    NotBefore(b, n);
    FirstBeforeSecond(sts, ns, ips, a, n, i, j, m);
    SecondBeforeFirst(sts, ns, ips, b, n, i, j, m);
    assert ips[i] in ips;
    HostStartNotInAddress(sts, ns, i, ips[i]);
    var _, _, _ := AddressShape(ips[i]);
    FirstLettersDiffer(HostName(sts, ns, i)[..|HostName(sts, ns, i)| - m], ips[j], ips[i], HostName(sts, ns, j)[m..]);
  }

  lemma FirstLettersDiffer(front: string, r: string, r': string, rest: string)
    requires front != "" && r' != "" && front[0] !in r'
    ensures front + r != r' + rest
  {
    assert (front + r)[0] == front[0] && (r' + rest)[0] == r'[0];
  }

  lemma NotBefore(order: seq<Rule>, n: nat)
    requires n < |order| && forall x, y | 0 <= x < |order| && 0 <= y < |order| && x != y :: order[x] != order[y]
    ensures order[n] !in order[..n]
  {
  }

  lemma LongestBorder(sts: string) returns (m: nat)
    requires StartsLikeLocal(sts)
    ensures LocalBorder(sts, m) && forall n: nat | m < n <= 5 :: !LocalBorder(sts, n)
  {
    m := 5;
    while !LocalBorder(sts, m)
      invariant m <= 5 && forall n: nat | m < n <= 5 :: !LocalBorder(sts, n)
      decreases m
    {
      m := m - 1;
    }
  }

  lemma BorderShared(p: string, q: string, sts: string, m: nat, c: nat, t: string)
    requires |p| == c + 18 && DomainAt(p, c) && LocalBorder(sts, m) && |sts| <= |q| && q[..|sts|] == sts && t == p + q[m..]
    ensures Shared(p, q, m, t)
  {
    assert p[|p| - m..] == p[c + 13..][5 - m..];
    assert q[..m] == q[..|sts|][..m];
    SharedTail(p, q, m);
  }
}
