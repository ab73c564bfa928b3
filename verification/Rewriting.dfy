/**
 * The string rewriting an init container performs: one literal
 * `sed s|pattern|replacement|g` after the other over the configuration text.
 * The main result says when running the commands one by one, in any order,
 * equals replacing all patterns simultaneously.
 */
module Rewriting {
  import opened Options
  import opened Strings

  datatype Rule = Rule(pattern: string, replacement: string)

  /** Literal replace-all: leftmost, non-overlapping, replacements not rescanned. */
  function ReplaceAll(t: string, p: string, r: string): string
    requires p != ""
    decreases |t|
  {
    if t == "" then ""
    else if p <= t then r + ReplaceAll(t[|p|..], p, r)
    else [t[0]] + ReplaceAll(t[1..], p, r)
  }

  predicate WellFormed(rules: seq<Rule>) {
    forall rule | rule in rules :: rule.pattern != ""
  }

  /** The commands of the script, executed in order. */
  function Sequential(t: string, rules: seq<Rule>): string
    requires WellFormed(rules)
  {
    if rules == [] then t
    else
      var last := rules[|rules| - 1];
      ReplaceAll(Sequential(t, rules[..|rules| - 1]), last.pattern, last.replacement)
  }

  /** The rule whose pattern starts `t`, if any. */
  function FirstMatch(t: string, rules: seq<Rule>): (m: Option<Rule>)
    ensures m.Some? ==> m.value in rules && m.value.pattern <= t
    ensures m.None? ==> forall rule | rule in rules :: !(rule.pattern <= t)
  {
    if rules == [] then None
    else if rules[0].pattern <= t then Some(rules[0])
    else FirstMatch(t, rules[1..])
  }

  /** One left-to-right pass that replaces every pattern by its own replacement. */
  function Simultaneous(t: string, rules: seq<Rule>): string
    requires WellFormed(rules)
    decreases |t|
  {
    if t == "" then ""
    else match FirstMatch(t, rules)
      case Some(rule) => rule.replacement + Simultaneous(t[|rule.pattern|..], rules)
      case None => [t[0]] + Simultaneous(t[1..], rules)
  }

  /** No pattern is a prefix of another one. */
  predicate PrefixFree(rules: seq<Rule>) {
    forall i, j | 0 <= i < |rules| && 0 <= j < |rules| && i != j ::
      !(rules[i].pattern <= rules[j].pattern)
  }

  /** No replacement contains a character that can start a pattern. */
  predicate StartFree(rules: seq<Rule>)
    requires WellFormed(rules)
  {
    forall a, b | a in rules && b in rules :: a.pattern[0] !in b.replacement
  }

  /** No occurrence of `q` in `t` starts strictly inside an occurrence of `p`. */
  ghost predicate NoOverlap(t: string, p: string, q: string) {
    forall x: nat, y: nat | OccursAt(t, x, p) && OccursAt(t, y, q) :: !(x < y < x + |p|)
  }

  /**
   * Replacing an occurrence of `q` in `t` by `r` does not complete a proper prefix of `p`
   * that stands directly before it.
   */
  ghost predicate NoBridge(t: string, p: string, q: string, r: string) {
    forall k: nat, y: nat | 0 < k < |p| && k <= y && OccursAt(t, y, q) && OccursAt(t, y - k, p[..k]) ::
      !Compatible(p[k..], r)
  }

  /** The interference conditions between an earlier rule `a` and a later rule `b`. */
  ghost predicate Independent(t: string, a: Rule, b: Rule) {
    NoOverlap(t, b.pattern, a.pattern) && NoBridge(t, b.pattern, a.pattern, a.replacement)
  }

  ghost predicate AllIndependent(t: string, rules: seq<Rule>) {
    forall a, b | a in rules && b in rules :: Independent(t, a, b)
  }

  // ---------- suffixes of the text inherit the conditions ----------

  lemma OccursInSuffix(t: string, n: nat, x: nat, p: string)
    requires n <= |t|
    ensures OccursAt(t[n..], x, p) <==> OccursAt(t, n + x, p)
  {
    if n + x + |p| <= |t| {
      assert t[n..][x..x + |p|] == t[n + x..n + x + |p|];
    }
  }

  lemma IndependentSuffix(t: string, n: nat, a: Rule, b: Rule)
    requires n <= |t| && Independent(t, a, b)
    ensures Independent(t[n..], a, b)
  {
    var s, p, q := t[n..], b.pattern, a.pattern;
    forall x: nat, y: nat | OccursAt(s, x, p) && OccursAt(s, y, q)
      ensures !(x < y < x + |p|)
    {
      OccursInSuffix(t, n, x, p);
      OccursInSuffix(t, n, y, q);
    }
    forall k: nat, y: nat | 0 < k < |p| && k <= y && OccursAt(s, y, q) && OccursAt(s, y - k, p[..k])
      ensures !Compatible(p[k..], a.replacement)
    {
      OccursInSuffix(t, n, y, q);
      OccursInSuffix(t, n, y - k, p[..k]);
      assert OccursAt(t, n + y, q) && OccursAt(t, n + y - k, p[..k]);
    }
  }

  // ---------- one more command refines one more simultaneous rule ----------

  /** A pattern whose first character is absent from `u` has no match that starts inside `u`. */
  lemma {:induction false} ReplaceAfter(u: string, t: string, p: string, r: string)
    requires p != "" && p[0] !in u
    ensures ReplaceAll(u + t, p, r) == u + ReplaceAll(t, p, r)
  {
    if u == "" {
      assert u + t == t;
    } else {
      assert (u + t)[0] == u[0] && u[0] in u;
      assert (u + t)[1..] == u[1..] + t;
      ReplaceAfter(u[1..], t, p, r);
      assert [u[0]] + (u[1..] + ReplaceAll(t, p, r)) == u + ReplaceAll(t, p, r);
    }
  }

  /** Up to the first match the simultaneous pass copies the text. */
  lemma {:induction false} CopyUntil(t: string, rules: seq<Rule>, n: nat)
    requires WellFormed(rules) && n <= |t|
    requires forall y | 0 <= y < n :: FirstMatch(t[y..], rules).None?
    ensures Simultaneous(t, rules) == t[..n] + Simultaneous(t[n..], rules)
    decreases n
  {
    if n == 0 {
      assert t[..0] == "" && t[0..] == t;
    } else {
      CopyUntil(t, rules, n - 1);
      CopyOne(t[n - 1..], rules);
      OneFurther(t, n, Simultaneous(t[n..], rules));
    }
  }

  lemma CopyOne(u: string, rules: seq<Rule>)
    requires WellFormed(rules) && u != "" && FirstMatch(u, rules).None?
    ensures Simultaneous(u, rules) == [u[0]] + Simultaneous(u[1..], rules)
  {
  }

  lemma OneFurther(t: string, n: nat, rest: string)
    requires 0 < n <= |t|
    ensures t[..n - 1] + ([t[n - 1..][0]] + rest) == t[..n] + rest
    ensures t[n - 1..][1..] == t[n..]
  {
    assert t[..n] == t[..n - 1] + [t[n - 1]];
  }

  lemma MatchOccurs(t: string, y: nat, rules: seq<Rule>)
    requires y <= |t| && FirstMatch(t[y..], rules).Some?
    ensures var q := FirstMatch(t[y..], rules).value.pattern; OccursAt(t, y, q)
  {
    var q := FirstMatch(t[y..], rules).value.pattern;
    assert t[y..][..|q|] == t[y..y + |q|];
  }

  /** If a match begins within the first `n` positions, there is a first one. */
  lemma {:induction false} FirstMatchPosition(t: string, rules: seq<Rule>, n: nat) returns (k: nat)
    requires n <= |t|
    requires exists y :: 0 <= y < n && FirstMatch(t[y..], rules).Some?
    ensures k < n && FirstMatch(t[k..], rules).Some?
    ensures forall y | 0 <= y < k :: FirstMatch(t[y..], rules).None?
  {
    k := 0;
    while FirstMatch(t[k..], rules).None?
      invariant k < n
      decreases n - k
      invariant forall y | 0 <= y < k :: FirstMatch(t[y..], rules).None?
    {
      k := k + 1;
    }
  }

  /** The pass over earlier rules neither destroys nor creates a match of a later pattern at the front. */
  lemma FrontMatchPreserved(t: string, rules: seq<Rule>, b: Rule)
    requires WellFormed(rules) && b.pattern != "" && t != ""
    requires forall a | a in rules :: Independent(t, a, b)
    requires FirstMatch(t, rules).None?
    ensures b.pattern <= t ==>
              Simultaneous(t, rules) == b.pattern + Simultaneous(t[|b.pattern|..], rules)
    ensures b.pattern <= Simultaneous(t, rules) ==> b.pattern <= t
  {
    var p, s := b.pattern, Simultaneous(t, rules);
    var n := if |p| <= |t| then |p| else |t|;
    assert p <= t <==> OccursAt(t, 0, p);
    if exists y :: 0 <= y < n && FirstMatch(t[y..], rules).Some? {
      var k := FirstMatchPosition(t, rules, n);
      assert t[0..] == t;
      var a := FirstMatch(t[k..], rules).value;
      MatchOccurs(t, k, rules);
      CopyUntil(t, rules, k);
      assert NoOverlap(t, p, a.pattern);
      if p <= s {
        var rest := Simultaneous(t[k..][|a.pattern|..], rules);
        assert s == t[..k] + (a.replacement + rest);
        BridgeFromPrefix(t, k, a, b, rest);
      }
    } else {
      CopyUntil(t, rules, n);
      assert p <= t ==> t[..|p|] == p;
      assert |t| < |p| ==> s == t;
      if |p| <= |t| {
        assert s[..|p|] == t[..|p|];
      }
    }
  }

  lemma BridgeFromPrefix(t: string, k: nat, a: Rule, b: Rule, rest: string)
    requires 0 < k < |b.pattern| && k <= |t| && OccursAt(t, k, a.pattern)
    requires Independent(t, a, b)
    ensures !(b.pattern <= t[..k] + (a.replacement + rest))
  {
    var p, r, s := b.pattern, a.replacement, t[..k] + (a.replacement + rest);
    assert s[..k] == t[..k] && s[k..] == r + rest;
    assert OccursAt(t, k - k, t[..k]);
    if p <= s {
      assert p[..k] == s[..k];
      assert p[k..] <= s[k..];
      PrefixesCompatible(p[k..], r, r + rest);
    }
  }

  predicate Extends(rules: seq<Rule>, b: Rule)
  {
    && WellFormed(rules + [b]) && PrefixFree(rules + [b])
    && forall a | a in rules :: b.pattern[0] !in a.replacement
  }

  /** Adding `b` after `rules`: its command acts like a further simultaneous rule. */
  lemma {:induction false} ReplaceExtends(t: string, rules: seq<Rule>, b: Rule)
    requires WellFormed(rules) && Extends(rules, b)
    requires forall a | a in rules :: Independent(t, a, b)
    ensures ReplaceAll(Simultaneous(t, rules), b.pattern, b.replacement) == Simultaneous(t, rules + [b])
    decreases |t|
  {
    var all, p, r := rules + [b], b.pattern, b.replacement;
    FirstMatchExtends(t, rules, b);
    if t == "" {
    } else if FirstMatch(t, rules).Some? {
      var a := FirstMatch(t, rules).value;
      forall c | c in rules ensures Independent(t[|a.pattern|..], c, b) {
        IndependentSuffix(t, |a.pattern|, c, b);
      }
      ReplaceExtends(t[|a.pattern|..], rules, b);
      ReplaceAfter(a.replacement, Simultaneous(t[|a.pattern|..], rules), p, r);
    } else {
      FrontMatchPreserved(t, rules, b);
      var n := if p <= t then |p| else 1;
      forall c | c in rules ensures Independent(t[n..], c, b) {
        IndependentSuffix(t, n, c, b);
      }
      ReplaceExtends(t[n..], rules, b);
      if p <= t {
        assert (p + Simultaneous(t[|p|..], rules))[|p|..] == Simultaneous(t[|p|..], rules);
      } else {
        assert ([t[0]] + Simultaneous(t[1..], rules))[1..] == Simultaneous(t[1..], rules);
      }
    }
  }

  lemma {:induction false} FirstMatchExtends(t: string, rules: seq<Rule>, b: Rule)
    ensures FirstMatch(t, rules + [b]) ==
            if FirstMatch(t, rules).Some? then FirstMatch(t, rules)
            else if b.pattern <= t then Some(b) else None
  {
    if rules == [] {
      assert rules + [b] == [b];
      assert [b][1..] == [];
    } else {
      assert (rules + [b])[1..] == rules[1..] + [b];
      FirstMatchExtends(t, rules[1..], b);
    }
  }

  // ---------- main results ----------

  /**
   * Sequential execution equals simultaneous substitution as soon as no earlier rule
   * interferes with a later one.
   */
  lemma {:induction false} SequentialIsSimultaneous(t: string, rules: seq<Rule>)
    requires WellFormed(rules) && PrefixFree(rules)
    requires forall i, j | 0 <= i < j < |rules| ::
               rules[j].pattern[0] !in rules[i].replacement && Independent(t, rules[i], rules[j])
    ensures Sequential(t, rules) == Simultaneous(t, rules)
  {
    if rules == [] {
      NoRules(t);
    } else {
      var front, b := rules[..|rules| - 1], rules[|rules| - 1];
      assert rules == front + [b];
      forall i, j | 0 <= i < |front| && 0 <= j < |front| && i != j
        ensures !(front[i].pattern <= front[j].pattern)
      {
        assert front[i] == rules[i] && front[j] == rules[j];
      }
      SequentialIsSimultaneous(t, front);
      ReplaceExtends(t, front, b);
    }
  }

  lemma {:induction false} NoRules(t: string)
    ensures Simultaneous(t, []) == t
    decreases |t|
  {
    if t != "" {
      NoRules(t[1..]);
      assert [t[0]] + t[1..] == t;
    }
  }

  /** The simultaneous pass depends on the set of rules only. */
  lemma {:induction false} SimultaneousSameRules(t: string, a: seq<Rule>, b: seq<Rule>)
    requires WellFormed(a) && WellFormed(b) && PrefixFree(a)
    requires forall rule :: rule in a <==> rule in b
    ensures Simultaneous(t, a) == Simultaneous(t, b)
    decreases |t|
  {
    if t == "" {
    } else if FirstMatch(t, a).Some? {
      var ra := FirstMatch(t, a).value;
      assert FirstMatch(t, b).Some?;
      var rb := FirstMatch(t, b).value;
      var i :| 0 <= i < |a| && a[i] == ra;
      var j :| 0 <= j < |a| && a[j] == rb;
      PrefixesCompatible(ra.pattern, rb.pattern, t);
      assert i == j;
      SimultaneousSameRules(t[|ra.pattern|..], a, b);
    } else {
      SimultaneousSameRules(t[1..], a, b);
    }
  }

  /** Every execution order of a set of independent rules yields the simultaneous result. */
  lemma OrderIrrelevant(t: string, rules: seq<Rule>, order: seq<Rule>)
    requires WellFormed(rules) && PrefixFree(rules) && StartFree(rules) && AllIndependent(t, rules)
    requires multiset(order) == multiset(rules)
    ensures WellFormed(order)
    ensures Sequential(t, order) == Simultaneous(t, rules)
  {
    forall rule
      ensures rule in order <==> rule in rules
    {
      assert rule in order <==> rule in multiset(order);
      assert rule in rules <==> rule in multiset(rules);
    }
    PrefixFreePermutation(rules, order);
    SequentialIsSimultaneous(t, order);
    SimultaneousSameRules(t, rules, order);
  }

  /** Two lists with the same independent rules rewrite a text alike. */
  lemma SameRulesSameResult(t: string, rules: seq<Rule>, other: seq<Rule>)
    requires WellFormed(rules) && PrefixFree(rules) && StartFree(rules) && AllIndependent(t, rules)
    requires PrefixFree(other) && forall rule :: rule in rules <==> rule in other
    ensures WellFormed(other) && Sequential(t, rules) == Sequential(t, other)
  {
    OrderIrrelevant(t, rules, rules);
    assert StartFree(other) && AllIndependent(t, other);
    OrderIrrelevant(t, other, other);
    SimultaneousSameRules(t, rules, other);
  }

  lemma PrefixFreePermutation(rules: seq<Rule>, order: seq<Rule>)
    requires PrefixFree(rules) && multiset(order) == multiset(rules)
    ensures PrefixFree(order)
  {
    forall i, j | 0 <= i < |order| && 0 <= j < |order| && i != j
      ensures !(order[i].pattern <= order[j].pattern)
    {
      var x, y := order[i], order[j];
      assert x in multiset(order) && y in multiset(order);
      assert x in rules && y in rules;
      if x == y {
        TwiceInMultiset(order, i, j);
        assert multiset(rules)[x] >= 2;
        var m, n := TwoPositions(rules, x);
      } else {
        var m :| 0 <= m < |rules| && rules[m] == x;
        var n :| 0 <= n < |rules| && rules[n] == y;
        assert m != n;
      }
    }
  }

  lemma TwiceInMultiset<T>(s: seq<T>, i: nat, j: nat)
    requires i < |s| && j < |s| && i != j && s[i] == s[j]
    ensures multiset(s)[s[i]] >= 2
  {
    var lo, hi := if i < j then i else j, if i < j then j else i;
    assert s == s[..lo] + [s[lo]] + s[lo + 1..hi] + [s[hi]] + s[hi + 1..];
  }

  lemma {:induction false} TwoPositions<T>(s: seq<T>, x: T) returns (m: nat, n: nat)
    requires multiset(s)[x] >= 2
    ensures m < n < |s| && s[m] == x && s[n] == x
  {
    assert x in multiset(s) && x in s;
    m :| m < |s| && s[m] == x;
    var rest := s[..m] + s[m + 1..];
    assert s == s[..m] + [x] + s[m + 1..];
    assert multiset(s) == multiset(rest) + multiset{x};
    assert x in multiset(rest) && x in rest;
    var k: nat :| k < |rest| && rest[k] == x;
    n := if k < m then k else k + 1;
    assert s[n] == x && n != m;
    m, n := if n < m then n else m, if n < m then m else n;
  }

  // ---------- text behind a delimiter ----------

  /** A character outside the pattern splits the rewriting. */
  lemma {:induction false} ReplaceAcross(a: string, d: char, b: string, p: string, r: string)
    requires p != "" && d !in p
    ensures ReplaceAll(a + [d] + b, p, r) == ReplaceAll(a, p, r) + [d] + ReplaceAll(b, p, r)
    decreases |a|
  {
    var t := a + [d] + b;
    if a == "" {
      assert t[0] == d && t[1..] == b;
      assert p[0] in p;
    } else if p <= a {
      assert t[..|p|] == a[..|p|] == p;
      assert t[|p|..] == a[|p|..] + [d] + b;
      ReplaceAcross(a[|p|..], d, b, p, r);
      var x, y := ReplaceAll(a[|p|..], p, r), ReplaceAll(b, p, r);
      assert r + (x + [d] + y) == (r + x) + [d] + y;
    } else {
      assert t[|a|] == d;
      assert |a| < |p| ==> p[|a|] in p;
      assert |p| <= |a| ==> t[..|p|] == a[..|p|];
      assert t[1..] == a[1..] + [d] + b;
      ReplaceAcross(a[1..], d, b, p, r);
      var x, y := ReplaceAll(a[1..], p, r), ReplaceAll(b, p, r);
      assert [a[0]] + (x + [d] + y) == ([a[0]] + x) + [d] + y;
    }
  }

  /** Delimited pieces of the text are rewritten independently of each other. */
  lemma {:induction false} SequentialAcross(a: string, d: char, b: string, rules: seq<Rule>)
    requires WellFormed(rules) && forall rule | rule in rules :: d !in rule.pattern
    ensures Sequential(a + [d] + b, rules) == Sequential(a, rules) + [d] + Sequential(b, rules)
  {
    if rules != [] {
      var front, last := rules[..|rules| - 1], rules[|rules| - 1];
      SequentialAcross(a, d, b, front);
      ReplaceAcross(Sequential(a, front), d, Sequential(b, front), last.pattern, last.replacement);
    }
  }

  lemma {:induction false} SequentialAppend(t: string, a: seq<Rule>, b: seq<Rule>)
    requires WellFormed(a) && WellFormed(b)
    ensures WellFormed(a + b)
    ensures Sequential(t, a + b) == Sequential(Sequential(t, a), b)
  {
    if b == [] {
      assert a + b == a;
    } else {
      var front := b[..|b| - 1];
      assert (a + b)[..|a + b| - 1] == a + front;
      SequentialAppend(t, a, front);
    }
  }

  /** A text without the first character of any pattern is left alone. */
  lemma {:induction false} SequentialUntouched(t: string, rules: seq<Rule>)
    requires WellFormed(rules) && forall rule | rule in rules :: rule.pattern[0] !in t
    ensures Sequential(t, rules) == t
  {
    if rules != [] {
      var last := rules[|rules| - 1];
      SequentialUntouched(t, rules[..|rules| - 1]);
      ReplaceAfter(t, "", last.pattern, last.replacement);
      assert t + "" == t;
    }
  }

  /** Text in which no match begins is copied. */
  lemma {:induction false} CopyBefore(t: string, q: string, s: string, e: nat)
    requires q != "" && e <= |t| && forall x | 0 <= x < e :: !(q <= t[x..])
    ensures ReplaceAll(t, q, s) == t[..e] + ReplaceAll(t[e..], q, s)
  {
    if e == 0 {
      assert t[..0] == "" && t[0..] == t;
    } else {
      CopyBefore(t, q, s, e - 1);
      var u := t[e - 1..];
      assert !(q <= u) && u[1..] == t[e..];
      assert t[..e] == t[..e - 1] + [t[e - 1]];
    }
  }
}
