/** Resource names (names.go and the naming functions of statefulset.go). */
module Names {
  import opened Strings

  datatype Component = Dhcp4 | Dhcp6 | CtrlAgent | Ddns | StorkServer {
    function Text(): (s: string)
      ensures |s| >= 4
    {
      match this
      case Dhcp4 => "dhcp4"
      case Dhcp6 => "dhcp6"
      case CtrlAgent => "ctrl-agent"
      case Ddns => "ddns"
      case StorkServer => "stork-server"
    }
  }

  function StatefulSetName(cr: string, c: Component): string { cr + "-" + c.Text() }

  function ConfigMapName(cr: string, c: Component): string { cr + "-" + c.Text() }

  function HAConfigMapName(cr: string, c: Component, ordinal: nat): string {
    cr + "-" + c.Text() + "-" + Decimal(ordinal)
  }

  function ServiceName(cr: string, c: Component): string { cr + "-" + c.Text() }

  function HeadlessServiceName(cr: string, c: Component): string { cr + "-" + c.Text() + "-hl" }

  function PerPodServiceName(cr: string, c: Component, ordinal: nat): string {
    cr + "-" + c.Text() + "-" + Decimal(ordinal)
  }

  function StorkMetricsServiceName(cr: string, c: Component): string { cr + "-" + c.Text() + "-stork" }

  function ServiceAccountName(cr: string): string { cr + "-kea" }

  function StorkAdminSecretName(cr: string): string { cr + "-stork-admin" }

  function StorkServerTokenSecretName(cr: string): string { cr + "-stork-server-token" }

  /** The name the StatefulSet controller gives the pod of an ordinal. */
  function PodName(sts: string, ordinal: nat): string { sts + "-" + Decimal(ordinal) }

  /** The roles an object of one component can play within its kind. */
  datatype Role = Plain | Headless | Ordinal(n: nat) | StorkMetrics

  function RoleName(cr: string, c: Component, r: Role): string {
    match r
    case Plain => ServiceName(cr, c)
    case Headless => HeadlessServiceName(cr, c)
    case Ordinal(n) => PerPodServiceName(cr, c, n)
    case StorkMetrics => StorkMetricsServiceName(cr, c)
  }

  // ---------- decoding ----------

  /** The shell expansion `${s##*-}`: what follows the last dash. */
  function AfterLastDash(s: string): string {
    if s == "" || s[|s| - 1] == '-' then ""
    else AfterLastDash(s[..|s| - 1]) + [s[|s| - 1]]
  }

  lemma {:induction false} AfterLastDashOf(a: string, x: string)
    requires '-' !in x
    ensures AfterLastDash(a + "-" + x) == x
  {
    var s := a + "-" + x;
    if x != "" {
      assert x[|x| - 1] in x;
      assert s[..|s| - 1] == a + "-" + x[..|x| - 1];
      AfterLastDashOf(a, x[..|x| - 1]);
    }
  }

  lemma SplitAtLastDash(a: string, x: string, b: string, y: string)
    requires '-' !in x && '-' !in y
    requires a + "-" + x == b + "-" + y
    ensures a == b && x == y
  {
    AfterLastDashOf(a, x);
    AfterLastDashOf(b, y);
    assert a == (a + "-" + x)[..|a|] && b == (b + "-" + y)[..|b|];
  }

  /** A component name up to its last dash, and what follows it. */
  function Stem(c: Component): string {
    match c
    case CtrlAgent => "-ctrl"
    case StorkServer => "-stork"
    case _ => ""
  }

  function Tail(c: Component): (s: string)
    ensures '-' !in s && s !in ["hl", "stork", "kea", "admin"] && !AllDigits(s)
  {
    var s := match c
      case Dhcp4 => "dhcp4"
      case Dhcp6 => "dhcp6"
      case CtrlAgent => "agent"
      case Ddns => "ddns"
      case StorkServer => "server";
    assert s[0] in s;
    s
  }

  lemma PlainSplits(cr: string, c: Component)
    ensures cr + "-" + c.Text() == cr + Stem(c) + "-" + Tail(c)
  {
    TextSplits(c);
    assert cr + "-" + c.Text() == cr + ("-" + c.Text());
    assert cr + Stem(c) + "-" + Tail(c) == cr + (Stem(c) + "-" + Tail(c));
  }

  lemma TextSplits(c: Component)
    ensures "-" + c.Text() == Stem(c) + "-" + Tail(c)
  {
  }

  lemma PlainDecodes(cr: string, c: Component, cr': string, c': Component)
    requires cr + "-" + c.Text() == cr' + "-" + c'.Text()
    ensures cr == cr' && c == c'
  {
    PlainSplits(cr, c);
    PlainSplits(cr', c');
    SplitAtLastDash(cr + Stem(c), Tail(c), cr' + Stem(c'), Tail(c'));
    assert c == c' by {
      assert Tail(c)[|Tail(c)| - 1] == Tail(c')[|Tail(c')| - 1];
    }
    assert cr == (cr + Stem(c))[..|cr|] == (cr' + Stem(c'))[..|cr'|];
  }

  /** Front and last piece of a generated name. */
  function LastPiece(c: Component, r: Role): (s: string)
    ensures '-' !in s
  {
    match r
    case Plain => Tail(c)
    case Headless => "hl"
    case Ordinal(n) =>
      var d := Decimal(n);
      assert '-' in d ==> IsDigit('-');
      d
    case StorkMetrics => "stork"
  }

  function Front(cr: string, c: Component, r: Role): string {
    if r.Plain? then cr + Stem(c) else cr + "-" + c.Text()
  }

  lemma RoleNameSplits(cr: string, c: Component, r: Role)
    ensures RoleName(cr, c, r) == Front(cr, c, r) + "-" + LastPiece(c, r)
  {
    PlainSplits(cr, c);
    match r
    case Plain =>
    case Headless => assert "-hl" == "-" + "hl";
    case Ordinal(n) =>
    case StorkMetrics => assert "-stork" == "-" + "stork";
  }

  /** Within one kind a name determines CR name, component, role and ordinal. */
  lemma RoleNameDecodes(cr: string, c: Component, r: Role, cr': string, c': Component, r': Role)
    requires RoleName(cr, c, r) == RoleName(cr', c', r')
    ensures cr == cr' && c == c' && r == r'
  {
    RoleNameSplits(cr, c, r);
    RoleNameSplits(cr', c', r');
    SplitAtLastDash(Front(cr, c, r), LastPiece(c, r), Front(cr', c', r'), LastPiece(c', r'));
    LastPieceDecodes(c, r, c', r');
    PlainDecodes'(cr, c, r, cr', c', r');
  }

  lemma LastPieceDecodes(c: Component, r: Role, c': Component, r': Role)
    requires LastPiece(c, r) == LastPiece(c', r')
    ensures r == r'
  {
    assert !AllDigits("hl") by { assert "hl"[0] in "hl"; }
    assert !AllDigits("stork") by { assert "stork"[0] in "stork"; }
    if r.Ordinal? && r'.Ordinal? {
      DecimalInjective(r.n, r'.n);
    }
  }

  lemma PlainDecodes'(cr: string, c: Component, r: Role, cr': string, c': Component, r': Role)
    requires r == r' && RoleName(cr, c, r) == RoleName(cr', c', r')
    requires Front(cr, c, r) == Front(cr', c', r')
    ensures cr == cr' && c == c'
  {
    PlainDecodes(cr, c, cr', c');
  }

  /** The suffix of service account and Secret names is fixed, so these names determine the CR. */
  lemma CrNameDecodes(cr: string, cr': string)
    ensures ServiceAccountName(cr) == ServiceAccountName(cr') ==> cr == cr'
    ensures StorkAdminSecretName(cr) == StorkAdminSecretName(cr') ==> cr == cr'
    ensures StorkServerTokenSecretName(cr) == StorkServerTokenSecretName(cr') ==> cr == cr'
    ensures StorkAdminSecretName(cr) != StorkServerTokenSecretName(cr')
  {
    var a, b := StorkAdminSecretName(cr), StorkServerTokenSecretName(cr');
    assert a[|a| - 2] == 'i' && b[|b| - 2] == 'e';
    SuffixCancels(cr, cr', "-kea");
    SuffixCancels(cr, cr', "-stork-admin");
    SuffixCancels(cr, cr', "-stork-server-token");
  }

  lemma SuffixCancels(a: string, b: string, s: string)
    ensures a + s == b + s ==> a == b
  {
    assert a == (a + s)[..|a|] && b == (b + s)[..|b|];
  }
}
