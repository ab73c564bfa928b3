/**
 * Addresses on the extra network interface: the list the controller reports, and the address a
 * pod gives itself in its start command (keadhcp4server_controller.go, statefulset.go, deployment.go).
 */
module Nad {
  import opened Options
  import opened Strings
  import opened Names
  import opened Spec
  import opened Templates
  import H = HostNames

  type Byte = n: nat | n < 256

  datatype Ip = Ip(a: Byte, b: Byte, c: Byte, d: Byte) {
    function Text(): string { H.Quad(a, b, c, d) }

    function Value(): nat { ((a * 256 + b) * 256 + c) * 256 + d }
  }

  /** `parse` stands for ParseCIDR followed by To4: the written address, or `None` for an error or IPv6. */
  type ParseCIDR = string -> Option<Ip>

  // ---------- what the controller reports ----------

  /** Byte addition wraps around. */
  function Entry(ip: Ip, i: nat): Ip { ip.(d := (ip.d + i + 2) % 256) }

  function Addresses(ip: Ip, n: nat): (r: seq<string>)
    ensures |r| == n && forall i | 0 <= i < n :: r[i] == Entry(ip, i).Text()
  {
    seq(n, i requires 0 <= i < n => Entry(ip, i).Text())
  }

  function NadAddresses(subnet: string, replicas: nat, parse: ParseCIDR): seq<string> {
    if subnet == "" || parse(subnet).None? then [] else Addresses(parse(subnet).value, replicas)
  }

  method ComputeNadAddresses(subnet: string, replicas: nat, parse: ParseCIDR) returns (r: seq<string>)
    ensures r == NadAddresses(subnet, replicas, parse)
  {
    if subnet == "" || replicas == 0 {
      return [];
    }
    var parsed := parse(subnet);
    if parsed.None? {
      return [];
    }
    var addrs := new string[replicas](_ => "");
    FillAddresses(parsed.value, addrs);
    assert addrs[..] == Addresses(parsed.value, replicas);
    r := addrs[..];
  }

  lemma AddWraps(d: Byte, i: nat)
    ensures (d + (i + 2) % 256) % 256 == (d + i + 2) % 256
  {
  }

  /** The loop over the ordinals. */
  method FillAddresses(ip: Ip, addrs: array<string>)
    modifies addrs
    ensures addrs[..] == Addresses(ip, addrs.Length)
  {
    ghost var all := Addresses(ip, addrs.Length);
    for i := 0 to addrs.Length
      invariant addrs[..i] == all[..i]
    {
      var added: Byte := (i + 2) % 256;
      var last: Byte := (ip.d + added) % 256;
      AddWraps(ip.d, i);
      var addr := ip.(d := last).Text();
      addrs[i] := addr;
      assert addrs[..i + 1] == addrs[..i] + [addr] && all[..i + 1] == all[..i] + [all[i]];
    }
  }

  // ---------- dotted quads ----------

  /** The text up to the first delimiter, and the text after it. */
  function Before(s: string, d: char): (r: string)
    ensures d !in r
  {
    if s == "" || s[0] == d then "" else [s[0]] + Before(s[1..], d)
  }

  function After(s: string, d: char): string {
    if s == "" then "" else if s[0] == d then s[1..] else After(s[1..], d)
  }

  lemma {:induction false} CutAt(a: string, d: char, b: string)
    requires d !in a
    ensures Before(a + [d] + b, d) == a && After(a + [d] + b, d) == b
  {
    var s := a + [d] + b;
    if a != "" {
      assert s[1..] == a[1..] + [d] + b;
      CutAt(a[1..], d, b);
      assert a == [a[0]] + a[1..];
    }
  }

  lemma {:induction false} NothingToCut(s: string, d: char)
    requires d !in s
    ensures Before(s, d) == s
  {
    if s != "" {
      NothingToCut(s[1..], d);
      assert s == [s[0]] + s[1..];
    }
  }

  lemma NotADigit(n: nat)
    ensures '.' !in Decimal(n) && '/' !in Decimal(n)
  {
    assert '.' in Decimal(n) ==> IsDigit('.');
    assert '/' in Decimal(n) ==> IsDigit('/');
  }

  /** Splitting a dotted text into four fields, the last one taking the rest. */
  function Fields(s: string): (string, string, string, string) {
    var r1 := After(s, '.');
    var r2 := After(r1, '.');
    (Before(s, '.'), Before(r1, '.'), Before(r2, '.'), After(r2, '.'))
  }

  lemma FieldsOf(p: string, q: string, r: string, s: string)
    requires '.' !in p && '.' !in q && '.' !in r
    ensures Fields(p + "." + q + "." + r + "." + s) == (p, q, r, s)
  {
    var r2 := r + ['.'] + s;
    var r1 := q + ['.'] + r2;
    assert p + "." + q + "." + r + "." + s == p + ['.'] + r1;
    CutAt(p, '.', r1);
    CutAt(q, '.', r2);
    CutAt(r, '.', s);
  }

  lemma QuadFields(a: nat, b: nat, c: nat, d: nat)
    ensures Fields(H.Quad(a, b, c, d)) == (Decimal(a), Decimal(b), Decimal(c), Decimal(d))
    ensures '/' !in H.Quad(a, b, c, d)
  {
    NotADigit(a);
    NotADigit(b);
    NotADigit(c);
    NotADigit(d);
    FieldsOf(Decimal(a), Decimal(b), Decimal(c), Decimal(d));
    NotInJoin(Decimal(a), Decimal(b), Decimal(c), Decimal(d));
  }

  lemma NotInJoin(p: string, q: string, r: string, s: string)
    requires '/' !in p && '/' !in q && '/' !in r && '/' !in s
    ensures '/' !in p + "." + q + "." + r + "." + s
  {
  }

  lemma QuadInjective(a: nat, b: nat, c: nat, d: nat, a': nat, b': nat, c': nat, d': nat)
    requires H.Quad(a, b, c, d) == H.Quad(a', b', c', d')
    ensures (a, b, c, d) == (a', b', c', d')
  {
    QuadFields(a, b, c, d);
    QuadFields(a', b', c', d');
    DecimalInjective(a, a');
    DecimalInjective(b, b');
    DecimalInjective(c, c');
    DecimalInjective(d, d');
  }

  // ---------- properties of the reported list ----------

  predicate AllDistinct(s: seq<string>) { forall i, j | 0 <= i < j < |s| :: s[i] != s[j] }

  lemma EntriesDiffer(ip: Ip, i: nat, j: nat)
    requires i < j < 256
    ensures Entry(ip, i).Text() != Entry(ip, j).Text()
  {
    if Entry(ip, i).Text() == Entry(ip, j).Text() {
      QuadInjective(ip.a, ip.b, ip.c, Entry(ip, i).d, ip.a, ip.b, ip.c, Entry(ip, j).d);
    }
  }

  /** The reported addresses are pairwise different exactly up to 256 replicas. */
  lemma DistinctExactly(subnet: string, replicas: nat, parse: ParseCIDR)
    requires subnet != "" && parse(subnet).Some?
    ensures AllDistinct(NadAddresses(subnet, replicas, parse)) <==> replicas <= 256
  {
    var ip, addrs := parse(subnet).value, NadAddresses(subnet, replicas, parse);
    if replicas > 256 {
      assert Entry(ip, 256) == Entry(ip, 0);
      assert addrs[0] == Entry(ip, 0).Text() && addrs[256] == Entry(ip, 256).Text();
    } else {
      forall i, j | 0 <= i < j < |addrs| ensures addrs[i] != addrs[j] {
        EntriesDiffer(ip, i, j);
      }
    }
  }

  function Pow2(n: nat): (r: nat)
    ensures r > 0
  {
    if n == 0 then 1 else 2 * Pow2(n - 1)
  }

  /** The number of the block of `2^(32-prefix)` addresses an address lies in. */
  function Block(ip: Ip, prefix: nat): int
    requires prefix <= 32
  {
    ip.Value() / Pow2(32 - prefix)
  }

  /** With a prefix of at most 24 bits every reported address stays in the block of the subnet. */
  lemma StaysInBlock(ip: Ip, prefix: nat, i: nat)
    requires prefix <= 24
    ensures Block(Entry(ip, i), prefix) == Block(ip, prefix)
  {
    var high, size := (ip.a * 256 + ip.b) * 256 + ip.c, Pow2(24 - prefix);
    PowSplits(24 - prefix, 8);
    assert Pow2(8) == 256 by { assert Pow2(4) == 16; }
    DivDiv(high, ip.d, size);
    DivDiv(high, Entry(ip, i).d, size);
  }

  lemma {:induction false} PowSplits(m: nat, n: nat)
    ensures Pow2(m + n) == Pow2(m) * Pow2(n)
  {
    if n > 0 { PowSplits(m, n - 1); }
  }

  lemma DivDiv(high: nat, low: Byte, size: nat)
    requires size > 0
    ensures (high * 256 + low) / (size * 256) == high / size
  {
    var q, r := high / size, high % size;
    assert high == q * size + r;
    assert high * 256 + low == q * (size * 256) + (r * 256 + low);
    assert 0 <= r * 256 + low < size * 256;
    DivUnique(high * 256 + low, size * 256, q, r * 256 + low);
  }

  lemma DivUnique(x: int, m: int, q: int, r: int)
    requires m > 0 && 0 <= r < m && x == q * m + r
    ensures x / m == q
  {
    assert x == (x / m) * m + x % m;
    MultipleBound(x / m - q, m);
  }

  lemma MultipleBound(k: int, m: int)
    requires m > 0
    ensures k >= 1 ==> k * m >= m
    ensures k <= -1 ==> k * m <= -m
  {
  }

  predicate AllInBlock(ip: Ip, prefix: nat, replicas: nat)
    requires prefix <= 32
  {
    forall i: nat | i < replicas :: Block(Entry(ip, i), prefix) == Block(ip, prefix)
  }

  /**
   * With a longer prefix nothing checks the block: all reported addresses lie in it exactly when
   * the last of them does not run over the end of the block.
   */
  lemma InBlockExactly(ip: Ip, prefix: nat, replicas: nat)
    requires 24 < prefix <= 32 && replicas > 0
    ensures AllInBlock(ip, prefix, replicas) <==> ip.d % Pow2(32 - prefix) + replicas + 1 < Pow2(32 - prefix)
  {
    var size := Pow2(32 - prefix);
    SmallPowers(32 - prefix);
    var high := (ip.a * 256 + ip.b) * 256 + ip.c;
    forall i: nat ensures Block(Entry(ip, i), prefix) == Block(ip, prefix) <==> Entry(ip, i).d / size == ip.d / size {
      SplitBlock(high, ip.d, size);
      SplitBlock(high, Entry(ip, i).d, size);
    }
    if ip.d % size + replicas + 1 < size {
      forall i: nat | i < replicas ensures Entry(ip, i).d / size == ip.d / size {
        WithinBlock(ip.d, i, size);
      }
    } else {
      // the first address past the end of the block
      var i := if ip.d % size + 2 >= size then 0 else size - ip.d % size - 2;
      OutsideBlock(ip.d, i, size);
      assert i < replicas && Block(Entry(ip, i), prefix) != Block(ip, prefix);
    }
  }

  lemma SmallPowers(n: nat)
    requires n < 8
    ensures Pow2(n) in [1, 2, 4, 8, 16, 32, 64, 128]
  {
    assert Pow2(0) == 1 && Pow2(1) == 2 && Pow2(2) == 4 && Pow2(3) == 8;
    assert Pow2(4) == 16 && Pow2(5) == 32 && Pow2(6) == 64 && Pow2(7) == 128;
  }

  lemma SplitBlock(high: nat, d: Byte, size: nat)
    requires size in [1, 2, 4, 8, 16, 32, 64, 128]
    ensures (high * 256 + d) / size == high * (256 / size) + d / size
  {
  }

  lemma WithinBlock(d: Byte, i: nat, size: nat)
    requires size in [1, 2, 4, 8, 16, 32, 64, 128] && d % size + i + 2 < size
    ensures ((d + i + 2) % 256) / size == d / size
  {
  }

  lemma OutsideBlock(d: Byte, i: nat, size: nat)
    requires size in [1, 2, 4, 8, 16, 32, 64, 128]
    requires i == if d % size + 2 >= size then 0 else size - d % size - 2
    ensures ((d + i + 2) % 256) / size != d / size
  {
    if size <= 2 {
      OutsideTiny(d, i, size);
    } else if size <= 8 {
      OutsideSmall(d, i, size);
    } else if size <= 32 {
      OutsideMedium(d, i, size);
    } else {
      OutsideLarge(d, i, size);
    }
  }

  lemma OutsideTiny(d: Byte, i: nat, size: nat)
    requires size == 1 || size == 2
    requires i == if d % size + 2 >= size then 0 else size - d % size - 2
    ensures ((d + i + 2) % 256) / size != d / size
  {
  }

  lemma OutsideSmall(d: Byte, i: nat, size: nat)
    requires size == 4 || size == 8
    requires i == if d % size + 2 >= size then 0 else size - d % size - 2
    ensures ((d + i + 2) % 256) / size != d / size
  {
  }

  lemma OutsideMedium(d: Byte, i: nat, size: nat)
    requires size == 16 || size == 32
    requires i == if d % size + 2 >= size then 0 else size - d % size - 2
    ensures ((d + i + 2) % 256) / size != d / size
  {
  }

  lemma OutsideLarge(d: Byte, i: nat, size: nat)
    requires size == 64 || size == 128
    requires i == if d % size + 2 >= size then 0 else size - d % size - 2
    ensures ((d + i + 2) % 256) / size != d / size
  {
  }

  // ---------- when a pod gets an address at all ----------

  /** The first interface that is not a standard one. */
  function NadInterface(interfaces: seq<string>): string {
    if interfaces == [] then ""
    else if interfaces[0] !in ["*", "eth0", "lo"] then interfaces[0]
    else NadInterface(interfaces[1..])
  }

  method FindNadInterface(interfaces: seq<string>) returns (r: string)
    ensures r == NadInterface(interfaces)
  {
    for i := 0 to |interfaces|
      invariant NadInterface(interfaces) == NadInterface(interfaces[i..])
    {
      assert interfaces[i..][1..] == interfaces[i + 1..];
      if interfaces[i] != "*" && interfaces[i] != "eth0" && interfaces[i] != "lo" {
        return interfaces[i];
      }
    }
    r := "";
  }

  /** The names of interfaces that need no address of their own. */
  const STANDARD: set<string> := {"*", "eth0", "lo"}

  /** The interface is the first that is not standard; there is none exactly if all are, or if it has an empty name. */
  lemma {:induction false} InterfaceExactly(interfaces: seq<string>)
    ensures var r := NadInterface(interfaces);
            if forall i | 0 <= i < |interfaces| :: interfaces[i] in STANDARD then r == ""
            else exists k ::
              && 0 <= k < |interfaces| && r == interfaces[k] && interfaces[k] !in STANDARD
              && forall i | 0 <= i < k :: interfaces[i] in STANDARD
  {
    if interfaces != [] && interfaces[0] in STANDARD {
      InterfaceExactly(interfaces[1..]);
      if k :| 0 <= k < |interfaces[1..]| && NadInterface(interfaces[1..]) == interfaces[1..][k] && interfaces[1..][k] !in STANDARD
              && forall i | 0 <= i < k :: interfaces[1..][i] in STANDARD
      {
        assert interfaces[k + 1] == interfaces[1..][k];
        assert forall i | 0 < i < k + 1 :: interfaces[i] == interfaces[1..][i - 1];
      }
      assert forall i | 0 <= i < |interfaces[1..]| :: interfaces[1..][i] == interfaces[i + 1];
    }
  }

  /** The block of the first subnet. */
  function NadSubnet(subnets: seq<Subnet4>): string { if subnets == [] then "" else subnets[0].subnet }

  predicate WordChar(c: char) { 'a' <= c <= 'z' || 'A' <= c <= 'Z' || IsDigit(c) || c in "._-" }

  /** A digit run of limited length. */
  predicate DigitRun(s: string, most: nat) { 1 <= |s| <= most && AllDigits(s) }

  /** Four runs of up to three digits and a prefix of up to two. */
  predicate SafeSubnet(s: string) {
    var (a, b, c, d) := Fields(Before(s, '/'));
    DigitRun(a, 3) && DigitRun(b, 3) && DigitRun(c, 3) && DigitRun(d, 3) && DigitRun(After(s, '/'), 2)
  }

  /** What may be put into a shell command; empty inputs pass. */
  predicate ValidNadInputs(iface: string, subnet: string, command: string) {
    && (forall c | c in iface :: WordChar(c))
    && (subnet != "" ==> SafeSubnet(subnet))
    && (forall c | c in command :: WordChar(c) || c == '/')
  }

  /** The guard in front of the address commands. */
  predicate NadGuard(iface: string, subnet: string, command: string) {
    iface != "" && subnet != "" && ValidNadInputs(iface, subnet, command)
  }

  function StatefulSetStart(iface: string, subnet: string, command: string, fixed: map<nat, string>, arms: seq<Arm>): Start {
    if !NadGuard(iface, subnet, command) then NoAddress
    else if fixed != map[] then FromCases(subnet, iface, arms)
    else FromSubnet(subnet, iface)
  }

  function DeploymentStart(iface: string, subnet: string, command: string): Start {
    if NadGuard(iface, subnet, command) then FromSubnet(subnet, iface) else NoAddress
  }

  function ArmsOf(start: Start): seq<Arm> { if start.FromCases? then start.arms else [] }

  /** The start command of a StatefulSet pod, with its arms in some order. */
  method BuildStart(iface: string, subnet: string, command: string, fixed: map<nat, string>) returns (start: Start)
    ensures start == StatefulSetStart(iface, subnet, command, fixed, ArmsOf(start))
    ensures start.FromCases? ==> EnumeratesArms(start.arms, fixed)
  {
    start := NoAddress;
    if NadGuard(iface, subnet, command) {
      if |fixed| > 0 {
        var arms := BuildArms(fixed);
        start := FromCases(subnet, iface, arms);
      } else {
        start := FromSubnet(subnet, iface);
      }
    }
  }

  /** A character without a meaning to the shell. */
  predicate Harmless(c: char) { 'a' <= c <= 'z' || 'A' <= c <= 'Z' || '0' <= c <= '9' || c in {'.', '_', '-', '/'} }

  predicate AllHarmless(s: string) { forall c | c in s :: Harmless(c) }

  /** Whatever the resource says: text that reaches the start command has no meaning to the shell. */
  lemma StartIsHarmless(iface: string, subnet: string, command: string, fixed: map<nat, string>, arms: seq<Arm>)
    ensures var start := StatefulSetStart(iface, subnet, command, fixed, arms);
            !start.NoAddress? ==> AllHarmless(start.iface) && AllHarmless(start.subnet) && AllHarmless(command)
    ensures var start := DeploymentStart(iface, subnet, command);
            !start.NoAddress? ==> AllHarmless(start.iface) && AllHarmless(start.subnet) && AllHarmless(command)
  {
    if NadGuard(iface, subnet, command) {
      SafeIsHarmless(subnet);
      forall c | c in iface + command ensures Harmless(c) {
        assert c in iface || c in command;
        WordHarmless(c);
      }
      assert forall c | c in iface || c in command :: c in iface + command;
    }
  }

  lemma WordHarmless(c: char)
    ensures WordChar(c) ==> Harmless(c)
  {
    assert "._-"[0] == '.' && "._-"[1] == '_' && "._-"[2] == '-';
  }

  lemma SafeIsHarmless(s: string)
    requires SafeSubnet(s)
    ensures AllHarmless(s)
  {
    var front := Before(s, '/');
    Pieces(s, '/');
    Pieces(front, '.');
    Pieces(After(front, '.'), '.');
    Pieces(After(After(front, '.'), '.'), '.');
  }

  /** Every character is before the first delimiter, is it, or comes after it. */
  lemma {:induction false} Pieces(s: string, d: char)
    ensures forall c | c in s :: c in Before(s, d) || c == d || c in After(s, d)
  {
    if s != "" && s[0] != d {
      Pieces(s[1..], d);
      assert Before(s, d) == [s[0]] + Before(s[1..], d);
    }
  }

  // ---------- what a pod does ----------

  /** A subnet as the API accepts it. */
  function Cidr(ip: Ip, prefix: nat): string { ip.Text() + "/" + Decimal(prefix) }

  /** The address computed by shell arithmetic, which does not wrap, with the prefix of the subnet. */
  function AutoAddress(subnet: string, ordinal: nat): string
    requires AllDigits(Fields(Before(subnet, '/')).3)
  {
    var (a, b, c, d) := Fields(Before(subnet, '/'));
    a + "." + b + "." + c + "." + Decimal(ParseDecimal(d) + ordinal + 2) + "/" + Before(After(subnet, '/'), '/')
  }

  /** The fields the shell sees are those of the written subnet. */
  lemma CidrFields(ip: Ip, prefix: nat)
    ensures var subnet := Cidr(ip, prefix);
            && Before(subnet, '/') == ip.Text()
            && Before(After(subnet, '/'), '/') == Decimal(prefix)
            && Fields(Before(subnet, '/')) == (Decimal(ip.a), Decimal(ip.b), Decimal(ip.c), Decimal(ip.d))
  {
    QuadFields(ip.a, ip.b, ip.c, ip.d);
    NotADigit(prefix);
    var base, digits := ip.Text(), Decimal(prefix);
    CutAt(base, '/', digits);
    NothingToCut(digits, '/');
    assert Cidr(ip, prefix) == base + ['/'] + digits;
  }

  lemma AutoAddressIs(ip: Ip, prefix: nat, ordinal: nat)
    ensures var subnet := Cidr(ip, prefix);
            && AllDigits(Fields(Before(subnet, '/')).3)
            && AutoAddress(subnet, ordinal) ==
               Unwrapped(ip, ordinal) + "/" + Decimal(prefix)
  {
    CidrFields(ip, prefix);
    DecimalRoundTrip(ip.d);
  }

  /** The addresses users fixed for peers. */
  function StaticAddresses(peers: seq<HAPeer>): map<nat, string> {
    map i: nat | i < |peers| && peers[i].address != "" :: peers[i].address
  }

  method BuildStaticAddresses(peers: seq<HAPeer>) returns (m: map<nat, string>)
    ensures m == StaticAddresses(peers)
  {
    m := map[];
    for i := 0 to |peers|
      invariant m == StaticAddresses(peers[..i])
    {
      if peers[i].address != "" {
        m := m[i := peers[i].address];
      }
    }
    assert peers[..|peers|] == peers;
  }

  /** A loop over a map produced one arm per entry, in some order; the pattern is the ordinal's text. */
  ghost predicate EnumeratesArms(arms: seq<Arm>, m: map<nat, string>) {
    && (forall i, j | 0 <= i < j < |arms| :: arms[i] != arms[j])
    && (forall arm | arm in arms :: exists i: nat :: i in m && arm == Arm(Decimal(i), m[i]))
    && (forall i: nat | i in m :: Arm(Decimal(i), m[i]) in arms)
  }

  /** The loop over the map of static addresses, which visits it in any order. */
  method BuildArms(m: map<nat, string>) returns (arms: seq<Arm>)
    ensures EnumeratesArms(arms, m)
  {
    arms := [];
    var left := m.Keys;
    while left != {}
      invariant left <= m.Keys && forall i, j | 0 <= i < j < |arms| :: arms[i] != arms[j]
      invariant forall arm | arm in arms :: exists i: nat :: i in m && i !in left && arm == Arm(Decimal(i), m[i])
      invariant forall i: nat | i in m && i !in left :: Arm(Decimal(i), m[i]) in arms
      decreases left
    {
      var i :| i in left;
      var next := Arm(Decimal(i), m[i]);
      forall k | 0 <= k < |arms| ensures arms[k] != next {
        assert arms[k] in arms;
        var j: nat :| j in m && j !in left && arms[k] == Arm(Decimal(j), m[j]);
        if Decimal(j) == Decimal(i) { DecimalInjective(j, i); }
      }
      arms := arms + [next];
      left := left - {i};
    }
  }

  /** There is an order of the arms. */
  ghost function SomeArms(m: map<nat, string>): (arms: seq<Arm>)
    ensures EnumeratesArms(arms, m) && |arms| == |m|
    decreases |m|
  {
    if m == map[] then []
    else
      var i: nat :| i in m;
      var rest := SomeArms(m - {i});
      MoreArms(m, i, rest);
      rest + [Arm(Decimal(i), m[i])]
  }

  lemma MoreArms(m: map<nat, string>, i: nat, rest: seq<Arm>)
    requires i in m && EnumeratesArms(rest, m - {i}) && |rest| == |m - {i}|
    ensures EnumeratesArms(rest + [Arm(Decimal(i), m[i])], m) && |rest| + 1 == |m|
  {
    NewArm(m, i, rest);
    DistinctWithNew(rest, Arm(Decimal(i), m[i]));
    ArmsOfMap(m, i, rest);
    ArmsComplete(m, i, rest);
    OneKeyLess(m, i);
  }

  lemma ArmsOfMap(m: map<nat, string>, i: nat, rest: seq<Arm>)
    requires i in m && EnumeratesArms(rest, m - {i})
    ensures forall arm | arm in rest + [Arm(Decimal(i), m[i])] :: exists j: nat :: j in m && arm == Arm(Decimal(j), m[j])
  {
    forall arm | arm in rest + [Arm(Decimal(i), m[i])]
      ensures exists j: nat :: j in m && arm == Arm(Decimal(j), m[j])
    {
      if arm in rest {
        var j: nat :| j in m - {i} && arm == Arm(Decimal(j), (m - {i})[j]);
        assert j in m && arm == Arm(Decimal(j), m[j]);
      }
    }
  }

  lemma ArmsComplete(m: map<nat, string>, i: nat, rest: seq<Arm>)
    requires i in m && EnumeratesArms(rest, m - {i})
    ensures forall j: nat | j in m :: Arm(Decimal(j), m[j]) in rest + [Arm(Decimal(i), m[i])]
  {
    forall j: nat | j in m ensures Arm(Decimal(j), m[j]) in rest + [Arm(Decimal(i), m[i])] {
      assert j != i ==> j in m - {i} && (m - {i})[j] == m[j];
    }
  }

  lemma OneKeyLess(m: map<nat, string>, i: nat)
    requires i in m
    ensures |m - {i}| + 1 == |m|
  {
    assert (m - {i}).Keys == m.Keys - {i};
    assert |m.Keys - {i}| == |m.Keys| - 1;
  }

  lemma NewArm(m: map<nat, string>, i: nat, rest: seq<Arm>)
    requires i in m && EnumeratesArms(rest, m - {i})
    ensures Arm(Decimal(i), m[i]) !in rest
  {
    forall arm | arm in rest ensures arm.pattern != Decimal(i) {
      var j: nat :| j in m - {i} && arm == Arm(Decimal(j), (m - {i})[j]);
      DifferentDecimals(i, j);
    }
  }

  lemma DifferentDecimals(i: nat, j: nat)
    ensures i != j ==> Decimal(i) != Decimal(j)
  {
    if Decimal(i) == Decimal(j) { DecimalInjective(i, j); }
  }

  lemma DistinctWithNew(arms: seq<Arm>, next: Arm)
    requires next !in arms && forall i, j | 0 <= i < j < |arms| :: arms[i] != arms[j]
    ensures forall i, j | 0 <= i < j < |arms + [next]| :: (arms + [next])[i] != (arms + [next])[j]
  {
  }

  /** The shell takes the first arm whose pattern is the word. */
  function FirstArm(arms: seq<Arm>, word: string): Option<string> {
    if arms == [] then None
    else if arms[0].pattern == word then Some(arms[0].address)
    else FirstArm(arms[1..], word)
  }

  /** Whatever order the arms are in, an ordinal finds its own address, or none. */
  lemma {:induction false} ArmOrderIrrelevant(arms: seq<Arm>, m: map<nat, string>, ordinal: nat)
    requires EnumeratesArms(arms, m)
    ensures FirstArm(arms, Decimal(ordinal)) == if ordinal in m then Some(m[ordinal]) else None
  {
    ArmsFind(arms, m, ordinal);
    if ordinal in m {
      FirstArmFinds(arms, Arm(Decimal(ordinal), m[ordinal]));
    }
  }

  lemma {:induction false} ArmsFind(arms: seq<Arm>, m: map<nat, string>, ordinal: nat)
    requires forall arm | arm in arms :: exists i: nat :: i in m && arm == Arm(Decimal(i), m[i])
    ensures var r := FirstArm(arms, Decimal(ordinal));
            r.Some? ==> ordinal in m && r.value == m[ordinal]
  {
    if arms != [] {
      if arms[0].pattern == Decimal(ordinal) {
        assert arms[0] in arms;
        var i: nat :| i in m && arms[0] == Arm(Decimal(i), m[i]);
        DecimalInjective(i, ordinal);
      } else {
        assert forall arm | arm in arms[1..] :: arm in arms;
        ArmsFind(arms[1..], m, ordinal);
      }
    }
  }

  lemma {:induction false} FirstArmFinds(arms: seq<Arm>, arm: Arm)
    requires arm in arms
    ensures FirstArm(arms, arm.pattern).Some?
  {
    if arms[0].pattern != arm.pattern {
      FirstArmFinds(arms[1..], arm);
    }
  }

  /** Shell text that starts are built from has passed the guard. */
  predicate GuardedStart(start: Start) { !start.NoAddress? ==> SafeSubnet(start.subnet) }

  /** The address, with prefix, that the start command of a StatefulSet pod adds to the interface, if any. */
  function PodAddress(start: Start, hostname: string): Option<string>
    requires GuardedStart(start) && AllDigits(AfterLastDash(hostname))
  {
    var ordinal := AfterLastDash(hostname);
    if start.NoAddress? then None
    else match FirstArm(ArmsOf(start), ordinal)
      case Some(address) => Some(address + "/" + Before(After(start.subnet, '/'), '/'))
      case None => Some(AutoAddress(start.subnet, ParseDecimal(ordinal)))
  }

  /**
   * The address a Deployment pod adds: every pod that of ordinal 0. Wrapped for the expansion of
   * secrets, the command line is joined without quotes and nothing behind its first words is run.
   */
  function DeploymentAddress(start: Start, wrapped: bool): Option<string>
    requires GuardedStart(start)
  {
    if start.NoAddress? || wrapped then None else Some(AutoAddress(start.subnet, 0))
  }

  /** The address without wrap-around; the last field may exceed a byte. */
  function Unwrapped(ip: Ip, ordinal: nat): string { H.Quad(ip.a, ip.b, ip.c, ip.d + ordinal + 2) }

  lemma OrdinalOfPod(sts: string, ordinal: nat)
    ensures AfterLastDash(PodName(sts, ordinal)) == Decimal(ordinal) && ParseDecimal(Decimal(ordinal)) == ordinal
  {
    assert '-' in Decimal(ordinal) ==> IsDigit('-');
    AfterLastDashOf(sts, Decimal(ordinal));
    DecimalRoundTrip(ordinal);
  }

  /** The subnets CIDR parsing accepts pass the guard. */
  lemma CidrIsSafe(ip: Ip, prefix: nat)
    ensures SafeSubnet(Cidr(ip, prefix)) <==> prefix < 100
  {
    CidrFields(ip, prefix);
    NotADigit(prefix);
    QuadFields(ip.a, ip.b, ip.c, ip.d);
    CutAt(ip.Text(), '/', Decimal(prefix));
    assert Cidr(ip, prefix) == ip.Text() + ['/'] + Decimal(prefix);
    ThreeDigits(ip.a);
    ThreeDigits(ip.b);
    ThreeDigits(ip.c);
    ThreeDigits(ip.d);
    TwoDigits(prefix);
  }

  lemma ThreeDigits(n: Byte)
    ensures |Decimal(n)| <= 3
  {
    if n >= 100 {
      assert |Decimal(n / 10 / 10)| == 1;
      assert |Decimal(n / 10)| == 2;
    } else if n >= 10 {
      assert |Decimal(n / 10)| == 1;
    }
  }

  lemma TwoDigits(n: nat)
    ensures |Decimal(n)| <= 2 <==> n < 100
  {
    if n >= 100 {
      assert |Decimal(n / 10)| == |Decimal(n / 10 / 10)| + 1;
      assert |Decimal(n)| == |Decimal(n / 10)| + 1;
    } else if n >= 10 {
      assert |Decimal(n / 10)| == 1;
    }
  }

  /** The start of a StatefulSet pod for one order of the static addresses. */
  ghost predicate IsStart(start: Start, iface: string, subnet: string, command: string, fixed: map<nat, string>) {
    && start == StatefulSetStart(iface, subnet, command, fixed, ArmsOf(start))
    && (start.FromCases? ==> EnumeratesArms(start.arms, fixed))
  }

  lemma PodAddressIs(ip: Ip, prefix: nat, start: Start, iface: string, command: string, m: map<nat, string>,
                     sts: string, ordinal: nat)
    requires IsStart(start, iface, Cidr(ip, prefix), command, m)
    ensures GuardedStart(start) && AllDigits(AfterLastDash(PodName(sts, ordinal)))
    ensures PodAddress(start, PodName(sts, ordinal)) ==
            if NadGuard(iface, Cidr(ip, prefix), command) then
              Some((if ordinal in m then m[ordinal] else Unwrapped(ip, ordinal)) + "/" + Decimal(prefix))
            else None
  {
    OrdinalOfPod(sts, ordinal);
    AutoAddressIs(ip, prefix, ordinal);
    CidrFields(ip, prefix);
    if start.FromCases? {
      ArmOrderIrrelevant(start.arms, m, ordinal);
    }
  }

  /**
   * The pod of ordinal `i` takes the address peer `i` was given, and if it was given none, the
   * address of the subnet with `i + 2` added to its last number; with the prefix of the subnet.
   */
  lemma PodTakesOwnAddress(ip: Ip, prefix: nat, start: Start, iface: string, command: string, peers: seq<HAPeer>,
                           sts: string, i: nat)
    requires IsStart(start, iface, Cidr(ip, prefix), command, StaticAddresses(peers)) && NadGuard(iface, Cidr(ip, prefix), command)
    ensures GuardedStart(start) && AllDigits(AfterLastDash(PodName(sts, i)))
    ensures PodAddress(start, PodName(sts, i)) ==
            Some((if i < |peers| && peers[i].address != "" then peers[i].address
                  else Decimal(ip.a) + "." + Decimal(ip.b) + "." + Decimal(ip.c) + "." + Decimal(ip.d + i + 2))
                 + "/" + Decimal(prefix))
  {
    PodAddressIs(ip, prefix, start, iface, command, StaticAddresses(peers), sts, i);
    OwnAddress(ip, peers, i);
  }

  lemma OwnAddress(ip: Ip, peers: seq<HAPeer>, i: nat)
    ensures (if i in StaticAddresses(peers) then StaticAddresses(peers)[i] else Unwrapped(ip, i))
            == if i < |peers| && peers[i].address != "" then peers[i].address
               else Decimal(ip.a) + "." + Decimal(ip.b) + "." + Decimal(ip.c) + "." + Decimal(ip.d + i + 2)
  {
  }

  /**
   * The pod of an ordinal has the reported address exactly when there is an interface and the
   * inputs pass the guard, no static address overrides the reported one with another, and
   * otherwise the last octet does not overflow: the report looks at none of this.
   */
  lemma ReportMatchesPod(ip: Ip, prefix: nat, start: Start, iface: string, command: string, m: map<nat, string>,
                         sts: string, ordinal: nat)
    requires IsStart(start, iface, Cidr(ip, prefix), command, m)
    ensures GuardedStart(start) && AllDigits(AfterLastDash(PodName(sts, ordinal)))
    ensures PodAddress(start, PodName(sts, ordinal)) == Some(Entry(ip, ordinal).Text() + "/" + Decimal(prefix))
            <==> && NadGuard(iface, Cidr(ip, prefix), command)
                 && if ordinal in m then m[ordinal] == Entry(ip, ordinal).Text() else ip.d + ordinal + 2 <= 255
  {
    PodAddressIs(ip, prefix, start, iface, command, m, sts, ordinal);
    Compare(ip, prefix, m, ordinal);
  }

  lemma Compare(ip: Ip, prefix: nat, m: map<nat, string>, ordinal: nat)
    ensures (if ordinal in m then m[ordinal] else Unwrapped(ip, ordinal)) + "/" + Decimal(prefix)
            == Entry(ip, ordinal).Text() + "/" + Decimal(prefix)
            <==> if ordinal in m then m[ordinal] == Entry(ip, ordinal).Text() else ip.d + ordinal + 2 <= 255
  {
    if ordinal in m {
      SlashCancels(m[ordinal], Entry(ip, ordinal).Text(), Decimal(prefix));
    } else {
      AutoIsEntry(ip, prefix, ordinal, ordinal);
    }
  }

  lemma SlashCancels(a: string, b: string, s: string)
    ensures a + "/" + s == b + "/" + s <==> a == b
  {
    assert a + "/" + s == a + ("/" + s) && b + "/" + s == b + ("/" + s);
    SuffixCancels(a, b, "/" + s);
  }

  /** The unwrapped address of one ordinal against the reported address of another. */
  lemma AutoIsEntry(ip: Ip, prefix: nat, ordinal: nat, i: nat)
    ensures Unwrapped(ip, ordinal) + "/" + Decimal(prefix) == Entry(ip, i).Text() + "/" + Decimal(prefix)
            <==> ip.d + ordinal + 2 == (ip.d + i + 2) % 256
  {
    SlashCancels(Unwrapped(ip, ordinal), Entry(ip, i).Text(), Decimal(prefix));
    if Unwrapped(ip, ordinal) == Entry(ip, i).Text() {
      QuadInjective(ip.a, ip.b, ip.c, ip.d + ordinal + 2, ip.a, ip.b, ip.c, Entry(ip, i).d);
    }
  }

  /**
   * Every pod of a Deployment takes the same address or none. It is reported as entry 0 exactly
   * when there is an interface, the inputs pass the guard, no secrets are expanded and the octet
   * does not overflow, and as no other of the first 256: those belong to no pod.
   */
  lemma DeploymentSharesOneAddress(ip: Ip, prefix: nat, iface: string, command: string, wrapped: bool, i: nat)
    ensures var start := DeploymentStart(iface, Cidr(ip, prefix), command);
            && GuardedStart(start)
            && (DeploymentAddress(start, wrapped) == Some(Entry(ip, i).Text() + "/" + Decimal(prefix))
                <==> NadGuard(iface, Cidr(ip, prefix), command) && !wrapped && ip.d + 2 <= 255 && i % 256 == 0)
  {
    AutoAddressIs(ip, prefix, 0);
    FirstIsEntry(ip, prefix, i);
  }

  lemma FirstIsEntry(ip: Ip, prefix: nat, i: nat)
    ensures Unwrapped(ip, 0) + "/" + Decimal(prefix) == Entry(ip, i).Text() + "/" + Decimal(prefix)
            <==> ip.d + 2 <= 255 && i % 256 == 0
  {
    AutoIsEntry(ip, prefix, 0, i);
    WrapsToSecond(ip.d, i);
  }

  lemma WrapsToSecond(d: Byte, i: nat)
    ensures d + 0 + 2 == (d + i + 2) % 256 <==> d + 2 <= 255 && i % 256 == 0
  {
  }
}
