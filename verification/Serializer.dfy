/**
 * A JSON text and the strings in it: what literal replacements in the text of a configuration do
 * to the configuration. The serializer is any that writes its string values between quotes.
 */
module Serializer {
  import opened Options
  import opened Json
  import opened Rewriting

  // ---------- the strings of a tree ----------

  datatype Branch = Field(key: Key) | Index(i: nat)

  type Path = seq<Branch>

  /** The string at the end of a path. */
  function At(j: Json, path: Path): Option<string> {
    if path == [] then if j.Str? then Some(j.s) else None
    else
      match path[0]
      case Field(k) => if j.Obj? && k in j.fields then At(j.fields[k], path[1..]) else None
      case Index(i) => if j.Arr? && i < |j.elems| then At(j.elems[i], path[1..]) else None
  }

  /** The same tree with every string value changed. */
  function MapLeaves(f: string -> string, j: Json): Json {
    match j
    case Str(s) => Str(f(s))
    case Arr(elems) => Arr(MapElems(f, elems))
    case Obj(fields) => Obj(map k | k in fields :: MapLeaves(f, fields[k]))
    case _ => j
  }

  function MapElems(f: string -> string, elems: seq<Json>): (r: seq<Json>)
    ensures |r| == |elems| && forall i | 0 <= i < |elems| :: r[i] == MapLeaves(f, elems[i])
  {
    seq(|elems|, i requires 0 <= i < |elems| => MapLeaves(f, elems[i]))
  }

  /** The shape of a tree: all its strings emptied. */
  function Blank(j: Json): Json { MapLeaves(s => "", j) }

  lemma {:induction false} AtMapped(f: string -> string, j: Json, path: Path)
    ensures At(MapLeaves(f, j), path) == match At(j, path) case None => None case Some(s) => Some(f(s))
    decreases |path|
  {
    if path != [] {
      match path[0]
      case Field(k) => if j.Obj? && k in j.fields { AtMapped(f, j.fields[k], path[1..]); }
      case Index(i) => if j.Arr? && i < |j.elems| { AtMapped(f, j.elems[i], path[1..]); }
    }
  }

  /** Changing strings does not change the shape. */
  lemma {:induction false} BlankMapped(f: string -> string, j: Json)
    ensures Blank(MapLeaves(f, j)) == Blank(j)
  {
    var g: string -> string := s => "";
    match j
    case Arr(elems) =>
      forall i | 0 <= i < |elems| ensures Blank(MapLeaves(f, elems[i])) == Blank(elems[i]) {
        BlankMapped(f, elems[i]);
      }
      assert MapElems(s => "", MapElems(f, elems)) == MapElems(s => "", elems);
    case Obj(fields) =>
      forall k | k in fields ensures Blank(MapLeaves(f, fields[k])) == Blank(fields[k]) {
        BlankMapped(f, fields[k]);
      }
    case _ =>
  }

  // ---------- serializers ----------

  /**
   * `layout` lists the string values of a shape in the order in which they are written, `frame`
   * is the text before, between and behind their quotes: field names, numbers, punctuation.
   */
  datatype Serializer = Serializer(layout: Json -> seq<Path>, frame: Json -> seq<string>, escape: string -> string)

  /** Every listed path leads to a string, and the texts around the strings fit. */
  ghost predicate Sound(ser: Serializer) {
    forall j ::
      var shape := Blank(j);
      |ser.frame(shape)| == |ser.layout(shape)| + 1 && forall p | p in ser.layout(shape) :: At(shape, p).Some?
  }

  /** Printable characters that JSON does not escape. */
  predicate PlainChar(c: char) { ' ' <= c <= '~' && c !in "\"\\<>&" }

  predicate Plain(s: string) { forall c | c in s :: PlainChar(c) }

  ghost predicate PlainEscape(ser: Serializer) { forall s | Plain(s) :: ser.escape(s) == s }

  function LeafTexts(ser: Serializer, j: Json, paths: seq<Path>): (r: seq<string>)
    ensures |r| == |paths|
    ensures forall i | 0 <= i < |paths| :: r[i] == ser.escape(if At(j, paths[i]).Some? then At(j, paths[i]).value else "")
  {
    seq(|paths|, i requires 0 <= i < |paths| => ser.escape(if At(j, paths[i]).Some? then At(j, paths[i]).value else ""))
  }

  function Weave(frame: seq<string>, leaves: seq<string>): string
    requires |frame| == |leaves| + 1
  {
    if leaves == [] then frame[0]
    else frame[0] + ['"'] + (leaves[0] + ['"'] + Weave(frame[1..], leaves[1..]))
  }

  /** The text of a tree. */
  function TextOfTree(ser: Serializer, j: Json): string {
    var frame, leaves := ser.frame(Blank(j)), LeafTexts(ser, j, ser.layout(Blank(j)));
    if |frame| == |leaves| + 1 then Weave(frame, leaves) else ""
  }

  // ---------- rewriting the text ----------

  function Rewriter(rules: seq<Rule>): string -> string
    requires WellFormed(rules)
  {
    s => Sequential(s, rules)
  }

  function RewriteAll(ss: seq<string>, rules: seq<Rule>): (r: seq<string>)
    requires WellFormed(rules)
    ensures |r| == |ss| && forall i | 0 <= i < |ss| :: r[i] == Sequential(ss[i], rules)
  {
    seq(|ss|, i requires 0 <= i < |ss| => Sequential(ss[i], rules))
  }

  ghost predicate NoQuotes(rules: seq<Rule>) { WellFormed(rules) && forall rule | rule in rules :: '"' !in rule.pattern }

  /** Replacements without quotes rewrite a text between quotes piece by piece. */
  lemma {:induction false} WeaveRewritten(frame: seq<string>, leaves: seq<string>, rules: seq<Rule>)
    requires NoQuotes(rules) && |frame| == |leaves| + 1
    ensures Sequential(Weave(frame, leaves), rules) == Weave(RewriteAll(frame, rules), RewriteAll(leaves, rules))
  {
    if leaves != [] {
      var rest := Weave(frame[1..], leaves[1..]);
      WeaveRewritten(frame[1..], leaves[1..], rules);
      SequentialAcross(frame[0], '"', leaves[0] + ['"'] + rest, rules);
      SequentialAcross(leaves[0], '"', rest, rules);
      assert RewriteAll(frame, rules)[1..] == RewriteAll(frame[1..], rules);
      assert RewriteAll(leaves, rules)[1..] == RewriteAll(leaves[1..], rules);
    }
  }

  /** The text around the strings contains nothing the rules replace. */
  ghost predicate FrameUntouched(ser: Serializer, j: Json, rules: seq<Rule>)
    requires WellFormed(rules)
  {
    forall part | part in ser.frame(Blank(j)) :: Sequential(part, rules) == part
  }

  /** Escaping and rewriting commute on every string of the tree. */
  ghost predicate EscapeCommutes(ser: Serializer, j: Json, rules: seq<Rule>)
    requires WellFormed(rules)
  {
    forall p | p in ser.layout(Blank(j)) && At(j, p).Some? ::
      Sequential(ser.escape(At(j, p).value), rules) == ser.escape(Sequential(At(j, p).value, rules))
  }

  /** Rewriting the text of a tree is writing the tree with every string rewritten. */
  lemma TextRewritten(ser: Serializer, j: Json, rules: seq<Rule>)
    requires Sound(ser) && NoQuotes(rules) && FrameUntouched(ser, j, rules) && EscapeCommutes(ser, j, rules)
    ensures Sequential(TextOfTree(ser, j), rules) == TextOfTree(ser, MapLeaves(Rewriter(rules), j))
  {
    var f := Rewriter(rules);
    var shape := Blank(j);
    var frame, paths := ser.frame(shape), ser.layout(shape);
    BlankMapped(f, j);
    WeaveRewritten(frame, LeafTexts(ser, j, paths), rules);
    assert RewriteAll(frame, rules) == frame;
    var before, after := LeafTexts(ser, j, paths), LeafTexts(ser, MapLeaves(f, j), paths);
    forall i | 0 <= i < |paths| ensures Sequential(before[i], rules) == after[i] {
      AtMapped(f, j, paths[i]);
      assert paths[i] in paths && At(shape, paths[i]).Some?;
      AtMapped(s => "", j, paths[i]);
    }
    assert RewriteAll(before, rules) == after;
  }

  // ---------- when escaping and rewriting commute ----------

  lemma {:induction false} CharsOfReplaceAll(t: string, p: string, r: string)
    requires p != ""
    ensures forall c | c in ReplaceAll(t, p, r) :: c in t || c in r
    decreases |t|
  {
    if t != "" {
      if p <= t {
        CharsOfReplaceAll(t[|p|..], p, r);
      } else {
        CharsOfReplaceAll(t[1..], p, r);
      }
    }
  }

  lemma {:induction false} StaysPlain(s: string, rules: seq<Rule>)
    requires WellFormed(rules) && Plain(s) && forall rule | rule in rules :: Plain(rule.replacement)
    ensures Plain(Sequential(s, rules))
  {
    if rules != [] {
      var last := rules[|rules| - 1];
      assert last in rules;
      StaysPlain(s, rules[..|rules| - 1]);
      CharsOfReplaceAll(Sequential(s, rules[..|rules| - 1]), last.pattern, last.replacement);
    }
  }

  /** With plain strings and plain replacements they do. */
  lemma PlainCommutes(ser: Serializer, j: Json, rules: seq<Rule>)
    requires PlainEscape(ser) && WellFormed(rules) && forall rule | rule in rules :: Plain(rule.replacement)
    requires forall p | p in ser.layout(Blank(j)) && At(j, p).Some? :: Plain(At(j, p).value)
    ensures EscapeCommutes(ser, j, rules)
  {
    forall p | p in ser.layout(Blank(j)) && At(j, p).Some?
      ensures Sequential(ser.escape(At(j, p).value), rules) == ser.escape(Sequential(At(j, p).value, rules))
    {
      StaysPlain(At(j, p).value, rules);
    }
  }

  // ---------- looking into a rewritten tree ----------

  function MapField(f: string -> string, v: Option<Json>): Option<Json> {
    match v case None => None case Some(j) => Some(MapLeaves(f, j))
  }

  lemma MappedLookup(f: string -> string, m: Fields, k: Key)
    ensures Lookup(FieldsOf(Some(MapLeaves(f, Obj(m)))), k) == MapField(f, Lookup(m, k))
  {
  }

  lemma MappedElems(f: string -> string, v: Option<Json>)
    ensures ElemsOf(MapField(f, v)) == MapElems(f, ElemsOf(v))
  {
  }

  lemma MappedFields(f: string -> string, v: Option<Json>, k: Key)
    ensures Lookup(FieldsOf(MapField(f, v)), k) == MapField(f, Lookup(FieldsOf(v), k))
  {
  }
}
