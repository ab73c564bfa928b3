/**
 * Secret expansion on the Deployment path (buildSecretEnvSubstCommand of deployment.go): the
 * commands edit the files whose names match `*.json`, and no configuration file does.
 */
module DeploymentExpansion {
  import opened Options
  import opened Names
  import opened Rewriting
  import opened Builders

  /** The files of the configuration directory. */
  type Directory = map<string, string>

  /** What the shell pattern `*.json` matches; it leaves out hidden files. */
  predicate Matched(name: string) {
    |name| >= 5 && name[|name| - 5..] == ".json" && name[0] != '.'
  }

  /** One command edits all matching files in place. */
  function EditAll(dir: Directory, rule: Rule): Directory
    requires rule.pattern != ""
  {
    map f | f in dir :: if Matched(f) then ReplaceAll(dir[f], rule.pattern, rule.replacement) else dir[f]
  }

  /** The commands one after the other. */
  function ExpandAll(dir: Directory, rules: seq<Rule>): (r: Directory)
    requires WellFormed(rules)
    ensures r.Keys == dir.Keys
  {
    if rules == [] then dir else EditAll(ExpandAll(dir, rules[..|rules| - 1]), rules[|rules| - 1])
  }

  /** Exactly the matching files are rewritten, each by all commands. */
  lemma {:induction false} ExpandedExactly(dir: Directory, rules: seq<Rule>, file: string)
    requires WellFormed(rules) && file in dir
    ensures ExpandAll(dir, rules)[file] == if Matched(file) then Sequential(dir[file], rules) else dir[file]
  {
    if rules != [] {
      ExpandedExactly(dir, rules[..|rules| - 1], file);
    }
  }

  /** A text with something to expand is expanded if and only if its file matches. */
  lemma ExpandedIffMatched(dir: Directory, rules: seq<Rule>, file: string)
    requires WellFormed(rules) && file in dir && Sequential(dir[file], rules) != dir[file]
    ensures ExpandAll(dir, rules)[file] == Sequential(dir[file], rules) <==> Matched(file)
  {
    ExpandedExactly(dir, rules, file);
  }

  /** No component's configuration is ever expanded: their names end in `.conf`. */
  lemma NoConfigurationExpanded(c: Component, config: string, rules: seq<Rule>)
    requires WellFormed(rules)
    ensures ExpandAll(map[ConfigFileName(c) := config], rules)[ConfigFileName(c)] == config
  {
    var file := ConfigFileName(c);
    LastOfMatched(file);
    ExpandedExactly(map[file := config], rules, file);
  }

  lemma LastOfMatched(name: string)
    ensures Matched(name) ==> name[|name| - 1] == 'n'
  {
    if Matched(name) {
      assert name[|name| - 1] == name[|name| - 5..][4];
    }
  }
}
