/** The line-oriented fact extractor (src/simple_parser.rs). Every language
    has four ordered lists of patterns; a file is scanned line by line and
    every pattern that matches a line contributes at most one fact. The
    regular-expression engine is a parameter: a `Matcher` returns the
    capture groups of a rule's leftmost match in a line. */
module SimpleParser {
  import opened Wrappers
  import Text
  import Seqs
  import opened FileDiscovery

  /** `Import`. */
  datatype Import = Import(moduleName: string, items: seq<string>, isDefault: bool, lineNumber: nat)

  /** `Export`. */
  datatype Export = Export(name: string, isDefault: bool, lineNumber: nat)

  /** `Function`. */
  datatype Function = Function(
    name: string, parameters: seq<string>, returnType: Option<string>, lineNumber: nat, isAsync: bool)

  /** `Class`. */
  datatype Class = Class(
    name: string, baseClass: Option<string>, implements: seq<string>, methods: seq<Function>, lineNumber: nat)

  /** `ParsedFile`: a file and the facts found in it. */
  datatype ParsedFile = ParsedFile(
    fileInfo: FileInfo, imports: seq<Import>, exports: seq<Export>, functions: seq<Function>, classes: seq<Class>)

  /** A compiled pattern: its text and its number of capture groups. */
  datatype Rule = Rule(pattern: string, groups: nat)

  /** The groups of a match. Index 0 is the whole match; a group that did not
      take part in the match is `None`. */
  type Captures = seq<Option<string>>

  /** The regular-expression engine: the captures of a rule's match in a line. */
  type Matcher = (Rule, string) -> Option<Captures>

  /** `LanguagePatterns`: the four rule lists of one language. */
  datatype LanguagePatterns = LanguagePatterns(
    importPatterns: seq<Rule>, exportPatterns: seq<Rule>, functionPatterns: seq<Rule>, classPatterns: seq<Rule>)

  const JavaScriptPatterns := LanguagePatterns(
    [ Rule(@"import\s+.*?\s+from\s+['""]([^'""]+)['""]", 1),
      Rule(@"import\s+['""]([^'""]+)['""]", 1),
      Rule(@"const\s+.*?\s*=\s*require\s*\(\s*['""]([^'""]+)['""]", 1) ],
    [ Rule(@"export\s+(function|class|const|let|var)\s+(\w+)", 2),
      Rule(@"export\s+default\s+(\w+)", 1),
      Rule(@"export\s*\{\s*([^}]+)\s*\}", 1) ],
    [ Rule(@"function\s+(\w+)\s*\(([^)]*)\)", 2),
      Rule(@"(\w+)\s*:\s*function\s*\(([^)]*)\)", 2),
      Rule(@"(\w+)\s*=>\s*", 1),
      Rule(@"(async\s+)?function\s+(\w+)", 2) ],
    [ Rule(@"class\s+(\w+)(?:\s+extends\s+(\w+))?", 2) ])

  const PythonPatterns := LanguagePatterns(
    [ Rule(@"from\s+([^\s]+)\s+import", 1),
      Rule(@"import\s+([^\s,]+)", 1) ],
    [ Rule(@"__all__\s*=\s*\[([^\]]+)\]", 1) ],
    [ Rule(@"def\s+(\w+)\s*\(([^)]*)\)", 2),
      Rule(@"async\s+def\s+(\w+)\s*\(([^)]*)\)", 2) ],
    [ Rule(@"class\s+(\w+)(?:\(([^)]+)\))?", 2) ])

  const RustPatterns := LanguagePatterns(
    [ Rule(@"use\s+([^;]+);", 1),
      Rule(@"extern\s+crate\s+(\w+)", 1) ],
    [ Rule(@"pub\s+(fn|struct|enum|trait|mod)\s+(\w+)", 2) ],
    [ Rule(@"fn\s+(\w+)\s*\(([^)]*)\)", 2),
      Rule(@"pub\s+fn\s+(\w+)\s*\(([^)]*)\)", 2),
      Rule(@"async\s+fn\s+(\w+)", 1) ],
    [ Rule(@"struct\s+(\w+)", 1),
      Rule(@"enum\s+(\w+)", 1),
      Rule(@"trait\s+(\w+)", 1) ])

  /** The import patterns tried for a language without rules of its own. */
  const FallbackImportPatterns := [
    Rule(@"import.*['""]([^'""]+)['""]", 1),
    Rule(@"#include\s*[<""]([^>""]+)[>""]", 1),
    Rule(@"require\s*\(['""]([^'""]+)['""]\)", 1) ]

  /** The function patterns tried for a language without rules of its own. */
  const FallbackFunctionPatterns := [
    Rule(@"(function|def|fn)\s+(\w+)", 2),
    Rule(@"(\w+)\s*\(", 1) ]

  /** `captures.get(i)`: the group, or `None` past the end. */
  function Group(caps: Captures, i: int): (r: Option<string>)
    ensures r.Some? ==> 0 <= i < |caps| && caps[i] == r
  {
    if 0 <= i < |caps| then caps[i] else None
  }

  /** What a match contributes on the line numbered `n` (1-based), if anything. */
  type Extractor<F> = (Captures, string, nat) -> Option<F>

  /** The facts one rule yields on one line: at most one. */
  function RuleFact<F>(line: string, n: nat, rule: Rule, matcher: Matcher, extract: Extractor<F>): seq<F> {
    match matcher(rule, line)
    case None => []
    case Some(caps) =>
      match extract(caps, line, n)
      case None => []
      case Some(f) => [f]
  }

  /** The facts of one line: the rules in order. */
  function LineFacts<F>(line: string, n: nat, rules: seq<Rule>, matcher: Matcher, extract: Extractor<F>): seq<F> {
    if |rules| == 0 then []
    else
      LineFacts(line, n, rules[..|rules| - 1], matcher, extract)
      + RuleFact(line, n, rules[|rules| - 1], matcher, extract)
  }

  /** The facts of a text's lines, line by line, numbering lines from 1. */
  function Facts<F>(lines: seq<string>, rules: seq<Rule>, matcher: Matcher, extract: Extractor<F>): seq<F> {
    if |lines| == 0 then []
    else
      Facts(lines[..|lines| - 1], rules, matcher, extract)
      + LineFacts(lines[|lines| - 1], |lines|, rules, matcher, extract)
  }

  /** Rule `j` matches line `n` (numbered from 1). */
  ghost predicate Matched(lines: seq<string>, rules: seq<Rule>, matcher: Matcher, n: int, j: int) {
    1 <= n <= |lines| && 0 <= j < |rules| && matcher(rules[j], lines[n - 1]).Some?
  }

  /** The captures of rule `j` on line `n`. */
  ghost function CapturesOf(lines: seq<string>, rules: seq<Rule>, matcher: Matcher, n: int, j: int): Captures
    requires Matched(lines, rules, matcher, n, j)
  {
    matcher(rules[j], lines[n - 1]).value
  }

  /** `f` is what rule `j` yields on line `n`. */
  ghost predicate Yields<F>(lines: seq<string>, rules: seq<Rule>, matcher: Matcher, extract: Extractor<F>, f: F, n: int, j: int) {
    && Matched(lines, rules, matcher, n, j)
    && extract(CapturesOf(lines, rules, matcher, n, j), lines[n - 1], n) == Some(f)
  }

  /** Every fact comes from a rule that matched one of the lines. */
  lemma {:induction false} FactsProvenance<F>(lines: seq<string>, rules: seq<Rule>, matcher: Matcher, extract: Extractor<F>, k: int)
    requires 0 <= k < |Facts(lines, rules, matcher, extract)|
    ensures exists n, j :: Yields(lines, rules, matcher, extract, Facts(lines, rules, matcher, extract)[k], n, j)
  {
    var init := lines[..|lines| - 1];
    var before := Facts(init, rules, matcher, extract);
    var f := Facts(lines, rules, matcher, extract)[k];
    if k < |before| {
      FactsProvenance(init, rules, matcher, extract, k);
      var n, j :| Yields(init, rules, matcher, extract, before[k], n, j);
      assert Yields(lines, rules, matcher, extract, f, n, j);
    } else {
      var j := LineFactsProvenance(lines[|lines| - 1], |lines|, rules, matcher, extract, k - |before|);
      assert Yields(lines, rules, matcher, extract, f, |lines|, j);
    }
  }

  /** Every fact of a line comes from a rule that matched it. */
  lemma {:induction false} LineFactsProvenance<F>(line: string, n: nat, rules: seq<Rule>, matcher: Matcher, extract: Extractor<F>, k: int)
    returns (j: int)
    requires 0 <= k < |LineFacts(line, n, rules, matcher, extract)|
    ensures 0 <= j < |rules| && matcher(rules[j], line).Some?
    ensures extract(matcher(rules[j], line).value, line, n) == Some(LineFacts(line, n, rules, matcher, extract)[k])
  {
    var init := rules[..|rules| - 1];
    var before := LineFacts(line, n, init, matcher, extract);
    if k < |before| {
      j := LineFactsProvenance(line, n, init, matcher, extract, k);
    } else {
      j := |rules| - 1;
    }
  }

  /** Facts come in line order, and every line number is that of a line of
      the text, provided the extractor stamps the line number it is given. */
  lemma {:induction false} FactsInLineOrder<F>(
    lines: seq<string>, rules: seq<Rule>, matcher: Matcher, extract: Extractor<F>, lineOf: F -> nat)
    requires forall caps, line, n :: extract(caps, line, n).Some? ==> lineOf(extract(caps, line, n).value) == n
    ensures forall k :: 0 <= k < |Facts(lines, rules, matcher, extract)| ==>
      1 <= lineOf(Facts(lines, rules, matcher, extract)[k]) <= |lines|
    ensures forall i, k :: 0 <= i < k < |Facts(lines, rules, matcher, extract)| ==>
      lineOf(Facts(lines, rules, matcher, extract)[i]) <= lineOf(Facts(lines, rules, matcher, extract)[k])
  {
    if |lines| > 0 {
      var init := lines[..|lines| - 1];
      var before := Facts(init, rules, matcher, extract);
      var last := LineFacts(lines[|lines| - 1], |lines|, rules, matcher, extract);
      var r := Facts(lines, rules, matcher, extract);
      assert r == before + last;
      FactsInLineOrder(init, rules, matcher, extract, lineOf);
      forall k | 0 <= k < |last| ensures lineOf(last[k]) == |lines| {
        var j := LineFactsProvenance(lines[|lines| - 1], |lines|, rules, matcher, extract, k);
        var caps := matcher(rules[j], lines[|lines| - 1]).value;
        assert extract(caps, lines[|lines| - 1], |lines|) == Some(last[k]);
      }
      forall i, k | 0 <= i < k < |r| ensures lineOf(r[i]) <= lineOf(r[k]) {
        if k < |before| {
          assert r[i] == before[i] && r[k] == before[k];
        } else if i < |before| {
          assert r[i] == before[i] && r[k] == last[k - |before|];
        } else {
          assert r[i] == last[i - |before|] && r[k] == last[k - |before|];
        }
      }
      forall k | 0 <= k < |r| ensures 1 <= lineOf(r[k]) <= |lines| {
        if k < |before| {
          assert r[k] == before[k];
        } else {
          assert r[k] == last[k - |before|];
        }
      }
    }
  }

  /** Adding a line adds that line's facts at the end. */
  lemma FactsSnoc<F>(lines: seq<string>, i: int, rules: seq<Rule>, matcher: Matcher, extract: Extractor<F>)
    requires 0 <= i < |lines|
    ensures Facts(lines[..i + 1], rules, matcher, extract)
      == Facts(lines[..i], rules, matcher, extract) + LineFacts(lines[i], i + 1, rules, matcher, extract)
  {
    assert lines[..i + 1][..i] == lines[..i];
  }

  /** One more line appends that line's facts to what the earlier lines gave. */
  lemma ScanStep<F>(lines: seq<string>, i: int, rules: seq<Rule>, matcher: Matcher, extract: Extractor<F>, acc: seq<F>)
    requires 0 <= i < |lines|
    ensures acc + Facts(lines[..i + 1], rules, matcher, extract)
      == (acc + Facts(lines[..i], rules, matcher, extract)) + LineFacts(lines[i], i + 1, rules, matcher, extract)
  {
    FactsSnoc(lines, i, rules, matcher, extract);
    var a, b := Facts(lines[..i], rules, matcher, extract), LineFacts(lines[i], i + 1, rules, matcher, extract);
    assert acc + (a + b) == (acc + a) + b;
  }

  /** The rules that match `line`. */
  function Matching(line: string, rules: seq<Rule>, matcher: Matcher): seq<Rule> {
    Seqs.Filter(rules, (rule: Rule) => matcher(rule, line).Some?)
  }

  /** No deduplication: with an extractor that always yields, a line matched
      by k rules gives exactly k facts. */
  lemma {:induction false} LineFactsCount<F>(line: string, n: nat, rules: seq<Rule>, matcher: Matcher, extract: Extractor<F>)
    requires forall caps, l, m :: extract(caps, l, m).Some?
    ensures |LineFacts(line, n, rules, matcher, extract)| == |Matching(line, rules, matcher)|
  {
    if |rules| > 0 {
      var init := rules[..|rules| - 1];
      var last := rules[|rules| - 1];
      LineFactsCount(line, n, init, matcher, extract);
      assert rules == init + [last];
      Seqs.FilterAppend(init, [last], (rule: Rule) => matcher(rule, line).Some?);
    }
  }

  /** The fact an import rule yields: the module is group 1. */
  function ImportFrom(caps: Captures, line: string, n: nat): Option<Import> {
    match Group(caps, 1)
    case Some(m) => Some(Import(m, [], false, n))
    case None => None
  }

  /** The fact an export rule yields: the name is the last group. */
  function ExportFrom(caps: Captures, line: string, n: nat): Option<Export> {
    match Group(caps, |caps| - 1)
    case Some(name) => Some(Export(name, Text.Contains(line, "default"), n))
    case None => None
  }

  /** The fact a function rule yields. With more than two captures (group 0
      included) the name is group 2 and the parameters the last group;
      otherwise the name is group 1 and the parameters group 2. */
  function FunctionFrom(caps: Captures, line: string, n: nat): Option<Function> {
    var name := (if |caps| > 2 then Group(caps, 2) else Group(caps, 1)).GetOr("unknown");
    var params := if |caps| > 2 then Group(caps, |caps| - 1) else Group(caps, 2);
    var parameters := match params case Some(p) => ParseParameters(p) case None => [];
    Some(Function(name, parameters, None, n, Text.Contains(line, "async")))
  }

  /** The fact a class rule yields: name from group 1, base from group 2. */
  function ClassFrom(caps: Captures, line: string, n: nat): Option<Class> {
    match Group(caps, 1)
    case Some(name) => Some(Class(name, Group(caps, 2), [], [], n))
    case None => None
  }

  /** The fact a fallback function rule yields: group 2, else group 1. */
  function BasicFunctionFrom(caps: Captures, line: string, n: nat): Option<Function> {
    match (if Group(caps, 2).Some? then Group(caps, 2) else Group(caps, 1))
    case Some(name) => Some(Function(name, [], None, n, Text.Contains(line, "async")))
    case None => None
  }

  /** Every import fact: group 1 of a matching import rule on the line it
      names, with no items and not a default import. */
  lemma ImportsShape(lines: seq<string>, rules: seq<Rule>, matcher: Matcher)
    ensures forall k :: 0 <= k < |Facts(lines, rules, matcher, ImportFrom)| ==>
      var f := Facts(lines, rules, matcher, ImportFrom)[k];
      && f.items == [] && !f.isDefault
      && exists j :: Matched(lines, rules, matcher, f.lineNumber, j)
                     && Group(CapturesOf(lines, rules, matcher, f.lineNumber, j), 1) == Some(f.moduleName)
  {
    var r := Facts(lines, rules, matcher, ImportFrom);
    forall k | 0 <= k < |r|
      ensures r[k].items == [] && !r[k].isDefault
      ensures exists j :: Matched(lines, rules, matcher, r[k].lineNumber, j)
                          && Group(CapturesOf(lines, rules, matcher, r[k].lineNumber, j), 1) == Some(r[k].moduleName)
    {
      FactsProvenance(lines, rules, matcher, ImportFrom, k);
      var n, j :| Yields(lines, rules, matcher, ImportFrom, r[k], n, j);
      assert r[k].lineNumber == n;
    }
  }

  /** Every export fact: the last group of a matching export rule on its line,
      a default export exactly when that line contains "default". */
  lemma ExportsShape(lines: seq<string>, rules: seq<Rule>, matcher: Matcher)
    ensures forall k :: 0 <= k < |Facts(lines, rules, matcher, ExportFrom)| ==>
      var f := Facts(lines, rules, matcher, ExportFrom)[k];
      && 1 <= f.lineNumber <= |lines|
      && (f.isDefault <==> Text.Contains(lines[f.lineNumber - 1], "default"))
      && exists j :: Matched(lines, rules, matcher, f.lineNumber, j)
                     && var caps := CapturesOf(lines, rules, matcher, f.lineNumber, j);
                        Group(caps, |caps| - 1) == Some(f.name)
  {
    var r := Facts(lines, rules, matcher, ExportFrom);
    forall k | 0 <= k < |r|
      ensures 1 <= r[k].lineNumber <= |lines|
      ensures r[k].isDefault <==> Text.Contains(lines[r[k].lineNumber - 1], "default")
      ensures exists j :: Matched(lines, rules, matcher, r[k].lineNumber, j)
                          && var caps := CapturesOf(lines, rules, matcher, r[k].lineNumber, j);
                             Group(caps, |caps| - 1) == Some(r[k].name)
    {
      FactsProvenance(lines, rules, matcher, ExportFrom, k);
      var n, j :| Yields(lines, rules, matcher, ExportFrom, r[k], n, j);
      assert r[k].lineNumber == n;
    }
  }

  /** Every function fact is what `FunctionFrom` makes of a matching function
      rule on its line: asynchronous exactly when the line contains "async"
      (whichever rule matched), and without a return type. */
  lemma FunctionsShape(lines: seq<string>, rules: seq<Rule>, matcher: Matcher)
    ensures forall k :: 0 <= k < |Facts(lines, rules, matcher, FunctionFrom)| ==>
      var f := Facts(lines, rules, matcher, FunctionFrom)[k];
      && 1 <= f.lineNumber <= |lines|
      && (f.isAsync <==> Text.Contains(lines[f.lineNumber - 1], "async"))
      && f.returnType.None?
      && exists j :: Matched(lines, rules, matcher, f.lineNumber, j)
                     && FunctionFrom(CapturesOf(lines, rules, matcher, f.lineNumber, j), lines[f.lineNumber - 1], f.lineNumber) == Some(f)
  {
    var r := Facts(lines, rules, matcher, FunctionFrom);
    forall k | 0 <= k < |r|
      ensures 1 <= r[k].lineNumber <= |lines|
      ensures r[k].isAsync <==> Text.Contains(lines[r[k].lineNumber - 1], "async")
      ensures r[k].returnType.None?
      ensures exists j :: Matched(lines, rules, matcher, r[k].lineNumber, j)
                          && FunctionFrom(CapturesOf(lines, rules, matcher, r[k].lineNumber, j), lines[r[k].lineNumber - 1], r[k].lineNumber) == Some(r[k])
    {
      FactsProvenance(lines, rules, matcher, FunctionFrom, k);
      var n, j :| Yields(lines, rules, matcher, FunctionFrom, r[k], n, j);
      FunctionFact(lines, rules, matcher, r[k], n, j);
    }
  }

  /** What `FunctionFrom` puts in the fact it makes of line `n`. */
  lemma FunctionFact(lines: seq<string>, rules: seq<Rule>, matcher: Matcher, f: Function, n: int, j: int)
    requires Yields(lines, rules, matcher, FunctionFrom, f, n, j)
    ensures f.lineNumber == n && f.returnType.None?
    ensures f.isAsync <==> Text.Contains(lines[n - 1], "async")
  {}

  /** Every class fact: group 1 of a matching class rule on its line, based on
      group 2 when that group took part, with no interfaces and no methods. */
  lemma ClassesShape(lines: seq<string>, rules: seq<Rule>, matcher: Matcher)
    ensures forall k :: 0 <= k < |Facts(lines, rules, matcher, ClassFrom)| ==>
      var c := Facts(lines, rules, matcher, ClassFrom)[k];
      && c.implements == [] && c.methods == []
      && exists j :: Matched(lines, rules, matcher, c.lineNumber, j)
                     && var caps := CapturesOf(lines, rules, matcher, c.lineNumber, j);
                        Group(caps, 1) == Some(c.name) && c.baseClass == Group(caps, 2)
  {
    var r := Facts(lines, rules, matcher, ClassFrom);
    forall k | 0 <= k < |r|
      ensures r[k].implements == [] && r[k].methods == []
      ensures exists j :: Matched(lines, rules, matcher, r[k].lineNumber, j)
                          && var caps := CapturesOf(lines, rules, matcher, r[k].lineNumber, j);
                             Group(caps, 1) == Some(r[k].name) && r[k].baseClass == Group(caps, 2)
    {
      FactsProvenance(lines, rules, matcher, ClassFrom, k);
      var n, j :| Yields(lines, rules, matcher, ClassFrom, r[k], n, j);
      assert r[k].lineNumber == n;
    }
  }

  /** Every fallback function fact: group 2 of a matching rule, else group 1,
      with no parameters; asynchronous exactly when its line contains "async". */
  lemma BasicFunctionsShape(lines: seq<string>, rules: seq<Rule>, matcher: Matcher)
    ensures forall k :: 0 <= k < |Facts(lines, rules, matcher, BasicFunctionFrom)| ==>
      var f := Facts(lines, rules, matcher, BasicFunctionFrom)[k];
      && 1 <= f.lineNumber <= |lines|
      && f.parameters == [] && f.returnType.None?
      && (f.isAsync <==> Text.Contains(lines[f.lineNumber - 1], "async"))
      && exists j :: Matched(lines, rules, matcher, f.lineNumber, j)
                     && var caps := CapturesOf(lines, rules, matcher, f.lineNumber, j);
                        Some(f.name) == (if Group(caps, 2).Some? then Group(caps, 2) else Group(caps, 1))
  {
    var r := Facts(lines, rules, matcher, BasicFunctionFrom);
    forall k | 0 <= k < |r|
      ensures 1 <= r[k].lineNumber <= |lines|
      ensures r[k].parameters == [] && r[k].returnType.None?
      ensures r[k].isAsync <==> Text.Contains(lines[r[k].lineNumber - 1], "async")
      ensures exists j :: Matched(lines, rules, matcher, r[k].lineNumber, j)
                          && var caps := CapturesOf(lines, rules, matcher, r[k].lineNumber, j);
                             Some(r[k].name) == (if Group(caps, 2).Some? then Group(caps, 2) else Group(caps, 1))
    {
      FactsProvenance(lines, rules, matcher, BasicFunctionFrom, k);
      var n, j :| Yields(lines, rules, matcher, BasicFunctionFrom, r[k], n, j);
      assert r[k].lineNumber == n;
    }
  }

  /** A capture vector of three entries (two groups) makes the name the text
      of group 2, the same text the parameters are parsed from: with
      `def\s+(\w+)\s*\(([^)]*)\)` the name is the parameter list. */
  lemma TwoGroupNameIsParameterText(caps: Captures, line: string, n: nat, p: string)
    requires |caps| == 3 && caps[2] == Some(p)
    ensures FunctionFrom(caps, line, n).value.name == p
    ensures FunctionFrom(caps, line, n).value.parameters == ParseParameters(p)
  {
  }

  /** A capture vector of two entries (one group) names the function by
      group 1, or "unknown" when it did not take part, with no parameters. */
  lemma OneGroupFunction(caps: Captures, line: string, n: nat)
    requires |caps| == 2
    ensures FunctionFrom(caps, line, n).value.name == (if caps[1].Some? then caps[1].value else "unknown")
    ensures FunctionFrom(caps, line, n).value.parameters == []
  {
  }

  /** Every matching function rule yields a fact: a line matched by k function
      rules gives k functions, duplicates included. */
  lemma FunctionsPerLine(line: string, n: nat, rules: seq<Rule>, matcher: Matcher)
    ensures |LineFacts(line, n, rules, matcher, FunctionFrom)| == |Matching(line, rules, matcher)|
  {
    LineFactsCount(line, n, rules, matcher, FunctionFrom);
  }

  /** The name in one comma-separated piece: the text before any ':' and then
      before any '=', trimmed. */
  function ParamName(p: string): string {
    Text.Trim(Text.Split(Text.Split(Text.Trim(p), ':')[0], '=')[0])
  }

  /** A parameter name holds only characters of its piece, and no ':' or '='. */
  lemma ParamNameChars(p: string, c: char)
    requires c in ParamName(p)
    ensures c in p && c != ':' && c != '='
  {
    var t := Text.Trim(p);
    var beforeColon := Text.Split(t, ':')[0];
    var beforeEq := Text.Split(beforeColon, '=')[0];
    Text.TrimChars(beforeEq, c);
    Text.SplitFirstChars(beforeColon, '=', c);
    Text.SplitFirstChars(t, ':', c);
    Text.TrimChars(p, c);
  }

  /** A parameter name never holds ':' or '=' and has no white space at its ends. */
  lemma ParamNameSeparators(p: string)
    ensures ':' !in ParamName(p) && '=' !in ParamName(p)
    ensures ParamName(p) == [] || (!Text.IsWhitespace(ParamName(p)[0]) && !Text.IsWhitespace(ParamName(p)[|ParamName(p)| - 1]))
  {
    if ':' in ParamName(p) {
      ParamNameChars(p, ':');
    }
    if '=' in ParamName(p) {
      ParamNameChars(p, '=');
    }
  }

  /** `parse_parameters`: the comma-separated names of a parameter list. No
      name is empty, none holds ',', ':' or '=' or has white space at either
      end, there are at most as many as pieces between commas, and an empty
      list has none. */
  function ParseParameters(s: string): (r: seq<string>)
    ensures |r| <= Text.CountChar(s, ',') + 1
    ensures forall k :: 0 <= k < |r| ==>
      && r[k] != ""
      && ',' !in r[k] && ':' !in r[k] && '=' !in r[k]
      && !Text.IsWhitespace(r[k][0]) && !Text.IsWhitespace(r[k][|r[k]| - 1])
    ensures s == "" ==> r == []
  {
    var pieces := Text.Split(s, ',');
    var r := Seqs.Filter(ParamNames(pieces), NonEmpty);
    forall k | 0 <= k < |r|
      ensures r[k] != "" && ',' !in r[k] && ':' !in r[k] && '=' !in r[k]
      ensures !Text.IsWhitespace(r[k][0]) && !Text.IsWhitespace(r[k][|r[k]| - 1])
    {
      KeptNameClean(pieces, r[k], ',');
    }
    assert s == "" ==> pieces == [""];
    r
  }

  /** The names of the comma-separated pieces, in order. */
  function ParamNames(pieces: seq<string>): seq<string> {
    seq(|pieces|, k requires 0 <= k < |pieces| => ParamName(pieces[k]))
  }

  /** A name that survives the filter is non-empty, clean at its ends, and
      holds no separator that none of the pieces holds. */
  lemma KeptNameClean(pieces: seq<string>, name: string, sep: char)
    requires forall p :: p in pieces ==> sep !in p
    requires name in Seqs.Filter(ParamNames(pieces), NonEmpty)
    ensures name != "" && sep !in name && ':' !in name && '=' !in name
    ensures !Text.IsWhitespace(name[0]) && !Text.IsWhitespace(name[|name| - 1])
  {
    var names := ParamNames(pieces);
    Seqs.FilterMember(names, NonEmpty, name);
    var i :| 0 <= i < |names| && names[i] == name;
    var piece := pieces[i];
    assert name == ParamName(piece) && piece in pieces;
    ParamNameSeparators(piece);
    if sep in name {
      ParamNameChars(piece, sep);
      assert false;
    }
  }

  /** Whether a name is kept. */
  predicate NonEmpty(name: string) {
    name != ""
  }

  /** A name that is already clean is its own parameter name. */
  lemma CleanParamName(name: string)
    requires name != "" && ':' !in name && '=' !in name
    requires !Text.IsWhitespace(name[0]) && !Text.IsWhitespace(name[|name| - 1])
    ensures ParamName(name) == name
  {
    Text.TrimNoop(name);
    Text.SplitAbsent(name, ':');
    Text.SplitAbsent(name, '=');
  }

  /** Clean names joined with commas are parsed back, in order. */
  lemma ParseParametersJoin(names: seq<string>)
    requires |names| > 0
    requires forall k :: 0 <= k < |names| ==>
      && names[k] != ""
      && ',' !in names[k] && ':' !in names[k] && '=' !in names[k]
      && !Text.IsWhitespace(names[k][0]) && !Text.IsWhitespace(names[k][|names[k]| - 1])
    ensures ParseParameters(Text.Join(names, ',')) == names
  {
    Text.SplitJoin(names, ',');
    var pieces := Text.Split(Text.Join(names, ','), ',');
    var parsed := seq(|pieces|, k requires 0 <= k < |pieces| => ParamName(pieces[k]));
    forall k | 0 <= k < |names| ensures parsed[k] == names[k] {
      CleanParamName(names[k]);
    }
    assert parsed == names;
    Seqs.FilterAll(names, NonEmpty);
  }

  /** `get_dependencies`: the module of every import, in order. */
  function GetDependencies(parsed: ParsedFile): (r: seq<string>)
    ensures |r| == |parsed.imports|
    ensures forall k :: 0 <= k < |r| ==> r[k] == parsed.imports[k].moduleName
  {
    seq(|parsed.imports|, k requires 0 <= k < |parsed.imports| => parsed.imports[k].moduleName)
  }

  /** The rules used for a file: those registered under its language, or under
      "unknown" when it has none; `None` selects the fallback. */
  function PatternsFor(registry: map<string, LanguagePatterns>, language: Option<string>): Option<LanguagePatterns> {
    var tag := language.GetOr("unknown");
    if tag in registry then Some(registry[tag]) else None
  }

  /** What `parse_file` produces for `content`. */
  function Parse(patterns: Option<LanguagePatterns>, fileInfo: FileInfo, content: string, matcher: Matcher): ParsedFile {
    var lines := Text.Lines(content);
    match patterns
    case Some(p) =>
      ParsedFile(
        fileInfo,
        Facts(lines, p.importPatterns, matcher, ImportFrom),
        Facts(lines, p.exportPatterns, matcher, ExportFrom),
        Facts(lines, p.functionPatterns, matcher, FunctionFrom),
        Facts(lines, p.classPatterns, matcher, ClassFrom))
    case None =>
      ParsedFile(
        fileInfo,
        Facts(lines, FallbackImportPatterns, matcher, ImportFrom),
        [],
        Facts(lines, FallbackFunctionPatterns, matcher, BasicFunctionFrom),
        [])
  }

  /** Line numbers run from 1 to `count` and never decrease. */
  ghost predicate LineOrdered<F>(facts: seq<F>, lineOf: F -> nat, count: nat) {
    && (forall k :: 0 <= k < |facts| ==> 1 <= lineOf(facts[k]) <= count)
    && (forall i, k :: 0 <= i < k < |facts| ==> lineOf(facts[i]) <= lineOf(facts[k]))
  }

  /** In every category the facts follow the lines of the text, and every line
      number is the 1-based number of one of its lines. */
  lemma ParseInLineOrder(patterns: Option<LanguagePatterns>, fileInfo: FileInfo, content: string, matcher: Matcher)
    ensures var p := Parse(patterns, fileInfo, content, matcher);
      var count := |Text.Lines(content)|;
      && LineOrdered(p.imports, (f: Import) => f.lineNumber, count)
      && LineOrdered(p.exports, (f: Export) => f.lineNumber, count)
      && LineOrdered(p.functions, (f: Function) => f.lineNumber, count)
      && LineOrdered(p.classes, (c: Class) => c.lineNumber, count)
  {
    var lines := Text.Lines(content);
    match patterns
    case Some(ps) =>
      FactsInLineOrder(lines, ps.importPatterns, matcher, ImportFrom, (f: Import) => f.lineNumber);
      FactsInLineOrder(lines, ps.exportPatterns, matcher, ExportFrom, (f: Export) => f.lineNumber);
      FactsInLineOrder(lines, ps.functionPatterns, matcher, FunctionFrom, (f: Function) => f.lineNumber);
      FactsInLineOrder(lines, ps.classPatterns, matcher, ClassFrom, (c: Class) => c.lineNumber);
    case None =>
      FactsInLineOrder(lines, FallbackImportPatterns, matcher, ImportFrom, (f: Import) => f.lineNumber);
      FactsInLineOrder(lines, FallbackFunctionPatterns, matcher, BasicFunctionFrom, (f: Function) => f.lineNumber);
  }

  /** The fallback finds no exports and no classes, and its functions have no
      parameters. */
  lemma FallbackParse(fileInfo: FileInfo, content: string, matcher: Matcher)
    ensures Parse(None, fileInfo, content, matcher).exports == []
    ensures Parse(None, fileInfo, content, matcher).classes == []
    ensures forall k :: 0 <= k < |Parse(None, fileInfo, content, matcher).functions| ==>
      Parse(None, fileInfo, content, matcher).functions[k].parameters == []
  {
    BasicFunctionsShape(Text.Lines(content), FallbackFunctionPatterns, matcher);
  }

  /** With the registry `new` builds, a file falls back to the generic rules
      exactly when it has no language or a language other than the four
      registered ones. */
  lemma FallbackRouting(registry: map<string, LanguagePatterns>, language: Option<string>)
    requires registry.Keys == {"javascript", "typescript", "python", "rust"}
    ensures PatternsFor(registry, language).None? <==> language.None? || language.value !in registry
  {
    assert "unknown" !in registry;
  }

  /** The loop over the rules of one line, appending what each yields. */
  method ScanLine<F>(line: string, n: nat, rules: seq<Rule>, matcher: Matcher, extract: Extractor<F>, acc: seq<F>)
    returns (r: seq<F>)
    ensures r == acc + LineFacts(line, n, rules, matcher, extract)
  {
    r := acc;
    for j := 0 to |rules|
      invariant r == acc + LineFacts(line, n, rules[..j], matcher, extract)
    {
      assert rules[..j + 1][..j] == rules[..j];
      var captures := matcher(rules[j], line);
      if captures.Some? {
        var fact := extract(captures.value, line, n);
        if fact.Some? {
          r := r + [fact.value];
        }
      }
    }
    assert rules[..|rules|] == rules;
  }

  /** The loop over the lines, numbered from 1, and for each the rules. */
  method Scan<F>(lines: seq<string>, rules: seq<Rule>, matcher: Matcher, extract: Extractor<F>, acc: seq<F>)
    returns (r: seq<F>)
    ensures r == acc + Facts(lines, rules, matcher, extract)
  {
    r := acc;
    for i := 0 to |lines|
      invariant r == acc + Facts(lines[..i], rules, matcher, extract)
    {
      ScanStep(lines, i, rules, matcher, extract, acc);
      r := ScanLine(lines[i], i + 1, rules, matcher, extract, r);
    }
    assert lines[..|lines|] == lines;
  }

  /** One pass over the lines trying two rule lists on each line, each
      appending to its own list. */
  method ScanBoth<F, G>(
    lines: seq<string>, rulesF: seq<Rule>, extractF: Extractor<F>, accF: seq<F>,
    rulesG: seq<Rule>, extractG: Extractor<G>, accG: seq<G>, matcher: Matcher)
    returns (rF: seq<F>, rG: seq<G>)
    ensures rF == accF + Facts(lines, rulesF, matcher, extractF)
    ensures rG == accG + Facts(lines, rulesG, matcher, extractG)
  {
    rF, rG := accF, accG;
    for i := 0 to |lines|
      invariant rF == accF + Facts(lines[..i], rulesF, matcher, extractF)
      invariant rG == accG + Facts(lines[..i], rulesG, matcher, extractG)
    {
      ScanStep(lines, i, rulesF, matcher, extractF, accF);
      ScanStep(lines, i, rulesG, matcher, extractG, accG);
      rF := ScanLine(lines[i], i + 1, rulesF, matcher, extractF, rF);
      rG := ScanLine(lines[i], i + 1, rulesG, matcher, extractG, rG);
    }
    assert lines[..|lines|] == lines;
  }

  /** `SimpleParser`: the registry of rules by language tag. */
  /** The registry `new` fills. */
  function DefaultRegistry(): map<string, LanguagePatterns> {
    map["javascript" := JavaScriptPatterns, "typescript" := JavaScriptPatterns,
        "python" := PythonPatterns, "rust" := RustPatterns]
  }

  class SimpleParser {
    const languagePatterns: map<string, LanguagePatterns>

    /** `new`: JavaScript, Python and Rust rules; TypeScript shares JavaScript's. */
    constructor()
      ensures languagePatterns.Keys == {"javascript", "typescript", "python", "rust"}
      ensures languagePatterns["javascript"] == JavaScriptPatterns
      ensures languagePatterns["typescript"] == languagePatterns["javascript"]
      ensures languagePatterns["python"] == PythonPatterns
      ensures languagePatterns["rust"] == RustPatterns
      ensures languagePatterns == DefaultRegistry()
    {
      var patterns: map<string, LanguagePatterns> := map[];
      patterns := patterns["javascript" := JavaScriptPatterns];
      patterns := patterns["typescript" := patterns["javascript"]];
      patterns := patterns["python" := PythonPatterns];
      patterns := patterns["rust" := RustPatterns];
      languagePatterns := patterns;
    }

    /** `parse_file`: reading the file is the only failure; otherwise the facts
        found with the file's rules, or with the fallback rules when its
        language has none. */
    method ParseFile(fileInfo: FileInfo, content: Result<string, IoError>, matcher: Matcher)
      returns (r: Result<ParsedFile, IoError>)
      ensures content.Err? ==> r == Err(content.error)
      ensures content.Ok? ==>
        r == Ok(Parse(PatternsFor(languagePatterns, fileInfo.language), fileInfo, content.value, matcher))
    {
      if content.Err? {
        return Err(content.error);
      }
      var text := content.value;
      var language := fileInfo.language.GetOr("unknown");
      var parsed := ParsedFile(fileInfo, [], [], [], []);
      var lines := Text.Lines(text);
      if language in languagePatterns {
        var patterns := languagePatterns[language];
        parsed := ExtractImports(text, patterns, matcher, parsed);
        parsed := ExtractExports(text, patterns, matcher, parsed);
        parsed := ExtractFunctions(text, patterns, matcher, parsed);
        parsed := ExtractClasses(text, patterns, matcher, parsed);
        assert parsed.imports == Facts(lines, patterns.importPatterns, matcher, ImportFrom);
        assert parsed.exports == Facts(lines, patterns.exportPatterns, matcher, ExportFrom);
        assert parsed.functions == Facts(lines, patterns.functionPatterns, matcher, FunctionFrom);
        assert parsed.classes == Facts(lines, patterns.classPatterns, matcher, ClassFrom);
        assert PatternsFor(languagePatterns, fileInfo.language) == Some(patterns);
      } else {
        parsed := ExtractBasicPatterns(text, matcher, parsed);
        assert parsed.imports == Facts(lines, FallbackImportPatterns, matcher, ImportFrom);
        assert parsed.functions == Facts(lines, FallbackFunctionPatterns, matcher, BasicFunctionFrom);
        assert PatternsFor(languagePatterns, fileInfo.language) == None;
      }
      return Ok(parsed);
    }

    /** `extract_imports`: appends the import facts of `content`. */
    method ExtractImports(content: string, patterns: LanguagePatterns, matcher: Matcher, parsed: ParsedFile)
      returns (r: ParsedFile)
      ensures r == parsed.(imports := parsed.imports
                           + Facts(Text.Lines(content), patterns.importPatterns, matcher, ImportFrom))
    {
      var imports := Scan(Text.Lines(content), patterns.importPatterns, matcher, ImportFrom, parsed.imports);
      r := parsed.(imports := imports);
    }

    /** `extract_exports`: appends the export facts of `content`. */
    method ExtractExports(content: string, patterns: LanguagePatterns, matcher: Matcher, parsed: ParsedFile)
      returns (r: ParsedFile)
      ensures r == parsed.(exports := parsed.exports
                           + Facts(Text.Lines(content), patterns.exportPatterns, matcher, ExportFrom))
    {
      var exports := Scan(Text.Lines(content), patterns.exportPatterns, matcher, ExportFrom, parsed.exports);
      r := parsed.(exports := exports);
    }

    /** `extract_functions`: appends the function facts of `content`. */
    method ExtractFunctions(content: string, patterns: LanguagePatterns, matcher: Matcher, parsed: ParsedFile)
      returns (r: ParsedFile)
      ensures r == parsed.(functions := parsed.functions
                           + Facts(Text.Lines(content), patterns.functionPatterns, matcher, FunctionFrom))
    {
      var functions := Scan(Text.Lines(content), patterns.functionPatterns, matcher, FunctionFrom, parsed.functions);
      r := parsed.(functions := functions);
    }

    /** `extract_classes`: appends the class facts of `content`. */
    method ExtractClasses(content: string, patterns: LanguagePatterns, matcher: Matcher, parsed: ParsedFile)
      returns (r: ParsedFile)
      ensures r == parsed.(classes := parsed.classes
                           + Facts(Text.Lines(content), patterns.classPatterns, matcher, ClassFrom))
    {
      var classes := Scan(Text.Lines(content), patterns.classPatterns, matcher, ClassFrom, parsed.classes);
      r := parsed.(classes := classes);
    }

    /** `extract_basic_patterns`: one pass over the lines trying the fallback
        import rules and then the fallback function rules on each. */
    method ExtractBasicPatterns(content: string, matcher: Matcher, parsed: ParsedFile)
      returns (r: ParsedFile)
      ensures r == parsed.(
        imports := parsed.imports + Facts(Text.Lines(content), FallbackImportPatterns, matcher, ImportFrom),
        functions := parsed.functions + Facts(Text.Lines(content), FallbackFunctionPatterns, matcher, BasicFunctionFrom))
    {
      var imports, functions := ScanBoth(
        Text.Lines(content), FallbackImportPatterns, ImportFrom, parsed.imports,
        FallbackFunctionPatterns, BasicFunctionFrom, parsed.functions, matcher);
      r := parsed.(imports := imports, functions := functions);
    }
  }
}
