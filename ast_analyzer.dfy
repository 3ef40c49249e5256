/**
 * The golden-file analyzer (`agents/analyzer/ast_analyzer.py`): walks the syntax tree of a
 * Python test file and reports its imports, fixtures, test functions, helpers and classes.
 * The parser itself is an input: the model receives the root `Node` it would produce.
 */
module AstAnalyzer {

  import opened Wrappers
  import opened Text
  import opened Search
  import opened Picking
  import opened StyleGuide

  /** A syntax-tree node: its kind, the source text it spans, its children and its first and last rows. */
  datatype Node = Node(kind: string, text: string, children: seq<Node>, startRow: nat, endRow: nat)

  /** A function definition together with the node it hangs from (`node.parent`). */
  datatype Def = Def(node: Node, parent: Node)

  // ---------------------------------------------------------------- children

  /** The first child of the given kind (`for child in ...: if child.type == k: ...; break`). */
  function FirstOfKind(children: seq<Node>, kind: string): (r: Option<Node>)
    ensures r.Some? ==> r.value in children && r.value.kind == kind
    ensures r.None? ==> forall i :: 0 <= i < |children| ==> children[i].kind != kind
    decreases |children|
  {
    if children == [] then None
    else if children[0].kind == kind then Some(children[0])
    else FirstOfKind(children[1..], kind)
  }

  /** The last child of the given kind: a loop that overwrites its variable on every match. */
  function LastOfKind(children: seq<Node>, kind: string): (r: Option<Node>)
    ensures r.Some? ==> r.value in children && r.value.kind == kind
    ensures r.None? ==> forall i :: 0 <= i < |children| ==> children[i].kind != kind
    decreases |children|
  {
    if children == [] then None
    else if children[|children| - 1].kind == kind then Some(children[|children| - 1])
    else LastOfKind(children[..|children| - 1], kind)
  }

  /** The name of a definition: its first identifier child, or "" without one. */
  function NameOf(def: Node): string
  {
    match FirstOfKind(def.children, "identifier")
    case Some(c) => c.text
    case None => ""
  }

  /** The text of a decorator child. */
  function DecoratorText(c: Node): Option<string>
  {
    if c.kind == "decorator" then Some(c.text) else None
  }

  /** The texts of the decorator children, in order. */
  function DecoratorTexts(children: seq<Node>): seq<string>
  {
    Pick(children, DecoratorText)
  }

  /** Some string in `ss` contains `sub`. */
  predicate AnyContains(ss: seq<string>, sub: string)
  {
    exists i :: 0 <= i < |ss| && Contains(ss[i], sub)
  }

  // ---------------------------------------------------------------- imports

  predicate IsDottedChar(c: char) { IsWordChar(c) || c == '.' }

  /** `[\w.]+` taken greedily: the maximal leading run of word characters and dots. */
  function TakeDotted(s: string): (r: string)
    ensures |r| <= |s| && r == s[..|r|]
    ensures forall i :: 0 <= i < |r| ==> IsDottedChar(r[i])
    ensures |r| == |s| || !IsDottedChar(s[|r|])
    decreases |s|
  {
    if s == [] || !IsDottedChar(s[0]) then [] else [s[0]] + TakeDotted(s[1..])
  }

  /** `.+` taken greedily: the maximal leading run without a line break. */
  function TakeLine(s: string): (r: string)
    ensures |r| <= |s| && r == s[..|r|]
    ensures '\n' !in r
    ensures |r| == |s| || s[|r|] == '\n'
    decreases |s|
  {
    if s == [] || s[0] == '\n' then [] else [s[0]] + TakeLine(s[1..])
  }

  /** The optional `\s+as\s+(\w+)` after the module of a plain import. */
  function AliasOf(tail: string): Option<string>
  {
    var sp := TakeSpace(tail);
    var t := tail[|sp|..];
    if sp == [] || !StartsWith(t, "as") then None
    else
      var sp2 := TakeSpace(t[2..]);
      var w := TakeWord(t[2..][|sp2|..]);
      if sp2 == [] || w == [] then None else Some(w)
  }

  /** `re.match(r"import\s+([\w.]+)(?:\s+as\s+(\w+))?", text)` read into an import. */
  function MatchImport(text: string): (r: Option<ImportPattern>)
    ensures r.Some? ==> r.value.moduleName != [] && !r.value.isFromImport && r.value.names == []
  {
    if !StartsWith(text, "import") then None
    else
      var rest := text[6..];
      var sp := TakeSpace(rest);
      var m := TakeDotted(rest[|sp|..]);
      if sp == [] || m == [] then None
      else Some(ImportPattern(m, [], AliasOf(rest[|sp|..][|m|..]), false))
  }

  /**
   * The stripped text that `\s+(.+)` captures after `import`, given the whitespace `sp` there
   * and the text `t` after it. When `t` is empty the regex can still succeed by backtracking,
   * capturing whitespace only, which strips to "".
   */
  function NamesText(sp: string, t: string): Option<string>
  {
    if t != [] then Some(Strip(TakeLine(t)))
    else if exists k :: 1 <= k < |sp| && sp[k] != '\n' then Some("")
    else None
  }

  /** `[n.strip() for n in s.split(",")]` */
  function SplitNames(s: string): (r: seq<string>)
    ensures |r| == |Split(s, ',')| && forall i :: 0 <= i < |r| ==> r[i] == Strip(Split(s, ',')[i])
  {
    var parts := Split(s, ',');
    seq(|parts|, i requires 0 <= i < |parts| => Strip(parts[i]))
  }

  /** `re.match(r"from\s+([\w.]+)\s+import\s+(.+)", text)` read into an import. */
  function MatchFromImport(text: string): (r: Option<ImportPattern>)
    ensures r.Some? ==> r.value.moduleName != [] && r.value.isFromImport && r.value.alias == None && |r.value.names| >= 1
  {
    if !StartsWith(text, "from") then None
    else
      var r1 := text[4..];
      var sp1 := TakeSpace(r1);
      var m := TakeDotted(r1[|sp1|..]);
      var r3 := r1[|sp1|..][|m|..];
      var sp2 := TakeSpace(r3);
      var r4 := r3[|sp2|..];
      if sp1 == [] || m == [] || sp2 == [] || !StartsWith(r4, "import") then None
      else
        var sp3 := TakeSpace(r4[6..]);
        if sp3 == [] then None
        else
          match NamesText(sp3, r4[6..][|sp3|..])
          case Some(names) => Some(ImportPattern(m, SplitNames(names), None, true))
          case None => None
  }

  /** The import a top-level statement contributes. */
  function ImportOf(node: Node): Option<ImportPattern>
  {
    if node.kind == "import_statement" then MatchImport(node.text)
    else if node.kind == "import_from_statement" then MatchFromImport(node.text)
    else None
  }

  /** `_extract_imports`: the imports of the top-level statements, in order. */
  function Imports(root: Node): seq<ImportPattern>
  {
    Pick(root.children, ImportOf)
  }

  /** `_extract_imports` */
  method ExtractImports(root: Node) returns (imports: seq<ImportPattern>)
    ensures imports == Imports(root)
  {
    imports := [];
    for i := 0 to |root.children|
      invariant imports == Pick(root.children[..i], ImportOf)
    {
      PickSnoc(root.children, i, ImportOf);
      var node := root.children[i];
      var m: Option<ImportPattern> := None;
      if node.kind == "import_statement" {
        m := MatchImport(node.text);
      } else if node.kind == "import_from_statement" {
        m := MatchFromImport(node.text);
      }
      assert m == ImportOf(node);
      if m.Some? {
        imports := imports + [m.value];
      }
    }
    assert root.children[..|root.children|] == root.children;
  }

  /**
   * Imports are read from top-level statements only: each comes from one child of the root,
   * `from` imports exactly from `import_from_statement` children.
   */
  lemma ImportsTopLevel(root: Node, imp: ImportPattern)
    requires imp in Imports(root)
    ensures exists i :: (0 <= i < |root.children| && ImportOf(root.children[i]) == Some(imp)
      && (root.children[i].kind == "import_from_statement" <==> imp.isFromImport)
      && (root.children[i].kind == "import_statement" || root.children[i].kind == "import_from_statement"))
  {
    PickMember(root.children, ImportOf, imp);
  }

  // ---------------------------------------------------------------- fixtures

  predicate IsQuote(c: char) { c == '"' || c == '\'' }

  /** `scope=["'](\w+)["']` matched at index `p` of a decorator. */
  function ScopeAt(d: string, p: nat): (r: Option<string>)
    ensures r.Some? ==> r.value != [] && AllWordChars(r.value)
  {
    if p + 7 <= |d| && d[p..p + 6] == "scope=" && IsQuote(d[p + 6]) then
      var w := TakeWord(d[p + 7..]);
      if w != [] && p + 7 + |w| < |d| && IsQuote(d[p + 7 + |w|]) then Some(w) else None
    else None
  }

  /** `re.search(r'scope=["\'](\w+)["\']', d)`: the leftmost match. */
  function ScopeIn(d: string): Option<string>
  {
    FirstFrom(|d|, (p: nat) => ScopeAt(d, p), 0)
  }

  /** The fixture scope: "function", overwritten by each decorator that names a scope, so the last one wins. */
  function FixtureScope(decorators: seq<string>): string
    decreases |decorators|
  {
    if decorators == [] then "function"
    else
      match ScopeIn(decorators[|decorators| - 1])
      case Some(s) => s
      case None => FixtureScope(decorators[..|decorators| - 1])
  }

  /** With no decorator naming a scope, the scope is "function". */
  lemma {:induction false} FixtureScopeDefault(decorators: seq<string>)
    requires forall i :: 0 <= i < |decorators| ==> ScopeIn(decorators[i]).None?
    ensures FixtureScope(decorators) == "function"
    decreases |decorators|
  {
    if decorators != [] {
      FixtureScopeDefault(decorators[..|decorators| - 1]);
    }
  }

  /** The last decorator that names a scope decides it. */
  lemma {:induction false} FixtureScopeLast(decorators: seq<string>, k: nat)
    requires k < |decorators| && ScopeIn(decorators[k]).Some?
    requires forall i :: k < i < |decorators| ==> ScopeIn(decorators[i]).None?
    ensures FixtureScope(decorators) == ScopeIn(decorators[k]).value
    decreases |decorators|
  {
    if k < |decorators| - 1 {
      var init := decorators[..|decorators| - 1];
      assert init[k] == decorators[k];
      FixtureScopeLast(init, k);
    }
  }

  /** The fixture a top-level statement declares, if it is a decorated function with a fixture decorator. */
  function FixtureOf(node: Node): Option<FixturePattern>
  {
    if node.kind != "decorated_definition" then None
    else
      var decorators := DecoratorTexts(node.children);
      match LastOfKind(node.children, "function_definition")
      case None => None
      case Some(f) =>
        if AnyContains(decorators, "fixture") then
          Some(FixturePattern(NameOf(f), FixtureScope(decorators), [], Contains(f.text, "yield"), Docstring(f), Summarize(f.text)))
        else None
  }

  /** `_extract_fixtures`: the fixtures of the top-level statements, in order. */
  function Fixtures(root: Node): seq<FixturePattern>
  {
    Pick(root.children, FixtureOf)
  }

  /** `_extract_fixtures` */
  method ExtractFixtures(root: Node) returns (fixtures: seq<FixturePattern>)
    ensures fixtures == Fixtures(root)
  {
    fixtures := [];
    for i := 0 to |root.children|
      invariant fixtures == Pick(root.children[..i], FixtureOf)
    {
      PickSnoc(root.children, i, FixtureOf);
      var node := root.children[i];
      if node.kind == "decorated_definition" {
        var decorators := DecoratorTexts(node.children);
        var funcNode := LastOfKind(node.children, "function_definition");
        if funcNode.Some? && AnyContains(decorators, "fixture") {
          var f := funcNode.value;
          var scope := FixtureScope(decorators);
          var usesYield := Contains(f.text, "yield");
          fixtures := fixtures + [FixturePattern(NameOf(f), scope, [], usesYield, Docstring(f), Summarize(f.text))];
        }
      }
    }
    assert root.children[..|root.children|] == root.children;
  }

  /**
   * A top-level statement is a fixture exactly when it is a decorated definition holding a
   * function and some decorator mentions "fixture"; the fixture usesYield exactly when the
   * function's text contains "yield".
   */
  lemma FixtureRule(node: Node)
    ensures FixtureOf(node).Some?
      <==> (node.kind == "decorated_definition" && LastOfKind(node.children, "function_definition").Some?
        && AnyContains(DecoratorTexts(node.children), "fixture"))
    ensures FixtureOf(node).Some? ==>
      var f := LastOfKind(node.children, "function_definition").value;
      FixtureOf(node).value.usesYield == Contains(f.text, "yield") && FixtureOf(node).value.name == NameOf(f)
  {
  }

  // ---------------------------------------------------------------- docstrings and summaries

  const QuoteChars: set<char> := {'"', '\''}

  /** `text.strip("\"'").strip()` */
  function CleanDoc(text: string): string
  {
    Strip(StripSet(text, QuoteChars))
  }

  /** The first expression statement of `stmts` that holds a string, cleaned. */
  function DocIn(stmts: seq<Node>): Option<string>
    decreases |stmts|
  {
    if stmts == [] then None
    else if stmts[0].kind == "expression_statement" && FirstOfKind(stmts[0].children, "string").Some? then
      Some(CleanDoc(FirstOfKind(stmts[0].children, "string").value.text))
    else DocIn(stmts[1..])
  }

  /** `_extract_docstring`: searched in the first block child only. */
  function Docstring(def: Node): Option<string>
  {
    match FirstOfKind(def.children, "block")
    case Some(b) => DocIn(b.children)
    case None => None
  }

  /** A triple-quoted docstring is read back as its text when that text has no quote or space at its ends. */
  lemma DocstringRoundTrip(d: string)
    requires d == [] || (d[0] !in QuoteChars && d[|d| - 1] !in QuoteChars && !IsSpace(d[0]) && !IsSpace(d[|d| - 1]))
    ensures CleanDoc("\"\"\"" + d + "\"\"\"") == d
  {
    var q := "\"\"\"";
    if d == [] {
      assert q + d + q + [] == q + d + q;
      StripLeftPrefix(q + d + q, [], QuoteChars);
    } else {
      assert q + d + q == q + (d + q);
      StripLeftPrefix(q, d + q, QuoteChars);
      StripRightSuffix(d, q, QuoteChars);
    }
    assert StripSet(q + d + q, QuoteChars) == d;
    StripSetNoop(d, Whitespace);
  }

  /** `_summarize_body`: the text when it has at most 10 lines, else its first 10 lines and a count of the rest. */
  function Summarize(text: string): string
  {
    var lines := Split(text, '\n');
    if |lines| <= 10 then text
    else Join(lines[..10], "\n") + "\n" + CountLine(|lines| - 10)
  }

  /** The closing line of a summary that left out `k` lines. */
  function CountLine(k: nat): string
  {
    "... (" + NatToString(k) + " more lines)"
  }

  /** The closing line of a summary holds no line break. */
  lemma CountLineHasNoBreak(k: nat)
    ensures '\n' !in CountLine(k)
  {
    var digits := NatToString(k);
    var last := CountLine(k);
    forall j | 0 <= j < |last|
      ensures last[j] != '\n'
    {
      if 5 <= j < 5 + |digits| {
        assert last[j] == digits[j - 5];
      }
    }
  }

  /** A text of at most 10 lines is its own summary. */
  lemma SummarizeShort(text: string)
    requires |Split(text, '\n')| <= 10
    ensures Summarize(text) == text
  {
  }

  /**
   * A longer text is summarised as 11 lines: its first 10 unchanged, then one line giving the
   * number of lines left out.
   */
  lemma SummarizeLong(text: string)
    requires |Split(text, '\n')| > 10
    ensures var lines := Split(text, '\n');
      Split(Summarize(text), '\n') == lines[..10] + [CountLine(|lines| - 10)]
  {
    var lines := Split(text, '\n');
    var parts := lines[..10] + [CountLine(|lines| - 10)];
    JoinSnoc(lines[..10], CountLine(|lines| - 10), "\n");
    CountLineHasNoBreak(|lines| - 10);
    LinesHaveNoBreak(lines[..10], CountLine(|lines| - 10));
    SplitJoin(parts, '\n');
  }

  /** Lines taken from a split, followed by one more line without a break, hold no break. */
  lemma LinesHaveNoBreak(lines: seq<string>, last: string)
    requires forall i :: 0 <= i < |lines| ==> '\n' !in lines[i]
    requires '\n' !in last
    ensures forall i :: 0 <= i < |lines + [last]| ==> '\n' !in (lines + [last])[i]
  {
  }

  // ---------------------------------------------------------------- test functions

  /** The definitions a child of `parent` contributes to `_iter_function_defs(parent)`. */
  function ChildDefs(parent: Node, c: Node): seq<Def>
    requires c in parent.children
    decreases c, 2
  {
    if c.kind == "function_definition" then [Def(c, parent)]
    else if c.kind == "decorated_definition" then Pick(c.children, (sub: Node) => DecoratedDef(c, sub))
    else if c.kind == "class_definition" then
      match FirstOfKind(c.children, "block")
      case Some(b) => FunctionDefs(b)
      case None => []
    else []
  }

  /** A function definition directly under a decorated definition. */
  function DecoratedDef(c: Node, sub: Node): Option<Def>
  {
    if sub.kind == "function_definition" then Some(Def(sub, c)) else None
  }

  /** The definitions the first `k` children of `n` contribute. */
  function DefsUpTo(n: Node, k: nat): seq<Def>
    requires k <= |n.children|
    decreases n, 0, k
  {
    if k == 0 then [] else DefsUpTo(n, k - 1) + ChildDefs(n, n.children[k - 1])
  }

  /** `_iter_function_defs`: the function definitions under `n`, in document order. */
  function FunctionDefs(n: Node): seq<Def>
    decreases n, 1
  {
    DefsUpTo(n, |n.children|)
  }

  /** A definition is yielded exactly when one of the children contributes it. */
  lemma {:induction false} DefsUpToMember(n: Node, k: nat, d: Def)
    requires k <= |n.children|
    ensures d in DefsUpTo(n, k) <==> exists i :: 0 <= i < k && d in ChildDefs(n, n.children[i])
    decreases k
  {
    if k > 0 {
      DefsUpToMember(n, k - 1, d);
    }
  }

  /**
   * `_iter_function_defs` usesYield exactly the definitions the children contribute: the function
   * definitions among them, those under a decorator, and those yielded by a class body.
   */
  lemma DefsMember(n: Node, d: Def)
    ensures d in FunctionDefs(n) <==> exists i :: 0 <= i < |n.children| && d in ChildDefs(n, n.children[i])
  {
    DefsUpToMember(n, |n.children|, d);
  }

  /** A decorated definition contributes only its own function children, so a decorated class is never entered. */
  lemma DecoratedDefsDirect(parent: Node, c: Node, d: Def)
    requires c in parent.children && c.kind == "decorated_definition"
    requires d in ChildDefs(parent, c)
    ensures d.parent == c && d.node in c.children && d.node.kind == "function_definition"
  {
    PickMember(c.children, (sub: Node) => DecoratedDef(c, sub), d);
  }

  /** `_get_decorators`: the decorators of the enclosing decorated definition, with leading "@" removed. */
  function DecoratorsOf(d: Def): (r: seq<string>)
    ensures forall i :: 0 <= i < |r| ==> r[i] == [] || r[i][0] != '@'
  {
    if d.parent.kind == "decorated_definition" then
      var texts := DecoratorTexts(d.parent.children);
      seq(|texts|, i requires 0 <= i < |texts| => StripLeftSet(texts[i], {'@'}))
    else []
  }

  /** A parameter that names a fixture: a bare identifier other than `self`. */
  function ParamName(p: Node): Option<string>
  {
    if p.kind == "identifier" && p.text != "self" then Some(p.text) else None
  }

  /** `_get_parameters`: the parameters of the first parameter list, or none. */
  function Parameters(def: Node): seq<string>
  {
    match FirstOfKind(def.children, "parameters")
    case Some(ps) => Pick(ps.children, ParamName)
    case None => []
  }

  /** `_get_parameters` */
  method GetParameters(def: Node) returns (params: seq<string>)
    ensures params == Parameters(def)
  {
    var ps := FirstOfKind(def.children, "parameters");
    if ps.None? {
      return [];
    }
    var children := ps.value.children;
    params := [];
    for i := 0 to |children|
      invariant params == Pick(children[..i], ParamName)
    {
      PickSnoc(children, i, ParamName);
      var param := children[i];
      if param.kind == "identifier" {
        var name := param.text;
        if name != "self" {
          params := params + [name];
        }
      }
    }
    assert children[..|children|] == children;
  }

  /** `self` is never reported as a fixture in use, and every reported name is an identifier parameter. */
  lemma ParametersNoSelf(def: Node, p: string)
    requires p in Parameters(def)
    ensures p != "self"
    ensures exists ps, i :: (FirstOfKind(def.children, "parameters") == Some(ps) && 0 <= i < |ps.children|
      && ps.children[i].kind == "identifier" && ps.children[i].text == p)
  {
    var ps := FirstOfKind(def.children, "parameters").value;
    PickMember(ps.children, ParamName, p);
  }

  /** The assertion a stripped body line holds: `assert `, then `pytest.raises`, then `self.assert\w+`. */
  function AssertionOf(line: string): Option<AssertionPattern>
  {
    var l := Strip(line);
    if StartsWith(l, "assert ") then Some(AssertionPattern(AssertStatement, l, 1))
    else if Contains(l, "pytest.raises") then Some(AssertionPattern(PytestRaises, l, 1))
    else if StartsWith(l, "self.assert") && |l| > 11 && IsWordChar(l[11]) then Some(AssertionPattern(AssertEqual, l, 1))
    else None
  }

  /** `_extract_assertions`: at most one assertion per line of the definition's text, in order. */
  function Assertions(body: string): seq<AssertionPattern>
  {
    Pick(Split(body, '\n'), AssertionOf)
  }

  /** `_extract_assertions` */
  method ExtractAssertions(def: Node) returns (assertions: seq<AssertionPattern>)
    ensures assertions == Assertions(def.text)
  {
    var lines := Split(def.text, '\n');
    assertions := [];
    for i := 0 to |lines|
      invariant assertions == Pick(lines[..i], AssertionOf)
    {
      PickSnoc(lines, i, AssertionOf);
      var line := Strip(lines[i]);
      if StartsWith(line, "assert ") {
        assertions := assertions + [AssertionPattern(AssertStatement, line, 1)];
      } else if Contains(line, "pytest.raises") {
        assertions := assertions + [AssertionPattern(PytestRaises, line, 1)];
      } else if StartsWith(line, "self.assert") && |line| > 11 && IsWordChar(line[11]) {
        assertions := assertions + [AssertionPattern(AssertEqual, line, 1)];
      }
    }
    assert lines[..|lines|] == lines;
  }

  /**
   * Each line usesYield at most one assertion, whose pattern is the stripped line; the style follows
   * the precedence `assert `, then `pytest.raises`, then `self.assert\w+`.
   */
  lemma AssertionPrecedence(line: string)
    ensures var l := Strip(line); var a := AssertionOf(line);
      (a.Some? ==> a.value.pattern == l && a.value.frequency == 1)
      && (a.Some? && a.value.style == AssertStatement <==> StartsWith(l, "assert "))
      && (a.Some? && a.value.style == PytestRaises <==> !StartsWith(l, "assert ") && Contains(l, "pytest.raises"))
      && (a.Some? && a.value.style == AssertEqual
          <==> !StartsWith(l, "assert ") && !Contains(l, "pytest.raises") && StartsWith(l, "self.assert") && |l| > 11 && IsWordChar(l[11]))
      && (a.Some? ==> a.value.style != CustomAssertion)
  {
  }

  /** There are never more assertions than lines, and each comes from one line. */
  lemma AssertionsPerLine(body: string, a: AssertionPattern)
    ensures |Assertions(body)| <= |Split(body, '\n')|
    ensures a in Assertions(body) <==> exists i :: 0 <= i < |Split(body, '\n')| && AssertionOf(Split(body, '\n')[i]) == Some(a)
  {
    PickMember(Split(body, '\n'), AssertionOf, a);
  }

  // ---------------------------------------------------------------- the HTTP call of a test

  /** The methods tried, in this order. */
  const HttpMethods: seq<string> := ["get", "post", "put", "patch", "delete", "head", "options"]

  /** `\.m\s*\(` matched at index `p`: the index just after the parenthesis. */
  function CallEnd(s: string, p: nat, m: string): (r: Option<nat>)
    ensures r.Some? ==> r.value <= |s|
  {
    if p + 1 + |m| <= |s| && s[p] == '.' && s[p + 1..p + 1 + |m|] == m then
      var q := p + 1 + |m|;
      var sp := TakeSpace(s[q..]);
      if q + |sp| < |s| && s[q + |sp|] == '(' then Some(q + |sp| + 1) else None
    else None
  }

  /** `re.search(rf"\.{m}\s*\(", s)` succeeds. */
  predicate HasCall(s: string, m: string)
  {
    exists p :: 0 <= p < |s| && CallEnd(s, p, m).Some?
  }

  /** The maximal leading run of characters other than quotes (`[^"']*`). */
  function TakeNonQuote(s: string): (r: string)
    ensures |r| <= |s| && r == s[..|r|]
    ensures forall i :: 0 <= i < |r| ==> !IsQuote(r[i])
    ensures |r| == |s| || IsQuote(s[|r|])
    decreases |s|
  {
    if s == [] || IsQuote(s[0]) then [] else [s[0]] + TakeNonQuote(s[1..])
  }

  /** The index of the first non-space character at or after the call's parenthesis. */
  function ArgStart(s: string, q: nat): (r: nat)
    requires q <= |s|
    ensures q <= r <= |s|
  {
    q + |TakeSpace(s[q..])|
  }

  /** `\.m\s*\(\s*["']([^"']+)["']` matched at index `p`: the quoted literal. */
  function QuotedAt(s: string, p: nat, m: string): (r: Option<string>)
    ensures r.Some? ==> r.value != [] && forall i :: 0 <= i < |r.value| ==> !IsQuote(r.value[i])
  {
    match CallEnd(s, p, m)
    case None => None
    case Some(q) =>
      var a := ArgStart(s, q);
      if a < |s| && IsQuote(s[a]) then
        var lit := TakeNonQuote(s[a + 1..]);
        if lit != [] && a + 1 + |lit| < |s| then Some(lit) else None
      else None
  }

  /** The largest `j` with `}` at `j` and `/` right after it. */
  function LastBraceSlash(run: string, k: nat): (r: Option<nat>)
    requires k <= |run|
    ensures r.Some? ==> r.value + 1 < k && run[r.value] == '}' && run[r.value + 1] == '/'
    decreases k
  {
    if k < 2 then None
    else if run[k - 2] == '}' && run[k - 1] == '/' then Some(k - 2)
    else LastBraceSlash(run, k - 1)
  }

  /**
   * `\.m\s*\(\s*f["'][^"']*\}(/[^"']*)["']` matched at index `p`: the `/...` tail after the last
   * `}` of the f-string that a `/` follows (the greedy `[^"']*` backtracks to it).
   */
  function FStringAt(s: string, p: nat, m: string): (r: Option<string>)
    ensures r.Some? ==> r.value != [] && r.value[0] == '/' && forall i :: 0 <= i < |r.value| ==> !IsQuote(r.value[i])
  {
    match CallEnd(s, p, m)
    case None => None
    case Some(q) =>
      var a := ArgStart(s, q);
      if a + 1 < |s| && s[a] == 'f' && IsQuote(s[a + 1]) then
        var run := TakeNonQuote(s[a + 2..]);
        if a + 2 + |run| < |s| then
          match LastBraceSlash(run, |run|)
          case Some(j) => Some(run[j + 1..])
          case None => None
        else None
      else None
  }

  /** The endpoint of the call to `m`: the leftmost quoted literal, else the leftmost f-string tail. */
  function Endpoint(s: string, m: string): Option<string>
  {
    match FirstFrom(|s|, (p: nat) => QuotedAt(s, p, m), 0)
    case Some(lit) => Some(lit)
    case None => FirstFrom(|s|, (p: nat) => FStringAt(s, p, m), 0)
  }

  /**
   * An endpoint is never empty and holds no quote; it is the literal of the leftmost quoted
   * call when there is one, and otherwise an f-string tail starting with "/".
   */
  lemma EndpointShape(s: string, m: string)
    requires Endpoint(s, m).Some?
    ensures var e := Endpoint(s, m).value; e != [] && forall i :: 0 <= i < |e| ==> !IsQuote(e[i])
    ensures FirstFrom(|s|, (p: nat) => QuotedAt(s, p, m), 0).None? ==> Endpoint(s, m).value[0] == '/'
  {
    var quoted := (p: nat) => QuotedAt(s, p, m);
    if FirstFrom(|s|, quoted, 0).Some? {
      var q := FirstFromWitness(|s|, quoted, 0);
    } else {
      var q := FirstFromWitness(|s|, (p: nat) => FStringAt(s, p, m), 0);
    }
  }

  /** The first method of `ms` the body calls, upper-cased, with its endpoint. */
  function DetectCall(s: string, ms: seq<string>): (Option<string>, Option<string>)
    decreases |ms|
  {
    if ms == [] then (None, None)
    else if HasCall(s, ms[0]) then (Some(Upper(ms[0])), Endpoint(s, ms[0]))
    else DetectCall(s, ms[1..])
  }

  /** The detected method is the first in the fixed order whose call appears anywhere in the body. */
  lemma {:induction false} DetectCallFirst(s: string, ms: seq<string>, k: nat)
    requires k < |ms| && HasCall(s, ms[k])
    requires forall j :: 0 <= j < k ==> !HasCall(s, ms[j])
    ensures DetectCall(s, ms) == (Some(Upper(ms[k])), Endpoint(s, ms[k]))
    decreases k
  {
    if k > 0 {
      DetectCallFirst(s, ms[1..], k - 1);
    }
  }

  /** Without any call there is neither a method nor an endpoint. */
  lemma {:induction false} DetectCallNone(s: string, ms: seq<string>)
    requires forall j :: 0 <= j < |ms| ==> !HasCall(s, ms[j])
    ensures DetectCall(s, ms) == (None, None)
    decreases |ms|
  {
    if ms != [] {
      DetectCallNone(s, ms[1..]);
    }
  }

  /** The method-detection loop of `_extract_test_functions`, which stops at the first method called. */
  method DetectHttpCall(body: string) returns (httpMethod: Option<string>, endpoint: Option<string>)
    ensures (httpMethod, endpoint) == DetectCall(body, HttpMethods)
  {
    httpMethod, endpoint := None, None;
    var k := 0;
    while k < |HttpMethods|
      invariant 0 <= k <= |HttpMethods|
      invariant DetectCall(body, HttpMethods) == DetectCall(body, HttpMethods[k..])
    {
      var m := HttpMethods[k];
      assert HttpMethods[k..][0] == m && HttpMethods[k..][1..] == HttpMethods[k + 1..];
      if HasCall(body, m) {
        httpMethod := Some(Upper(m));
        var urlMatch := FirstFrom(|body|, (p: nat) => QuotedAt(body, p, m), 0);
        if urlMatch.Some? {
          endpoint := urlMatch;
        } else {
          var fstrMatch := FirstFrom(|body|, (p: nat) => FStringAt(body, p, m), 0);
          if fstrMatch.Some? {
            endpoint := fstrMatch;
          }
        }
        return;
      }
      k := k + 1;
    }
  }

  /** What `_extract_test_functions` reports for a definition named `test_*`. */
  function TestPatternOf(d: Def): Option<TestFunctionPattern>
  {
    var name := NameOf(d.node);
    if !StartsWith(name, "test_") then None
    else
      var call := DetectCall(d.node.text, HttpMethods);
      Some(TestFunctionPattern(name, Docstring(d.node), DecoratorsOf(d), Parameters(d.node), call.0, call.1,
        Assertions(d.node.text), [], Summarize(d.node.text), d.node.endRow - d.node.startRow + 1))
  }

  /** `_extract_test_functions`: one pattern per definition named `test_*`, in the order they are found. */
  function TestFunctions(root: Node): seq<TestFunctionPattern>
  {
    Pick(FunctionDefs(root), TestPatternOf)
  }

  /** `_extract_test_functions` */
  method ExtractTestFunctions(root: Node) returns (functions: seq<TestFunctionPattern>)
    ensures functions == TestFunctions(root)
  {
    var defs := FunctionDefs(root);
    functions := [];
    for i := 0 to |defs|
      invariant functions == Pick(defs[..i], TestPatternOf)
    {
      PickSnoc(defs, i, TestPatternOf);
      var pattern := TestPattern(defs[i]);
      if pattern.Some? {
        functions := functions + [pattern.value];
      }
    }
    assert defs[..|defs|] == defs;
  }

  /** The pattern of a definition named `test_*`, field by field. */
  lemma TestPatternParts(d: Def)
    requires StartsWith(NameOf(d.node), "test_")
    ensures var call := DetectCall(d.node.text, HttpMethods);
      TestPatternOf(d) == Some(TestFunctionPattern(NameOf(d.node), Docstring(d.node), DecoratorsOf(d), Parameters(d.node),
        call.0, call.1, Assertions(d.node.text), [], Summarize(d.node.text), d.node.endRow - d.node.startRow + 1))
  {
  }

  /** The body of the loop of `_extract_test_functions`: nothing for a name not starting `test_`. */
  method TestPattern(d: Def) returns (pattern: Option<TestFunctionPattern>)
    ensures pattern == TestPatternOf(d)
  {
    var node := d.node;
    var name := NameOf(node);
    if !StartsWith(name, "test_") {
      return None;
    }
    TestPatternParts(d);
    var fixturesUsed, assertions, httpMethod, endpoint := BodyFacts(node);
    pattern := Some(TestFunctionPattern(name, Docstring(node), DecoratorsOf(d), fixturesUsed, httpMethod, endpoint,
      assertions, [], Summarize(node.text), node.endRow - node.startRow + 1));
  }

  /** What the body of a test function is scanned for: its parameters, its assertions and its first HTTP call. */
  method BodyFacts(node: Node) returns (fixturesUsed: seq<string>, assertions: seq<AssertionPattern>,
      httpMethod: Option<string>, endpoint: Option<string>)
    ensures fixturesUsed == Parameters(node)
    ensures assertions == Assertions(node.text)
    ensures httpMethod == DetectCall(node.text, HttpMethods).0
    ensures endpoint == DetectCall(node.text, HttpMethods).1
  {
    fixturesUsed := GetParameters(node);
    assertions := ExtractAssertions(node);
    httpMethod, endpoint := DetectHttpCall(node.text);
  }

  /**
   * The test functions are exactly the yielded definitions named `test_*`: every reported test
   * comes from such a definition, and every such definition is reported.
   */
  lemma TestFunctionsNamed(root: Node, d: Def)
    ensures forall t :: t in TestFunctions(root) ==> StartsWith(t.name, "test_")
    ensures d in FunctionDefs(root) && StartsWith(NameOf(d.node), "test_") ==> TestPatternOf(d).value in TestFunctions(root)
  {
    var defs := FunctionDefs(root);
    forall t | t in TestFunctions(root)
      ensures StartsWith(t.name, "test_")
    {
      PickMember(defs, TestPatternOf, t);
    }
    if d in defs && StartsWith(NameOf(d.node), "test_") {
      var i :| 0 <= i < |defs| && defs[i] == d;
      PickMember(defs, TestPatternOf, TestPatternOf(d).value);
    }
  }

  // ---------------------------------------------------------------- helpers and classes

  /** The helper a top-level statement declares: a non-fixture function whose name is neither empty nor `test_*`. */
  function HelperOf(node: Node): Option<string>
  {
    var funcNode :=
      if node.kind == "function_definition" then Some(node)
      else if node.kind == "decorated_definition" && !AnyContains(DecoratorTexts(node.children), "fixture") then
        LastOfKind(node.children, "function_definition")
      else None;
    match funcNode
    case Some(f) => if NameOf(f) != "" && !StartsWith(NameOf(f), "test_") then Some(NameOf(f)) else None
    case None => None
  }

  /** `_extract_helper_functions` */
  function Helpers(root: Node): seq<string>
  {
    Pick(root.children, HelperOf)
  }

  /** `_extract_helper_functions` */
  method ExtractHelperFunctions(root: Node) returns (helpers: seq<string>)
    ensures helpers == Helpers(root)
  {
    helpers := [];
    for i := 0 to |root.children|
      invariant helpers == Pick(root.children[..i], HelperOf)
    {
      PickSnoc(root.children, i, HelperOf);
      var node := root.children[i];
      var funcNode: Option<Node> := None;
      var isFixture := false;
      if node.kind == "function_definition" {
        funcNode := Some(node);
      } else if node.kind == "decorated_definition" {
        isFixture := AnyContains(DecoratorTexts(node.children), "fixture");
        funcNode := LastOfKind(node.children, "function_definition");
      }
      if !isFixture && funcNode.Some? {
        var name := NameOf(funcNode.value);
        if name != "" && !StartsWith(name, "test_") {
          helpers := helpers + [name];
        }
      }
    }
    assert root.children[..|root.children|] == root.children;
  }

  /**
   * Every helper has a non-empty name not starting `test_`, and a fixture is never a helper:
   * a decorated definition with a fixture decorator contributes none.
   */
  lemma HelperRule(root: Node, h: string)
    requires h in Helpers(root)
    ensures h != "" && !StartsWith(h, "test_")
    ensures exists i :: (0 <= i < |root.children| && HelperOf(root.children[i]) == Some(h)
      && !(root.children[i].kind == "decorated_definition" && AnyContains(DecoratorTexts(root.children[i].children), "fixture")))
  {
    PickMember(root.children, HelperOf, h);
  }

  /** The name of a top-level class. */
  function ClassNameOf(node: Node): Option<string>
  {
    if node.kind == "class_definition" then
      match FirstOfKind(node.children, "identifier")
      case Some(c) => Some(c.text)
      case None => None
    else None
  }

  /** `_extract_class_names`: top-level classes only. */
  function ClassNames(root: Node): seq<string>
  {
    Pick(root.children, ClassNameOf)
  }

  /** `_extract_class_names` */
  method ExtractClassNames(root: Node) returns (classes: seq<string>)
    ensures classes == ClassNames(root)
  {
    classes := [];
    for i := 0 to |root.children|
      invariant classes == Pick(root.children[..i], ClassNameOf)
    {
      PickSnoc(root.children, i, ClassNameOf);
      var node := root.children[i];
      if node.kind == "class_definition" {
        var ident := FirstOfKind(node.children, "identifier");
        if ident.Some? {
          classes := classes + [ident.value.text];
        }
      }
    }
    assert root.children[..|root.children|] == root.children;
  }

  /** A class name is reported exactly when a top-level class definition has that identifier. */
  lemma ClassNamesTopLevel(root: Node, c: string)
    ensures c in ClassNames(root) <==> exists i :: (0 <= i < |root.children| && root.children[i].kind == "class_definition"
      && FirstOfKind(root.children[i].children, "identifier").Some? && FirstOfKind(root.children[i].children, "identifier").value.text == c)
  {
    PickMember(root.children, ClassNameOf, c);
  }

  // ---------------------------------------------------------------- a whole file

  /** `parse_python_file` over the tree the parser produced. */
  function GoldenExampleOf(source: string, filePath: string, root: Node): GoldenExample
  {
    GoldenExample(filePath, source, Imports(root), Fixtures(root), TestFunctions(root), Helpers(root), ClassNames(root))
  }

  /** `parse_python_file` */
  method ParsePythonFile(source: string, filePath: string, root: Node) returns (example: GoldenExample)
    ensures example == GoldenExampleOf(source, filePath, root)
  {
    var imports := ExtractImports(root);
    var fixtures := ExtractFixtures(root);
    var testFunctions := ExtractTestFunctions(root);
    var helperFunctions := ExtractHelperFunctions(root);
    var classNames := ExtractClassNames(root);
    example := GoldenExample(filePath, source, imports, fixtures, testFunctions, helperFunctions, classNames);
  }
}
