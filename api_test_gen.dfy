/**
 * The generator agent's response parser: it strips the Markdown fence the model may wrap its
 * answer in, cuts the code into test functions (by the primary pattern, or by splitting before
 * every `def test_` line), names each test and finds the endpoint it calls, and separates the
 * imports from the setup code that precede the first test. When the answer brings no imports,
 * the style guide's common imports are rendered instead.
 */
module ApiTestGen {

  import opened Wrappers
  import opened Text
  import opened StyleGuide
  import opened TestModel

  // ---------------------------------------------------------------- code fences

  const OpenFence: string := "```python"
  const Fence: string := "```"

  /** `re.sub(r"^```python\s*\n?", "", code)`: the tag and every whitespace character after it go. */
  function DropOpenFence(code: string): string
  {
    if StartsWith(code, OpenFence) then StripLeftSet(code[|OpenFence|..], Whitespace) else code
  }

  predicate AllSpaceFrom(s: string, i: nat)
    requires i <= |s|
  {
    forall t :: i <= t < |s| ==> IsSpace(s[t])
  }

  /**
   * `\n?```\s*$` matches at `p`: an optional newline, the fence, then only whitespace up to the
   * end (`$` also matches before a final newline, which is whitespace too).
   */
  predicate CloseFenceAt(s: string, p: nat)
    requires p <= |s|
  {
    (StartsWith(s[p..], "\n" + Fence) && AllSpaceFrom(s, p + 4))
    || (StartsWith(s[p..], Fence) && AllSpaceFrom(s, p + 3))
  }

  /** The leftmost position from `p` on where the closing fence matches. */
  function CloseFenceFrom(s: string, p: nat): (r: Option<nat>)
    requires p <= |s|
    ensures r.Some? ==> p <= r.value <= |s| && CloseFenceAt(s, r.value)
    decreases |s| - p
  {
    if CloseFenceAt(s, p) then Some(p)
    else if p == |s| then None
    else CloseFenceFrom(s, p + 1)
  }

  /** `re.sub(r"\n?```\s*$", "", code)`: everything from the leftmost match on goes. */
  function DropCloseFence(code: string): string
  {
    match CloseFenceFrom(code, 0)
    case Some(p) => code[..p]
    case None => code
  }

  /** Lines 103-106: strip, drop the fences, strip again. */
  function StripFences(raw: string): string
  {
    Strip(DropCloseFence(DropOpenFence(Strip(raw))))
  }

  /** No position before `q` matches the closing fence. */
  lemma {:induction false} CloseFenceSkip(s: string, p: nat, q: nat)
    requires p <= q <= |s|
    requires forall t :: p <= t < q ==> !CloseFenceAt(s, t)
    ensures CloseFenceFrom(s, p) == CloseFenceFrom(s, q)
    decreases q - p
  {
    if p < q {
      CloseFenceSkip(s, p + 1, q);
    }
  }

  /**
   * On a string that does not end in whitespace the closing-fence substitution removes exactly a
   * trailing fence, together with the newline before it when there is one.
   */
  lemma DropCloseFenceRule(s: string)
    requires s == [] || !IsSpace(s[|s| - 1])
    ensures DropCloseFence(s) ==
      if EndsWith(s, "\n" + Fence) then s[..|s| - 4]
      else if EndsWith(s, Fence) then s[..|s| - 3]
      else s
  {
    var q := if EndsWith(s, "\n" + Fence) then |s| - 4 else if EndsWith(s, Fence) then |s| - 3 else |s|;
    forall t | 0 <= t < q
      ensures !CloseFenceAt(s, t)
    {
      if t + 4 < |s| {
        assert !IsSpace(s[|s| - 1]);
      } else if t + 4 == |s| {
        assert s[t..] == s[|s| - 4..];
        assert !IsSpace(s[|s| - 1]);
      } else if t + 3 == |s| {
        assert s[t..] == s[|s| - 3..];
      }
    }
    CloseFenceSkip(s, 0, q);
    if q == |s| {
      assert !CloseFenceAt(s, q);
    } else {
      assert CloseFenceAt(s, q);
    }
  }

  /** Stripping a string that starts with a non-whitespace character only works on its right end. */
  lemma StripFromKept(s: string)
    requires s != [] && !IsSpace(s[0])
    ensures Strip(s) == StripRightSet(s, Whitespace)
  {
  }

  /** The opening substitution on a tagged answer drops the tag and the whitespace after it. */
  lemma DropOpenFenceTagged(rest: string)
    ensures DropOpenFence(OpenFence + rest) == StripLeftSet(rest, Whitespace)
  {
    assert (OpenFence + rest)[..|OpenFence|] == OpenFence;
    assert (OpenFence + rest)[|OpenFence|..] == rest;
  }

  /** Left-stripping a fenced body stops at the body's first kept character, or at the fence. */
  lemma LeftStripFencedBody(body: string)
    ensures StripLeftSet("\n" + body + "\n" + Fence, Whitespace) ==
      if StripLeftSet(body, Whitespace) == [] then Fence else StripLeftSet(body, Whitespace) + "\n" + Fence
  {
    var l := StripLeftSet(body, Whitespace);
    StripLeftSetSuffix(body, Whitespace);
    var pre := body[..|body| - |l|];
    assert body == pre + l;
    if l == [] {
      assert "\n" + body + "\n" + Fence == ("\n" + body + "\n") + Fence;
      StripLeftPrefix("\n" + body + "\n", Fence, Whitespace);
    } else {
      assert "\n" + body + "\n" + Fence == ("\n" + pre) + (l + "\n" + Fence);
      StripLeftPrefix("\n" + pre, l + "\n" + Fence, Whitespace);
    }
  }

  /**
   * Wrapping code in a Python fence and parsing the answer gives the stripped code back: the
   * fence tag, the newline after it and the closing fence all disappear.
   */
  lemma FenceRoundTrip(body: string)
    ensures StripFences(OpenFence + "\n" + body + "\n" + Fence) == Strip(body)
  {
    var rest := "\n" + body + "\n" + Fence;
    var raw := OpenFence + rest;
    assert raw == OpenFence + "\n" + body + "\n" + Fence;
    StripSetNoop(raw, Whitespace);
    DropOpenFenceTagged(rest);
    LeftStripFencedBody(body);
    var l := StripLeftSet(body, Whitespace);
    if l == [] {
      DropCloseFenceRule(Fence);
    } else {
      var t := l + "\n" + Fence;
      DropCloseFenceRule(t);
      assert t[..|t| - 4] == l;
      StripFromKept(l);
    }
  }

  /** An answer without fences is only stripped. */
  lemma NoFenceOnlyStrips(raw: string)
    requires !StartsWith(Strip(raw), OpenFence) && !EndsWith(Strip(raw), Fence)
    ensures StripFences(raw) == Strip(raw)
  {
    var s := Strip(raw);
    DropCloseFenceRule(s);
    StripSetIdempotent(raw, Whitespace);
  }

  // ---------------------------------------------------------------- the first test header

  /** `[\w.]`: the characters of a dotted decorator name. */
  predicate IsNameChar(c: char) { IsWordChar(c) || c == '.' }

  /** The end of the maximal run of name characters from `i`. */
  function NameRunEnd(s: string, i: nat): (j: nat)
    requires i <= |s|
    ensures i <= j <= |s|
    decreases |s| - i
  {
    if i < |s| && IsNameChar(s[i]) then NameRunEnd(s, i + 1) else i
  }

  /**
   * `(?:\(.*?\))?` ends at `m` when it starts at `j`: either it is skipped, or it is a parenthesised
   * group on one line (`.` does not match a newline here). The lazy `.*?` may still grow past an
   * inner `)` when what follows fails, so every closing parenthesis on the line is a candidate.
   */
  predicate GroupEnd(s: string, j: nat, m: nat)
    requires j <= m <= |s|
  {
    m == j || (j + 2 <= m && s[j] == '(' && s[m - 1] == ')' && forall t :: j < t < m - 1 ==> s[t] != '\n')
  }

  /**
   * `@[\w.]+(?:\(.*?\))?\s*\n` matches exactly `s[p..e]`. The name run is taken whole: a shorter
   * run would leave a name character where the pattern needs `(`, whitespace or a newline.
   */
  predicate DecoratorLine(s: string, p: nat, e: nat)
    requires p < e <= |s|
  {
    var j := NameRunEnd(s, p + 1);
    s[p] == '@' && j > p + 1 && s[e - 1] == '\n'
    && exists m :: j <= m < e && GroupEnd(s, j, m) && forall t :: m <= t < e - 1 ==> IsSpace(s[t])
  }

  /** `(?:@[\w.]+(?:\(.*?\))?\s*\n)*def test_` matches from `p`. */
  predicate TestHeadAt(s: string, p: nat)
    requires p <= |s|
    decreases |s| - p
  {
    StartsWith(s[p..], "def test_")
    || exists e :: p < e <= |s| && DecoratorLine(s, p, e) && TestHeadAt(s, e)
  }

  /** The leftmost position from `p` on where a test header matches. */
  function TestHeadFrom(s: string, p: nat): (r: Option<nat>)
    requires p <= |s|
    ensures r.Some? ==> p <= r.value <= |s| && TestHeadAt(s, r.value)
    decreases |s| - p
  {
    if TestHeadAt(s, p) then Some(p)
    else if p == |s| then None
    else TestHeadFrom(s, p + 1)
  }

  /** `re.search(r"(?:@[\w.]+(?:\(.*?\))?\s*\n)*def test_", code)`: where the first test begins. */
  function FirstTestStart(code: string): Option<nat>
  {
    TestHeadFrom(code, 0)
  }

  /** A header that matches reaches a `def test_` at or after its start. */
  lemma {:induction false} TestHeadHasDef(s: string, p: nat) returns (q: nat)
    requires p <= |s| && TestHeadAt(s, p)
    ensures p <= q && q + 9 <= |s| && StartsWith(s[q..], "def test_")
    decreases |s| - p
  {
    if StartsWith(s[p..], "def test_") {
      q := p;
    } else {
      var e :| p < e <= |s| && DecoratorLine(s, p, e) && TestHeadAt(s, e);
      q := TestHeadHasDef(s, e);
    }
  }

  /** A search that fails from `p` saw no header at `q`. */
  lemma {:induction false} TestHeadFromNone(s: string, p: nat, q: nat)
    requires p <= q <= |s| && TestHeadFrom(s, p).None?
    ensures !TestHeadAt(s, q)
    decreases q - p
  {
    if p < q {
      TestHeadFromNone(s, p + 1, q);
    }
  }

  /** The search reports the leftmost header: none starts before it. */
  lemma {:induction false} TestHeadFromLeftmost(s: string, p: nat, q: nat)
    requires p <= q <= |s| && TestHeadFrom(s, p).Some? && q < TestHeadFrom(s, p).value
    ensures !TestHeadAt(s, q)
    decreases q - p
  {
    if p < q {
      TestHeadFromLeftmost(s, p + 1, q);
    }
  }

  /** There is a first test exactly when the code contains `def test_`. */
  lemma FirstTestIff(code: string)
    ensures FirstTestStart(code).Some? <==> Contains(code, "def test_")
  {
    if FirstTestStart(code).Some? {
      var q := TestHeadHasDef(code, FirstTestStart(code).value);
      ContainsAt(code, "def test_", q);
    }
    if Contains(code, "def test_") {
      ContainsIff(code, "def test_");
      var q :| 0 <= q <= |code| - 9 && StartsWith(code[q..], "def test_");
      if FirstTestStart(code).None? {
        TestHeadFromNone(code, 0, q);
      }
    }
  }

  /** The first test starts no later than the first `def test_`. */
  lemma FirstTestNoLater(code: string, q: nat)
    requires q <= |code| && StartsWith(code[q..], "def test_")
    ensures FirstTestStart(code).Some? && FirstTestStart(code).value <= q
  {
    if FirstTestStart(code).None? {
      TestHeadFromNone(code, 0, q);
    } else if q < FirstTestStart(code).value {
      TestHeadFromLeftmost(code, 0, q);
    }
  }

  // ---------------------------------------------------------------- the preamble

  /** A preamble line that still belongs to the imports: an import, a from-import or blank. */
  predicate IsImportLine(line: string)
  {
    var t := Strip(line);
    StartsWith(t, "import ") || StartsWith(t, "from ") || t == []
  }

  /** How many lines the leading run of import lines holds. */
  function ImportRun(lines: seq<string>): (k: nat)
    ensures k <= |lines|
    decreases |lines|
  {
    if lines != [] && IsImportLine(lines[0]) then 1 + ImportRun(lines[1..]) else 0
  }

  /** The run is the longest prefix of import lines: every line in it is one, the next is not. */
  lemma {:induction false} ImportRunMaximal(lines: seq<string>)
    ensures forall j :: 0 <= j < ImportRun(lines) ==> IsImportLine(lines[j])
    ensures ImportRun(lines) < |lines| ==> !IsImportLine(lines[ImportRun(lines)])
    decreases |lines|
  {
    if lines != [] && IsImportLine(lines[0]) {
      ImportRunMaximal(lines[1..]);
    }
  }

  /** When every line is an import line, the run takes them all. */
  lemma {:induction false} ImportRunAll(lines: seq<string>)
    requires forall j :: 0 <= j < |lines| ==> IsImportLine(lines[j])
    ensures ImportRun(lines) == |lines|
    decreases |lines|
  {
    if lines != [] {
      ImportRunAll(lines[1..]);
    }
  }

  /** Line `j` is an import line exactly when it lies inside the run, up to the line that ends it. */
  lemma ImportRunSays(lines: seq<string>, j: nat) returns (inRun: bool)
    requires j < |lines|
    ensures inRun == (j < ImportRun(lines))
    ensures j <= ImportRun(lines) ==> (IsImportLine(lines[j]) <==> j < ImportRun(lines))
  {
    ImportRunMaximal(lines);
    inRun := j < ImportRun(lines);
  }

  /** The import lines joined and stripped, then the remaining lines joined and stripped. */
  function SplitPreamble(lines: seq<string>): (string, string)
  {
    var k := ImportRun(lines);
    (Strip(Join(lines[..k], "\n")), Strip(Join(lines[k..], "\n")))
  }

  /** `_extract_preamble(code)` as a value: no test, no preamble. */
  function PreambleOf(code: string): (string, string)
  {
    match FirstTestStart(code)
    case None => ("", "")
    case Some(start) => SplitPreamble(Split(Strip(code[..start]), '\n'))
  }

  /** Code without a test function has neither imports nor setup. */
  lemma PreambleWithoutTest(code: string)
    requires !Contains(code, "def test_")
    ensures PreambleOf(code) == ("", "")
  {
    FirstTestIff(code);
  }

  /**
   * `_extract_preamble`: the lines before the first test go to the imports until the first line
   * that is neither an import nor blank; that line and all after it go to the setup.
   */
  method ExtractPreamble(code: string) returns (imports: string, setup: string)
    ensures (imports, setup) == PreambleOf(code)
  {
    var first := FirstTestStart(code);
    if first.None? {
      return "", "";
    }
    var lines := Split(Strip(code[..first.value]), '\n');
    imports, setup := SortPreambleLines(lines);
  }

  /** The loop of `_extract_preamble` over the preamble lines, with its `in_imports` flag. */
  method SortPreambleLines(lines: seq<string>) returns (imports: string, setup: string)
    ensures (imports, setup) == SplitPreamble(lines)
  {
    ghost var k := ImportRun(lines);
    var importLines: seq<string> := [];
    var setupLines: seq<string> := [];
    var inImports := true;
    var i := 0;
    while i < |lines|
      invariant 0 <= i <= |lines|
      invariant inImports ==> i <= k && importLines == lines[..i] && setupLines == []
      invariant !inImports ==> k < i && importLines == lines[..k] && setupLines == lines[k..i]
    {
      var line := lines[i];
      ghost var fromRun := ImportRunSays(lines, i);
      if inImports && IsImportLine(line) {
        importLines := importLines + [line];
        assert lines[..i + 1] == lines[..i] + [line];
      } else {
        inImports := false;
        setupLines := setupLines + [line];
        assert lines[k..i + 1] == lines[k..i] + [line];
      }
      i := i + 1;
    }
    if inImports {
      assert lines[k..] == [];
    }
    assert importLines == lines[..k] && setupLines == lines[k..];
    imports := Strip(Join(importLines, "\n"));
    setup := Strip(Join(setupLines, "\n"));
  }

  // ---------------------------------------------------------------- imports from the style guide

  /** One line of `_build_imports_from_style`: a from-import, an aliased import or a plain one. */
  function ImportLine(imp: ImportPattern): string
  {
    if imp.isFromImport then "from " + imp.moduleName + " import " + Join(imp.names, ", ")
    else if imp.alias.Some? && imp.alias.value != [] then "import " + imp.moduleName + " as " + imp.alias.value
    else "import " + imp.moduleName
  }

  /** One line per common import, in order. */
  function StyleImportLines(imps: seq<ImportPattern>): (r: seq<string>)
    ensures |r| == |imps|
    ensures forall i :: 0 <= i < |imps| ==> r[i] == ImportLine(imps[i])
  {
    seq(|imps|, i requires 0 <= i < |imps| => ImportLine(imps[i]))
  }

  /** The imports text rebuilt from a style guide: its lines joined by newlines. */
  function StyleImportsText(imps: seq<ImportPattern>): string
  {
    Join(StyleImportLines(imps), "\n")
  }

  /** `_build_imports_from_style` */
  method BuildImportsFromStyle(guide: TestStyleGuide) returns (text: string)
    ensures text == StyleImportsText(guide.commonImports)
  {
    var imps := guide.commonImports;
    var lines: seq<string> := [];
    for i := 0 to |imps|
      invariant |lines| == i
      invariant forall j :: 0 <= j < i ==> lines[j] == ImportLine(imps[j])
    {
      var imp := imps[i];
      var line: string;
      if imp.isFromImport {
        line := "from " + imp.moduleName + " import " + Join(imp.names, ", ");
      } else if imp.alias.Some? && imp.alias.value != [] {
        line := "import " + imp.moduleName + " as " + imp.alias.value;
      } else {
        line := "import " + imp.moduleName;
      }
      lines := lines + [line];
    }
    assert lines == StyleImportLines(imps);
    text := Join(lines, "\n");
  }

  /**
   * An import the analyzer can produce: its line holds no newline, and a module imported without
   * `from` ends in a non-whitespace character (dotted names never hold whitespace).
   */
  predicate RenderableImport(imp: ImportPattern)
  {
    '\n' !in ImportLine(imp)
    && (imp.isFromImport || (imp.moduleName != [] && !IsSpace(imp.moduleName[|imp.moduleName| - 1])))
  }

  /** Stripping a string whose head starts and ends with kept characters leaves that head in front. */
  lemma StripKeepsHead(head: string, rest: string)
    requires head != [] && !IsSpace(head[0]) && !IsSpace(head[|head| - 1])
    ensures StartsWith(Strip(head + rest), head)
  {
    var s := head + rest;
    assert s[0] == head[0];
    var r := StripRightSet(s, Whitespace);
    StripRightSetPrefix(s, Whitespace);
    assert s[|head| - 1] == head[|head| - 1];
    assert |r| >= |head|;
    assert r[..|head|] == s[..|head|] == head;
  }

  /** A rendered from-import is an import line. */
  lemma FromImportLineIsImport(imp: ImportPattern)
    requires imp.isFromImport
    ensures IsImportLine(ImportLine(imp))
  {
    var head := "from " + imp.moduleName + " import";
    var rest := " " + Join(imp.names, ", ");
    assert ImportLine(imp) == head + rest;
    StripKeepsHead(head, rest);
    var t := Strip(head + rest);
    assert t[..5] == head[..5];
    assert head[..5] == "from ";
  }

  /** A rendered plain or aliased import is an import line when the module ends in a kept character. */
  lemma PlainImportLineIsImport(imp: ImportPattern)
    requires !imp.isFromImport && imp.moduleName != [] && !IsSpace(imp.moduleName[|imp.moduleName| - 1])
    ensures IsImportLine(ImportLine(imp))
  {
    var head := "import " + imp.moduleName;
    var rest := if imp.alias.Some? && imp.alias.value != [] then " as " + imp.alias.value else [];
    assert ImportLine(imp) == head + rest;
    assert head[|head| - 1] == imp.moduleName[|imp.moduleName| - 1];
    StripKeepsHead(head, rest);
    var t := Strip(head + rest);
    assert t[..7] == head[..7];
    assert head[..7] == "import ";
  }

  /** Every rendered line is one the preamble splitter counts as an import line. */
  lemma ImportLineIsImport(imp: ImportPattern)
    requires RenderableImport(imp)
    ensures IsImportLine(ImportLine(imp))
  {
    if imp.isFromImport {
      FromImportLineIsImport(imp);
    } else {
      PlainImportLineIsImport(imp);
    }
  }

  /**
   * The rebuilt imports, read back by the preamble splitter, land entirely in the imports part:
   * the setup part is empty.
   */
  lemma StyleImportsReparse(imps: seq<ImportPattern>)
    requires forall i :: 0 <= i < |imps| ==> RenderableImport(imps[i])
    ensures SplitPreamble(Split(StyleImportsText(imps), '\n')) == (Strip(StyleImportsText(imps)), "")
  {
    var lines := StyleImportLines(imps);
    if imps == [] {
      assert Split(StyleImportsText(imps), '\n') == [[]];
      assert IsImportLine([]);
      assert ImportRun([[]]) == 1;
    } else {
      forall j | 0 <= j < |lines|
        ensures IsImportLine(lines[j]) && '\n' !in lines[j]
      {
        ImportLineIsImport(imps[j]);
      }
      SplitJoin(lines, '\n');
      ImportRunAll(lines);
      assert lines[..|lines|] == lines;
    }
  }

  // ---------------------------------------------------------------- the fallback split

  /** The lookahead `(?=\ndef test_)` succeeds at `p`. */
  predicate BoundaryAt(s: string, p: nat)
    requires p <= |s|
  {
    StartsWith(s[p..], "\ndef test_")
  }

  /** The leftmost boundary at or after `p`. */
  function NextBoundary(s: string, p: nat): (r: Option<nat>)
    requires p <= |s|
    ensures r.Some? ==> p <= r.value < |s| && BoundaryAt(s, r.value)
    decreases |s| - p
  {
    if BoundaryAt(s, p) then Some(p)
    else if p == |s| then None
    else NextBoundary(s, p + 1)
  }

  /** The pieces of `s`, cut before every boundary after its first character. */
  function Pieces(s: string): (r: seq<string>)
    ensures |r| >= 1
    decreases |s|
  {
    if s == [] then [[]]
    else
      match NextBoundary(s, 1)
      case None => [s]
      case Some(q) => [s[..q]] + Pieces(s[q..])
  }

  /**
   * `re.split(r"(?=\ndef test_)", code)`: a cut before every boundary; a boundary at the very
   * start yields an empty first piece.
   */
  function SplitBeforeTests(s: string): seq<string>
  {
    (if BoundaryAt(s, 0) then [[]] else []) + Pieces(s)
  }

  /** `[p.strip() for p in parts if "def test_" in p]` */
  function KeepTestParts(parts: seq<string>): (r: seq<string>)
    ensures |r| <= |parts|
    decreases |parts|
  {
    if parts == [] then []
    else (if Contains(parts[0], "def test_") then [Strip(parts[0])] else []) + KeepTestParts(parts[1..])
  }

  /** The fallback matches of lines 137-138. */
  function FallbackMatches(code: string): seq<string>
  {
    KeepTestParts(SplitBeforeTests(code))
  }

  /**
   * The matches `_extract_test_functions` walks: the primary pattern's (an oracle here, as it is
   * a DOTALL backtracking search), or the fallback split when the primary found nothing.
   */
  function Matches(code: string, primary: string -> seq<string>): (r: seq<string>)
    ensures primary(code) != [] ==> r == primary(code)
  {
    if primary(code) != [] then primary(code) else FallbackMatches(code)
  }

  // ---------------------------------------------------------------- naming a test

  /** The end of the maximal run of `\w` characters from `i`. */
  function WordRunEnd(s: string, i: nat): (j: nat)
    requires i <= |s|
    ensures i <= j <= |s|
    ensures forall t :: i <= t < j ==> IsWordChar(s[t])
    ensures j == |s| || !IsWordChar(s[j])
    decreases |s| - i
  {
    if i < |s| && IsWordChar(s[i]) then WordRunEnd(s, i + 1) else i
  }

  /** `def (test_\w+)` matches at `p`. */
  predicate DefNameAt(s: string, p: nat)
    requires p <= |s|
  {
    StartsWith(s[p..], "def test_") && p + 9 < |s| && IsWordChar(s[p + 9])
  }

  /** Group 1 of the leftmost `def (test_\w+)` from `p` on. */
  function DefNameFrom(s: string, p: nat): (r: Option<string>)
    requires p <= |s|
    decreases |s| - p
  {
    if DefNameAt(s, p) then Some(s[p + 4..WordRunEnd(s, p + 9)])
    else if p == |s| then None
    else DefNameFrom(s, p + 1)
  }

  /** `name` in `_extract_test_functions`: the defined name, else `test_generated_<k>`. */
  function TestName(source: string, k: nat): string
  {
    match DefNameFrom(source, 0)
    case Some(name) => name
    case None => "test_generated_" + NatToString(k)
  }

  /** A found name is `test_` followed by one or more word characters. */
  lemma {:induction false} DefNameShape(s: string, p: nat)
    requires p <= |s| && DefNameFrom(s, p).Some?
    ensures var n := DefNameFrom(s, p).value; |n| > 5 && StartsWith(n, "test_") && AllWordChars(n)
    decreases |s| - p
  {
    if DefNameAt(s, p) {
      var j := WordRunEnd(s, p + 9);
      var n := s[p + 4..j];
      assert s[p..][..9] == "def test_";
      assert s[p + 4..p + 9] == s[p..][..9][4..] == "test_";
      assert n[..5] == s[p + 4..p + 9];
      assert forall t :: 0 <= t < |n| ==> n[t] == s[p + 4 + t];
    } else {
      DefNameShape(s, p + 1);
    }
  }

  /** Every test name, found or generated, is `test_` followed by one or more word characters. */
  lemma TestNameShape(source: string, k: nat)
    ensures var n := TestName(source, k); |n| > 5 && StartsWith(n, "test_") && AllWordChars(n)
  {
    if DefNameFrom(source, 0).Some? {
      DefNameShape(source, 0);
    } else {
      var n := "test_generated_" + NatToString(k);
      assert forall t :: 15 <= t < |n| ==> n[t] == NatToString(k)[t - 15];
    }
  }

  /** A source that opens with `def test_x(` is named `test_x`. */
  lemma TestNameOfHeader(word: string, rest: string, k: nat)
    requires word != [] && AllWordChars(word)
    ensures TestName("def test_" + word + "(" + rest, k) == "test_" + word
  {
    var s := "def test_" + word + "(" + rest;
    assert s[..9] == "def test_";
    assert s[9] == word[0];
    WordRunEndAt(s, 9, 9 + |word|);
    assert s[4..9 + |word|] == "test_" + word;
  }

  /** The word run from `i` stops at `j` when the characters before `j` are word characters and `s[j]` is not. */
  lemma {:induction false} WordRunEndAt(s: string, i: nat, j: nat)
    requires i <= j < |s| && !IsWordChar(s[j])
    requires forall t :: i <= t < j ==> IsWordChar(s[t])
    ensures WordRunEnd(s, i) == j
    decreases j - i
  {
    if i < j {
      WordRunEndAt(s, i + 1, j);
    }
  }

  // ---------------------------------------------------------------- the endpoint a test calls

  /** The HTTP verbs tried, in order. */
  const Verbs: seq<string> := ["get", "post", "put", "patch", "delete"]

  /** The end of the maximal run of whitespace from `i`. */
  function SpaceRunEnd(s: string, i: nat): (j: nat)
    requires i <= |s|
    ensures i <= j <= |s|
    decreases |s| - i
  {
    if i < |s| && IsSpace(s[i]) then SpaceRunEnd(s, i + 1) else i
  }

  /** The first quote at or after `i` on the same line: `(.*?)["']` with `.` stopping at a newline. */
  function QuoteEnd(s: string, i: nat): (r: Option<nat>)
    requires i <= |s|
    ensures r.Some? ==> i <= r.value < |s| && s[r.value] in {'"', '\''}
    decreases |s| - i
  {
    if i == |s| || s[i] == '\n' then None
    else if s[i] in {'"', '\''} then Some(i)
    else QuoteEnd(s, i + 1)
  }

  /**
   * `\.{verb}\s*\(\s*[f"'](.*?)["']` at `p`, giving group 1. Both `\s*` runs are taken whole:
   * a shorter run leaves whitespace where `(` or the opener is needed.
   */
  function CallAt(s: string, verb: string, p: nat): Option<string>
    requires p <= |s|
  {
    if !StartsWith(s[p..], "." + verb) then None
    else
      var a := SpaceRunEnd(s, p + 1 + |verb|);
      if a == |s| || s[a] != '(' then None
      else
        var b := SpaceRunEnd(s, a + 1);
        if b == |s| || s[b] !in {'f', '"', '\''} then None
        else
          match QuoteEnd(s, b + 1)
          case Some(c) => Some(s[b + 1..c])
          case None => None
  }

  /** The leftmost call of `verb` from `p` on. */
  function CallFrom(s: string, verb: string, p: nat): Option<string>
    requires p <= |s|
    decreases |s| - p
  {
    match CallAt(s, verb, p)
    case Some(e) => Some(e)
    case None => if p == |s| then None else CallFrom(s, verb, p + 1)
  }

  /** The method and endpoint of the first verb in `verbs` the source calls. */
  function TargetOf(s: string, verbs: seq<string>): (Option<string>, Option<string>)
    decreases |verbs|
  {
    if verbs == [] then (None, None)
    else
      match CallFrom(s, verbs[0], 0)
      case Some(e) => (Some(Upper(verbs[0])), Some(e))
      case None => TargetOf(s, verbs[1..])
  }

  /**
   * The method is found exactly when the endpoint is; it is the upper-cased first verb that the
   * source calls, and no earlier verb is called at all.
   */
  lemma {:induction false} TargetPriority(s: string, verbs: seq<string>)
    ensures TargetOf(s, verbs).0.Some? <==> TargetOf(s, verbs).1.Some?
    ensures TargetOf(s, verbs).0.None? <==> forall i :: 0 <= i < |verbs| ==> CallFrom(s, verbs[i], 0).None?
    ensures TargetOf(s, verbs).0.Some? ==>
      exists i :: 0 <= i < |verbs| && TargetOf(s, verbs) == (Some(Upper(verbs[i])), CallFrom(s, verbs[i], 0))
        && forall j :: 0 <= j < i ==> CallFrom(s, verbs[j], 0).None?
    decreases |verbs|
  {
    if verbs != [] && CallFrom(s, verbs[0], 0).None? {
      TargetPriority(s, verbs[1..]);
      if TargetOf(s, verbs).0.Some? {
        var i :| 0 <= i < |verbs[1..]| && TargetOf(s, verbs[1..]) == (Some(Upper(verbs[1..][i])), CallFrom(s, verbs[1..][i], 0))
          && forall j :: 0 <= j < i ==> CallFrom(s, verbs[1..][j], 0).None?;
        assert TargetOf(s, verbs) == (Some(Upper(verbs[i + 1])), CallFrom(s, verbs[i + 1], 0));
      }
    }
  }

  /** An f-string URL yields an empty endpoint: the lazy group stops at the quote after `f`. */
  lemma FStringEndpoint(s: string, verb: string, p: nat)
    requires p + |verb| + 4 <= |s| && StartsWith(s[p..], "." + verb + "(f")
    requires s[p + |verb| + 3] in {'"', '\''}
    ensures CallAt(s, verb, p) == Some([])
  {
    assert s[p..][..1 + |verb|] == "." + verb;
    var a := p + 1 + |verb|;
    assert s[a] == '(' && s[a + 1] == 'f';
    assert SpaceRunEnd(s, a) == a;
    assert SpaceRunEnd(s, a + 1) == a + 1;
    assert QuoteEnd(s, a + 2) == Some(a + 2);
    assert StartsWith(s[p..], "." + verb);
    assert CallAt(s, verb, p) == Some(s[a + 2..a + 2]);
    assert |s[a + 2..a + 2]| == 0;
  }

  // ---------------------------------------------------------------- the extracted tests

  /** One extracted test, built from a stripped match. */
  function TestOf(source: string, k: nat, id: string): GeneratedTest
  {
    var target := TargetOf(source, Verbs);
    GeneratedTest(id, TestName(source, k), [], source, Api, target.1, target.0, 0.0)
  }

  /**
   * One value per match that is not blank once stripped, made from the stripped match and the
   * number of values before it.
   */
  function Numbered<T>(ms: seq<string>, make: (string, nat) -> T): seq<T>
    decreases |ms|
  {
    if ms == [] then []
    else
      var prev := Numbered(ms[..|ms| - 1], make);
      var source := Strip(ms[|ms| - 1]);
      if source == [] then prev else prev + [make(source, |prev|)]
  }

  /**
   * The tests of `_extract_test_functions`: one per match that is not blank once stripped, the
   * `k`-th numbered by the tests before it and given the `k`-th fresh id.
   */
  function TestsOf(ms: seq<string>, newId: nat -> string): seq<GeneratedTest>
  {
    Numbered(ms, (source: string, k: nat) => TestOf(source, k, newId(k)))
  }

  /** One more match adds one value unless it is blank once stripped. */
  lemma NumberedStep<T>(ms: seq<string>, i: nat, make: (string, nat) -> T)
    requires i < |ms|
    ensures var prev := Numbered(ms[..i], make);
      Numbered(ms[..i + 1], make) == if Strip(ms[i]) == [] then prev else prev + [make(Strip(ms[i]), |prev|)]
  {
    assert ms[..i + 1][..i] == ms[..i];
    assert ms[..i + 1][i] == ms[i];
  }

  /** One more match adds one test unless it is blank once stripped. */
  lemma TestsOfStep(ms: seq<string>, i: nat, newId: nat -> string)
    requires i < |ms|
    ensures var prev := TestsOf(ms[..i], newId);
      TestsOf(ms[..i + 1], newId) ==
        if Strip(ms[i]) == [] then prev else prev + [TestOf(Strip(ms[i]), |prev|, newId(|prev|))]
  {
    NumberedStep(ms, i, (source: string, k: nat) => TestOf(source, k, newId(k)));
  }

  /** The first-verb loop of lines 149-156. */
  method DetectTarget(source: string) returns (httpMethod: Option<string>, endpoint: Option<string>)
    ensures (httpMethod, endpoint) == TargetOf(source, Verbs)
  {
    httpMethod, endpoint := None, None;
    var i := 0;
    while i < |Verbs|
      invariant 0 <= i <= |Verbs|
      invariant TargetOf(source, Verbs) == TargetOf(source, Verbs[i..])
      invariant httpMethod.None? && endpoint.None?
    {
      var found := CallFrom(source, Verbs[i], 0);
      if found.Some? {
        httpMethod, endpoint := Some(Upper(Verbs[i])), found;
        return;
      }
      assert Verbs[i..][1..] == Verbs[i + 1..];
      i := i + 1;
    }
  }

  /** `_extract_test_functions`, with the primary pattern and the id source as parameters. */
  method ExtractTestFunctions(code: string, primary: string -> seq<string>, newId: nat -> string)
    returns (tests: seq<GeneratedTest>)
    ensures tests == TestsOf(Matches(code, primary), newId)
  {
    var ms := primary(code);
    if ms == [] {
      ms := FallbackMatches(code);
    }
    tests := [];
    for i := 0 to |ms|
      invariant tests == TestsOf(ms[..i], newId)
    {
      TestsOfStep(ms, i, newId);
      var source := Strip(ms[i]);
      if source != [] {
        var name := TestName(source, |tests|);
        var httpMethod, endpoint := DetectTarget(source);
        var test := GeneratedTest(newId(|tests|), name, [], source, Api, endpoint, httpMethod, 0.0);
        assert test == TestOf(source, |tests|, newId(|tests|));
        tests := tests + [test];
      }
    }
    assert ms[..|ms|] == ms;
  }

  // ---------------------------------------------------------------- the fallback split of a rendered suite

  /** A test part the fallback split can find again: it opens with `def test_` and no later line does. */
  predicate SplittableTest(source: string)
  {
    StartsWith(Strip(source), "def test_") && !Contains(Strip(source), "\ndef test_")
  }

  /** A stripped test part: it opens with `def test_`, ends in a kept character, and no later line opens a test. */
  predicate TestPart(t: string)
  {
    StartsWith(t, "def test_") && !IsSpace(t[|t| - 1]) && !Contains(t, "\ndef test_")
  }

  /** Every part is a stripped test part. */
  predicate SplittableParts(ts: seq<string>)
    decreases |ts|
  {
    ts == [] || (TestPart(ts[0]) && SplittableParts(ts[1..]))
  }

  /** Skipping positions without a boundary does not change the search. */
  lemma {:induction false} NextBoundarySkip(x: string, p: nat, q: nat)
    requires p <= q <= |x|
    requires forall t :: p <= t < q ==> !BoundaryAt(x, t)
    ensures NextBoundary(x, p) == NextBoundary(x, q)
    decreases q - p
  {
    if p < q {
      NextBoundarySkip(x, p + 1, q);
    }
  }

  /** A boundary whose window lies inside a copy of `t` is an occurrence in `t`. */
  lemma WindowInside(x: string, t: string, o: nat, p: nat)
    requires o <= p && p + 10 <= o + |t| <= |x| && x[o..o + |t|] == t
    ensures BoundaryAt(x, p) ==> Contains(t, "\ndef test_")
  {
    if BoundaryAt(x, p) {
      var i := p - o;
      assert forall k :: 0 <= k < 10 ==> t[i..][..10][k] == x[p..][..10][k];
      assert t[i..][..10] == x[p..][..10];
      ContainsAt(t, "\ndef test_", i);
    }
  }

  /** A newline in the window after its first character rules a boundary out. */
  lemma WindowHitsNewline(x: string, p: nat, n: nat)
    requires p < n < p + 10 && n < |x| && x[n] == '\n'
    ensures !BoundaryAt(x, p)
  {
    var w := "\ndef test_";
    assert forall k :: 1 <= k < 10 ==> w[k] != '\n';
    if p + 10 <= |x| {
      assert x[p..][..10][n - p] == '\n';
    }
  }

  /** An occurrence of `\n` + `w` holds an occurrence of `w`. */
  lemma ContainsAfterNewline(s: string)
    ensures Contains(s, "\ndef test_") ==> Contains(s, "def test_")
  {
    if Contains(s, "\ndef test_") {
      ContainsIff(s, "\ndef test_");
      var i :| 0 <= i <= |s| - 10 && StartsWith(s[i..], "\ndef test_");
      assert s[i + 1..][..9] == s[i..][..10][1..];
      ContainsAt(s, "def test_", i + 1);
    }
  }

  /** `def test_` cannot start a string that has a newline among its first nine characters. */
  lemma StartsBeforeNewlines(h: string, nl: string)
    requires forall k :: 0 <= k < |nl| ==> nl[k] == '\n'
    ensures StartsWith(h + nl, "def test_") ==> StartsWith(h, "def test_")
  {
    var w := "def test_";
    assert forall k :: 0 <= k < 9 ==> w[k] != '\n';
    if |h| >= 9 {
      assert (h + nl)[..9] == h[..9];
    } else if |nl| > 0 {
      assert (h + nl)[|h|] == '\n';
    }
  }

  /** Newlines after a string add no occurrence of `def test_`. */
  lemma {:induction false} ContainsBeforeNewlines(h: string, nl: string)
    requires forall k :: 0 <= k < |nl| ==> nl[k] == '\n'
    ensures Contains(h + nl, "def test_") ==> Contains(h, "def test_")
    decreases |h| + |nl|
  {
    StartsBeforeNewlines(h, nl);
    if h == [] {
      if nl != [] {
        assert (h + nl)[1..] == [] + nl[1..];
        ContainsBeforeNewlines([], nl[1..]);
      }
    } else {
      assert (h + nl)[1..] == h[1..] + nl;
      ContainsBeforeNewlines(h[1..], nl);
    }
  }

  /** A search that finds a boundary finds an occurrence of it. */
  lemma NextBoundaryContains(x: string, p: nat)
    requires p <= |x|
    ensures NextBoundary(x, p).Some? ==> Contains(x, "\ndef test_")
  {
    if NextBoundary(x, p).Some? {
      var q := NextBoundary(x, p).value;
      ContainsAt(x, "\ndef test_", q);
    }
  }

  /** Stripping newlines around a string that starts and ends with kept characters gives the string. */
  lemma StripFramed(lead: string, t: string, trail: string)
    requires forall k :: 0 <= k < |lead| ==> lead[k] == '\n'
    requires forall k :: 0 <= k < |trail| ==> trail[k] == '\n'
    requires t != [] && !IsSpace(t[0]) && !IsSpace(t[|t| - 1])
    ensures Strip(lead + t + trail) == t
  {
    assert lead + t + trail == lead + (t + trail);
    StripLeftPrefix(lead, t + trail, Whitespace);
    StripRightSuffix(t, trail, Whitespace);
  }

  /** A test part opens with `d`. */
  lemma TestPartStart(t: string)
    requires TestPart(t)
    ensures |t| >= 9 && t[0] == 'd'
  {
    assert t[..9] == "def test_";
  }

  /**
   * No boundary inside the chunk `lead + t` and the newlines after it, past its first character:
   * a window inside `t` would be an occurrence in `t`, and any other window holds a newline after
   * its first character.
   */
  lemma ChunkClear(x: string, lead: string, t: string, p: nat)
    requires lead == [] || lead == "\n"
    requires !Contains(t, "\ndef test_")
    requires |lead| + |t| <= |x| && x[..|lead| + |t|] == lead + t
    requires forall k :: |lead| + |t| <= k < |x| && k <= |lead| + |t| + 2 ==> x[k] == '\n'
    requires 1 <= p < |x| && p <= |lead| + |t| + 1
    ensures !BoundaryAt(x, p)
  {
    var o := |lead|;
    assert x[o..o + |t|] == t;
    if p + 10 > |x| {
    } else if p + 10 <= o + |t| {
      WindowInside(x, t, o, p);
    } else if p < o + |t| {
      WindowHitsNewline(x, p, o + |t|);
    } else {
      WindowHitsNewline(x, p, p + 1);
    }
  }

  /** A piece that holds `def test_` is kept, stripped. */
  lemma KeepFirst(u: string, ys: seq<string>)
    requires Contains(u, "def test_")
    ensures KeepTestParts([u] + ys) == [Strip(u)] + KeepTestParts(ys)
  {
    assert ([u] + ys)[1..] == ys;
  }

  /** A chunk made of a test part between newlines is kept, stripped back to the part. */
  lemma KeepChunk(lead: string, t: string, trail: string, ys: seq<string>)
    requires lead == [] || lead == "\n"
    requires trail == [] || trail == "\n" || trail == "\n\n"
    requires TestPart(t)
    ensures KeepTestParts([lead + t + trail] + ys) == [t] + KeepTestParts(ys)
  {
    TestPartStart(t);
    StripFramed(lead, t, trail);
    ContainsInConcat(lead, t, trail, "def test_");
    KeepFirst(lead + t + trail, ys);
  }

  /** The last test part, followed by at most the final newline, is one piece that strips back to the part. */
  lemma LastChunkPieces(lead: string, t: string, end: string)
    requires lead == [] || lead == "\n"
    requires end == [] || end == "\n"
    requires TestPart(t)
    ensures KeepTestParts(Pieces(lead + t + end)) == [t]
  {
    TestPartStart(t);
    var x := lead + t + end;
    assert x[..|lead| + |t|] == lead + t;
    forall p | 1 <= p < |x|
      ensures !BoundaryAt(x, p)
    {
      ChunkClear(x, lead, t, p);
    }
    NextBoundarySkip(x, 1, |x|);
    assert Pieces(x) == [x];
    KeepChunk(lead, t, end, []);
    assert [x] + [] == [x];
  }

  /** A test part followed by a blank line and the next test part is cut right before that next part. */
  lemma ChunkThenRun(lead: string, t: string, next: string, end: string)
    requires lead == [] || lead == "\n"
    requires TestPart(t)
    requires StartsWith(next, "def test_")
    ensures Pieces(lead + t + "\n\n" + ("\n" + next + end)) == [lead + t + "\n\n"] + Pieces("\n" + next + end)
  {
    TestPartStart(t);
    var u := lead + t + "\n\n";
    var v := "\n" + next + end;
    var x := u + v;
    assert x[..|lead| + |t|] == lead + t;
    assert x[|u|] == '\n';
    forall p | 1 <= p < |u|
      ensures !BoundaryAt(x, p)
    {
      ChunkClear(x, lead, t, p);
    }
    assert x[|u|..] == v;
    assert v[1..10] == next[..9];
    assert BoundaryAt(x, |u|);
    NextBoundarySkip(x, 1, |u|);
    assert x[..|u|] == u;
  }

  /**
   * The fallback split of a run of test parts, each followed by blank lines as the renderer
   * writes them, keeps exactly those parts.
   */
  lemma {:induction false} TestRunPieces(lead: string, ts: seq<string>, end: string)
    requires lead == [] || lead == "\n"
    requires end == [] || end == "\n"
    requires |ts| >= 1
    requires SplittableParts(ts)
    ensures KeepTestParts(Pieces(lead + Join(ts, PartSeparator) + end)) == ts
    decreases |ts|
  {
    var t := ts[0];
    if |ts| == 1 {
      assert Join(ts, PartSeparator) == t;
      LastChunkPieces(lead, t, end);
    } else {
      var rest := ts[1..];
      var next := Join(rest, PartSeparator);
      var u := lead + t + "\n\n";
      var v := "\n" + next + end;
      assert Join(ts, PartSeparator) == t + PartSeparator + next;
      Regroup(lead, t, next, end);
      JoinHead(rest, PartSeparator);
      assert SplittableParts(rest);
      assert next[..9] == rest[0][..9];
      ChunkThenRun(lead, t, next, end);
      KeepChunk(lead, t, "\n\n", Pieces(v));
      TestRunPieces("\n", rest, end);
      assert ts == [t] + rest;
    }
  }

  /** The blank-line separator splits as two newlines closing one chunk and one opening the next. */
  lemma Regroup(lead: string, t: string, next: string, end: string)
    ensures lead + (t + PartSeparator + next) + end == (lead + t + "\n\n") + ("\n" + next + end)
  {
  }

  /** A piece without `def test_` is dropped. */
  lemma SkipFirst(u: string, ys: seq<string>)
    requires !Contains(u, "def test_")
    ensures KeepTestParts([u] + ys) == KeepTestParts(ys)
  {
    assert ([u] + ys)[1..] == ys;
  }

  /** A preamble without `def test_`, then the tests, is cut right before the first test. */
  lemma HeadThenRun(h: string, next: string, end: string)
    requires !Contains(h, "def test_") && StartsWith(next, "def test_")
    ensures var x := h + "\n\n" + ("\n" + next + end);
      !BoundaryAt(x, 0) && Pieces(x) == [h + "\n\n"] + Pieces("\n" + next + end)
  {
    var w := h + "\n\n";
    var v := "\n" + next + end;
    var x := w + v;
    assert x[..|h|] == h;
    assert x[|h|] == '\n' && x[|h| + 1] == '\n' && x[|h| + 2] == '\n';
    ContainsAfterNewline(h);
    forall p | 0 <= p < |w|
      ensures !BoundaryAt(x, p)
    {
      assert x[0..|h|] == h;
      if p + 10 > |x| {
      } else if p + 10 <= |h| {
        WindowInside(x, h, 0, p);
      } else if p < |h| {
        WindowHitsNewline(x, p, |h|);
      } else {
        WindowHitsNewline(x, p, p + 1);
      }
    }
    assert x[|w|..] == v;
    assert v[1..10] == next[..9];
    assert BoundaryAt(x, |w|);
    NextBoundarySkip(x, 1, |w|);
    assert x[..|w|] == w;
  }

  /** The stripped test sources are stripped and splittable parts. */
  lemma {:induction false} TestPartsSplittable(tests: seq<GeneratedTest>)
    requires forall i :: 0 <= i < |tests| ==> SplittableTest(tests[i].sourceCode)
    ensures SplittableParts(TestParts(tests))
    decreases |tests|
  {
    if tests != [] {
      StripSetIdempotent(tests[0].sourceCode, Whitespace);
      TestPartsSplittable(tests[1..]);
      assert TestParts(tests)[1..] == TestParts(tests[1..]);
    }
  }

  /** A preamble without tests splits into nothing. */
  lemma HeadOnlyRoundTrip(h: string, end: string)
    requires end == [] || end == "\n"
    requires !Contains(h, "def test_")
    ensures FallbackMatches(h + end) == []
  {
    var text := h + end;
    ContainsBeforeNewlines(h, end);
    ContainsAfterNewline(text);
    NextBoundaryContains(text, 0);
    if text != [] {
      NextBoundaryContains(text, 1);
      assert Pieces(text) == [text];
    }
    SkipFirst(text, []);
  }

  /** A run of test parts starts with `def test_`. */
  lemma RunStart(ts: seq<string>)
    requires |ts| >= 1 && SplittableParts(ts)
    ensures StartsWith(Join(ts, PartSeparator), "def test_")
    ensures |Join(ts, PartSeparator)| >= 9 && Join(ts, PartSeparator)[0] == 'd'
  {
    var t := ts[0];
    assert TestPart(t);
    TestPartStart(t);
    JoinHead(ts, PartSeparator);
    assert Join(ts, PartSeparator)[..9] == t[..9];
  }

  /** Without a boundary at the start, the fallback keeps from the pieces alone. */
  lemma FallbackOfPieces(x: string)
    requires x != [] && x[0] != '\n'
    ensures FallbackMatches(x) == KeepTestParts(Pieces(x))
  {
    assert !BoundaryAt(x, 0);
    FallbackWithoutLead(x);
  }

  /** Without a boundary at position 0 the split has no leading empty part. */
  lemma FallbackWithoutLead(x: string)
    requires !BoundaryAt(x, 0)
    ensures FallbackMatches(x) == KeepTestParts(Pieces(x))
  {
    assert [] + Pieces(x) == Pieces(x);
  }

  /** Test parts alone split back into themselves. */
  lemma TestsOnlyRoundTrip(ts: seq<string>, end: string)
    requires end == [] || end == "\n"
    requires |ts| >= 1
    requires SplittableParts(ts)
    ensures FallbackMatches(Join(ts, PartSeparator) + end) == ts
  {
    var next := Join(ts, PartSeparator);
    RunStart(ts);
    TestRunPieces([], ts, end);
    PiecesOfRun(next, end, ts);
  }

  /** Moving the empty lead out of the way, for a run that does not open with a newline. */
  lemma PiecesOfRun(next: string, end: string, ts: seq<string>)
    requires |next| >= 1 && next[0] == 'd'
    requires KeepTestParts(Pieces([] + next + end)) == ts
    ensures FallbackMatches(next + end) == ts
  {
    assert [] + next + end == next + end;
    FallbackOfPieces(next + end);
  }

  /** A preamble then test parts split back into the test parts. */
  lemma HeadAndTestsRoundTrip(h: string, ts: seq<string>, end: string)
    requires end == [] || end == "\n"
    requires |ts| >= 1 && !Contains(h, "def test_")
    requires SplittableParts(ts)
    ensures FallbackMatches(h + PartSeparator + Join(ts, PartSeparator) + end) == ts
  {
    RunStart(ts);
    TestRunPieces("\n", ts, end);
    HeadThenTests(h, Join(ts, PartSeparator), end, ts);
  }

  /** The preamble piece is dropped and the pieces after it are kept as they are. */
  lemma HeadThenTests(h: string, next: string, end: string, ts: seq<string>)
    requires !Contains(h, "def test_") && StartsWith(next, "def test_")
    requires KeepTestParts(Pieces("\n" + next + end)) == ts
    ensures FallbackMatches(h + PartSeparator + next + end) == ts
  {
    var v := "\n" + next + end;
    var x := h + "\n\n" + v;
    assert h + PartSeparator + next + end == x;
    HeadThenRun(h, next, end);
    ContainsBeforeNewlines(h, "\n\n");
    SkipFirst(h + "\n\n", Pieces(v));
    FallbackWithoutLead(x);
  }

  /** The rendered parts, followed by no newline or by one, split back into the test parts. */
  lemma FallbackRoundTripWith(suite: TestSuite, end: string)
    requires end == [] || end == "\n"
    requires forall i :: 0 <= i < |suite.tests| ==> SplittableTest(suite.tests[i].sourceCode)
    requires !Contains(Join(HeadParts(suite), PartSeparator), "def test_")
    ensures FallbackMatches(Join(FileParts(suite), PartSeparator) + end) == TestParts(suite.tests)
  {
    var ts := TestParts(suite.tests);
    var hs := HeadParts(suite);
    TestPartsSplittable(suite.tests);
    if ts == [] {
      assert FileParts(suite) == hs;
      HeadOnlyRoundTrip(Join(hs, PartSeparator), end);
    } else if hs == [] {
      assert FileParts(suite) == ts;
      TestsOnlyRoundTrip(ts, end);
    } else {
      JoinConcat(hs, ts, PartSeparator);
      assert FileParts(suite) == hs + ts;
      HeadAndTestsRoundTrip(Join(hs, PartSeparator), ts, end);
    }
  }

  /**
   * Rendering a suite to one file and splitting it again before every `def test_` line gives back
   * the stripped test sources, in order, provided each source opens with `def test_`, no later
   * line of it does, and the imports and setup do not mention `def test_`.
   */
  lemma FallbackRoundTrip(suite: TestSuite)
    requires forall i :: 0 <= i < |suite.tests| ==> SplittableTest(suite.tests[i].sourceCode)
    requires !Contains(Join(HeadParts(suite), PartSeparator), "def test_")
    ensures FallbackMatches(ToFileContent(suite)) == TestParts(suite.tests)
  {
    FallbackRoundTripWith(suite, "\n");
  }

  // ---------------------------------------------------------------- the tests of the matches

  /** With no blank match, there is one value per match. */
  lemma {:induction false} NumberedLength<T>(ms: seq<string>, make: (string, nat) -> T)
    requires forall i :: 0 <= i < |ms| ==> Strip(ms[i]) != []
    ensures |Numbered(ms, make)| == |ms|
    decreases |ms|
  {
    if ms != [] {
      NumberedLength(ms[..|ms| - 1], make);
    }
  }

  /** With no blank match, the `i`-th value is made from the `i`-th stripped match and `i`. */
  lemma {:induction false} NumberedAt<T>(ms: seq<string>, make: (string, nat) -> T, i: nat)
    requires forall j :: 0 <= j < |ms| ==> Strip(ms[j]) != []
    requires i < |ms|
    ensures |Numbered(ms, make)| == |ms| && Numbered(ms, make)[i] == make(Strip(ms[i]), i)
    decreases |ms|
  {
    var n := |ms| - 1;
    var init := ms[..n];
    NumberedLength(init, make);
    NumberedStep(ms, n, make);
    assert ms[..n + 1] == ms;
    if i < n {
      NumberedAt(init, make, i);
      assert init[i] == ms[i];
    }
  }

  /** With no blank match, the `i`-th test is built from the `i`-th stripped match, numbered `i`. */
  lemma TestsOfAt(ms: seq<string>, newId: nat -> string, i: nat)
    requires forall j :: 0 <= j < |ms| ==> Strip(ms[j]) != []
    requires i < |ms|
    ensures |TestsOf(ms, newId)| == |ms| && TestsOf(ms, newId)[i] == TestOf(Strip(ms[i]), i, newId(i))
  {
    NumberedAt(ms, (source: string, k: nat) => TestOf(source, k, newId(k)), i);
  }

  /** Every extracted test is an API test with a non-blank source and a `test_` name. */
  lemma {:induction false} TestsOfShape(ms: seq<string>, newId: nat -> string)
    ensures |TestsOf(ms, newId)| <= |ms|
    ensures forall i :: 0 <= i < |TestsOf(ms, newId)| ==>
      var t := TestsOf(ms, newId)[i]; t.sourceCode != [] && t.testType == Api && StartsWith(t.name, "test_")
    decreases |ms|
  {
    if ms != [] {
      var n := |ms| - 1;
      TestsOfShape(ms[..n], newId);
      TestsOfStep(ms, n, newId);
      assert ms[..n + 1] == ms;
      TestNameShape(Strip(ms[n]), |TestsOf(ms[..n], newId)|);
    }
  }

  // ---------------------------------------------------------------- parsing a response

  /** What the generator is given: the style, the examples, an optional map and the application context. */
  datatype GeneratorInput = GeneratorInput(
    styleGuide: TestStyleGuide,
    goldenExamples: seq<GoldenExample>,
    endpointMap: Option<EndpointMap>,
    appDescription: string,
    baseUrl: string,
    numTests: int,
    testedEndpoints: seq<string>,
    untestedEndpoints: seq<string>,
    coverageGaps: seq<string>,
    knownTestNames: seq<string>)

  /** `GeneratorInput` with only the required fields given. */
  function DefaultGeneratorInput(guide: TestStyleGuide, examples: seq<GoldenExample>): GeneratorInput
  {
    GeneratorInput(guide, examples, None, "", "http://localhost:5000", 10, [], [], [], [])
  }

  /**
   * `_parse_response` as a value: the fences stripped, the tests and the preamble extracted, the
   * imports rebuilt from the style guide when the extracted ones are blank. The eight random hex
   * digits of the suite name are the parameter `tag`.
   */
  function ParseResponseOf(raw: string, input: GeneratorInput, primary: string -> seq<string>,
                           newId: nat -> string, tag: string): TestSuite
  {
    var code := StripFences(raw);
    var (imports, setup) := PreambleOf(code);
    TestSuite(
      "generated_api_tests_" + tag,
      "Auto-generated from " + NatToString(|input.goldenExamples|) + " golden examples",
      TestsOf(Matches(code, primary), newId),
      setup,
      if Strip(imports) == [] then StyleImportsText(input.styleGuide.commonImports) else imports,
      "",
      input.appDescription,
      input.baseUrl)
  }

  /** `_parse_response`. */
  method ParseResponse(raw: string, input: GeneratorInput, primary: string -> seq<string>,
                       newId: nat -> string, tag: string) returns (suite: TestSuite)
    ensures suite == ParseResponseOf(raw, input, primary, newId, tag)
  {
    var code := StripFences(raw);
    var tests := ExtractTestFunctions(code, primary, newId);
    var imports, setup := ExtractPreamble(code);
    if Strip(imports) == [] {
      imports := BuildImportsFromStyle(input.styleGuide);
    }
    suite := TestSuite(
      "generated_api_tests_" + tag,
      "Auto-generated from " + NatToString(|input.goldenExamples|) + " golden examples",
      tests, setup, imports, "", input.appDescription, input.baseUrl);
  }

  /** A response without any test has its imports from the style guide and no setup. */
  lemma ParseWithoutTests(raw: string, input: GeneratorInput, primary: string -> seq<string>,
                          newId: nat -> string, tag: string)
    requires !Contains(StripFences(raw), "def test_")
    ensures var suite := ParseResponseOf(raw, input, primary, newId, tag);
      suite.importsCode == StyleImportsText(input.styleGuide.commonImports) && suite.setupCode == []
  {
    PreambleWithoutTest(StripFences(raw));
  }

  /** A style guide with at least one common import always leaves the parsed suite with imports. */
  lemma ParsedImportsPresent(raw: string, input: GeneratorInput, primary: string -> seq<string>,
                             newId: nat -> string, tag: string)
    requires |input.styleGuide.commonImports| >= 1
    ensures Strip(ParseResponseOf(raw, input, primary, newId, tag).importsCode) != []
  {
    var (imports, setup) := PreambleOf(StripFences(raw));
    if Strip(imports) == [] {
      StyleImportsNonBlank(input.styleGuide.commonImports);
    }
  }

  /** The rendered style imports start with `import` or `from`, so they are not blank. */
  lemma StyleImportsNonBlank(imps: seq<ImportPattern>)
    requires |imps| >= 1
    ensures Strip(StyleImportsText(imps)) != []
  {
    var lines := StyleImportLines(imps);
    var text := StyleImportsText(imps);
    JoinHead(lines, "\n");
    var head := ImportLine(imps[0]);
    assert head[0] == 'i' || head[0] == 'f';
    assert text[..1] == head[..1];
    StripLeftPrefix([], text, Whitespace);
    assert StripLeftSet(text, Whitespace) == text;
  }

  /** A part with kept characters at both ends. */
  predicate KeptEnds(t: string)
  {
    t != [] && !IsSpace(t[0]) && !IsSpace(t[|t| - 1])
  }

  /** Under the round-trip conditions every file part has kept characters at both ends. */
  lemma FilePartsKept(suite: TestSuite)
    requires forall i :: 0 <= i < |suite.tests| ==> SplittableTest(suite.tests[i].sourceCode)
    requires suite.importsCode != [] ==> Strip(suite.importsCode) != []
    requires suite.setupCode != [] ==> Strip(suite.setupCode) != []
    ensures forall i :: 0 <= i < |FileParts(suite)| ==> KeptEnds(FileParts(suite)[i])
  {
    StripKeptEnds(suite.importsCode);
    StripKeptEnds(suite.setupCode);
    var hs := HeadParts(suite);
    var ts := TestParts(suite.tests);
    forall i | 0 <= i < |ts|
      ensures KeptEnds(ts[i])
    {
      StripKeptEnds(suite.tests[i].sourceCode);
    }
    assert FileParts(suite) == hs + ts;
  }

  /** A rendered suite with kept ends strips back to the joined parts. */
  lemma StripRendered(suite: TestSuite)
    requires forall i :: 0 <= i < |FileParts(suite)| ==> KeptEnds(FileParts(suite)[i])
    ensures Strip(ToFileContent(suite)) == Join(FileParts(suite), PartSeparator)
  {
    var parts := FileParts(suite);
    var j := Join(parts, PartSeparator);
    if parts == [] {
      StripLeftPrefix("\n", [], Whitespace);
      assert j + "\n" == "\n" + [];
    } else {
      JoinEnds(parts, PartSeparator);
      StripFramed([], j, "\n");
      assert [] + j + "\n" == j + "\n";
    }
  }

  /**
   * A suite rendered to one file and wrapped in a Python fence parses back, through the fallback
   * split, into one test per original test, with the same stripped source, in order.
   */
  lemma ParseRenderedSuite(suite: TestSuite, input: GeneratorInput, primary: string -> seq<string>,
                           newId: nat -> string, tag: string)
    requires forall i :: 0 <= i < |suite.tests| ==> SplittableTest(suite.tests[i].sourceCode)
    requires !Contains(Join(HeadParts(suite), PartSeparator), "def test_")
    requires suite.importsCode != [] ==> Strip(suite.importsCode) != []
    requires suite.setupCode != [] ==> Strip(suite.setupCode) != []
    requires primary(Strip(ToFileContent(suite))) == []
    ensures var parsed := ParseResponseOf(OpenFence + "\n" + ToFileContent(suite) + "\n" + Fence, input, primary, newId, tag);
      |parsed.tests| == |suite.tests| &&
      forall i :: 0 <= i < |suite.tests| ==> parsed.tests[i].sourceCode == Strip(suite.tests[i].sourceCode)
  {
    var raw := OpenFence + "\n" + ToFileContent(suite) + "\n" + Fence;
    var code := Join(FileParts(suite), PartSeparator);
    RenderedCode(suite);
    RenderedMatches(suite, primary);
    var parsed := ParseResponseOf(raw, input, primary, newId, tag);
    assert parsed.tests == TestsOf(Matches(StripFences(raw), primary), newId);
    TestsOfParts(suite.tests, newId);
  }

  /** Stripping the fences of a fenced rendering gives the joined file parts. */
  lemma RenderedCode(suite: TestSuite)
    requires forall i :: 0 <= i < |suite.tests| ==> SplittableTest(suite.tests[i].sourceCode)
    requires suite.importsCode != [] ==> Strip(suite.importsCode) != []
    requires suite.setupCode != [] ==> Strip(suite.setupCode) != []
    ensures StripFences(OpenFence + "\n" + ToFileContent(suite) + "\n" + Fence) == Strip(ToFileContent(suite))
    ensures Strip(ToFileContent(suite)) == Join(FileParts(suite), PartSeparator)
  {
    FenceRoundTrip(ToFileContent(suite));
    FilePartsKept(suite);
    StripRendered(suite);
  }

  /** The joined file parts match, through the fallback split, the stripped test sources. */
  lemma RenderedMatches(suite: TestSuite, primary: string -> seq<string>)
    requires forall i :: 0 <= i < |suite.tests| ==> SplittableTest(suite.tests[i].sourceCode)
    requires !Contains(Join(HeadParts(suite), PartSeparator), "def test_")
    requires primary(Join(FileParts(suite), PartSeparator)) == []
    ensures Matches(Join(FileParts(suite), PartSeparator), primary) == TestParts(suite.tests)
  {
    var code := Join(FileParts(suite), PartSeparator);
    FallbackRoundTripWith(suite, []);
    assert code + [] == code;
  }

  /** The tests made from the stripped sources of splittable tests keep those sources, in order. */
  lemma TestsOfParts(tests: seq<GeneratedTest>, newId: nat -> string)
    requires forall i :: 0 <= i < |tests| ==> SplittableTest(tests[i].sourceCode)
    ensures |TestsOf(TestParts(tests), newId)| == |tests|
    ensures forall i :: 0 <= i < |tests| ==> TestsOf(TestParts(tests), newId)[i].sourceCode == Strip(tests[i].sourceCode)
  {
    var ts := TestParts(tests);
    forall i | 0 <= i < |ts|
      ensures Strip(ts[i]) == ts[i] && ts[i] != []
    {
      StripSetIdempotent(tests[i].sourceCode, Whitespace);
    }
    if ts == [] {
      assert TestsOf(ts, newId) == [];
    } else {
      TestsOfAt(ts, newId, 0);
    }
    forall i | 0 <= i < |ts|
      ensures TestsOf(ts, newId)[i].sourceCode == Strip(tests[i].sourceCode)
    {
      TestsOfAt(ts, newId, i);
    }
  }
}
