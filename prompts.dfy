/**
 * The prompt sections the generator sends: the golden examples as numbered fenced blocks,
 * the application context of earlier runs, and the endpoint map as one line per fact.
 */
module Prompts {

  import opened Wrappers
  import opened Text
  import opened PyValues
  import ApiTestGen

  // ---------------------------------------------------------------- golden examples

  /** The golden-examples template up to its `{examples}` slot. */
  const GoldenExamplesHeader: string :=
    "## Golden Test Examples\n\nThese are reference test files that show the coding style, patterns, "
    + "and conventions to follow. Match their style exactly, but generate tests that are MORE thorough "
    + "and insightful:\n\n"

  /** The heading of the `n`-th example, before its fenced source. */
  function ExampleHeading(n: nat): string
  {
    "### Example " + NatToString(n) + "\n\n"
  }

  /** A source inside a Python code fence. */
  function Fenced(source: string): string
  {
    ApiTestGen.OpenFence + "\n" + source + "\n" + ApiTestGen.Fence
  }

  /** The `n`-th example: its heading, then the source in a Python fence. */
  function ExampleBlock(n: nat, source: string): string
  {
    ExampleHeading(n) + Fenced(source)
  }

  /** The example blocks, numbered from 1 in input order. */
  function ExampleBlocks(sources: seq<string>): (r: seq<string>)
    ensures |r| == |sources|
    decreases |sources|
  {
    if sources == [] then []
    else
      var n := |sources| - 1;
      ExampleBlocks(sources[..n]) + [ExampleBlock(n + 1, sources[n])]
  }

  /** `build_style_context(golden_sources)` as a value. */
  function StyleContextOf(sources: seq<string>): string
  {
    GoldenExamplesHeader + Join(ExampleBlocks(sources), "\n\n") + "\n"
  }

  /** `build_style_context`: one block per source, joined by a blank line, in the template. */
  method BuildStyleContext(sources: seq<string>) returns (context: string)
    ensures context == StyleContextOf(sources)
  {
    var blocks: seq<string> := [];
    for i := 0 to |sources|
      invariant blocks == ExampleBlocks(sources[..i])
    {
      assert sources[..i + 1][..i] == sources[..i];
      blocks := blocks + [ExampleBlock(i + 1, sources[i])];
    }
    assert sources[..|sources|] == sources;
    context := GoldenExamplesHeader + Join(blocks, "\n\n") + "\n";
  }

  /** Block `i` is the example numbered `i + 1` made from source `i`. */
  lemma {:induction false} ExampleBlockAt(sources: seq<string>, i: nat)
    requires i < |sources|
    ensures ExampleBlocks(sources)[i] == ExampleBlock(i + 1, sources[i])
    decreases |sources|
  {
    var n := |sources| - 1;
    if i < n {
      ExampleBlockAt(sources[..n], i);
      assert sources[..n][i] == sources[i];
    }
  }

  /** The digits in the heading of example `n` read back as `n`. */
  lemma HeadingNumber(n: nat)
    ensures var heading := ExampleHeading(n);
      |heading| >= 14 && DigitsValue(heading[12..|heading| - 2]) == n
  {
    var heading := ExampleHeading(n);
    var digits := NatToString(n);
    assert heading == "### Example " + digits + "\n\n";
    assert heading[12..|heading| - 2] == digits;
    NatToStringRoundTrip(n);
  }

  /**
   * The examples are numbered 1, 2, ... in input order: block `i` opens with the heading whose
   * digits read back as `i + 1`, and the fence after the heading strips back to the stripped source `i`.
   */
  lemma ExampleReadBack(sources: seq<string>, i: nat)
    requires i < |sources|
    ensures var block := ExampleBlocks(sources)[i];
      var heading := ExampleHeading(i + 1);
      StartsWith(block, heading) && ApiTestGen.StripFences(block[|heading|..]) == Strip(sources[i])
  {
    ExampleBlockAt(sources, i);
    var heading := ExampleHeading(i + 1);
    var block := heading + Fenced(sources[i]);
    assert block[..|heading|] == heading;
    assert block[|heading|..] == Fenced(sources[i]);
    ApiTestGen.FenceRoundTrip(sources[i]);
  }

  // ---------------------------------------------------------------- application context

  /** Python's truthiness of a `list[str] | None` argument. */
  predicate Given(l: Option<seq<string>>)
  {
    l.Some? && l.value != []
  }

  /** `", ".join(l or ["none"])` */
  function ListOrNone(l: Option<seq<string>>): (r: string)
    ensures !Given(l) ==> r == "none"
    ensures Given(l) ==> r == Join(l.value, ", ")
  {
    if Given(l) then Join(l.value, ", ") else "none"
  }

  /** `l[-20:]`: the last twenty entries, or all of them when there are fewer. */
  function LastTwenty(l: seq<string>): (r: seq<string>)
    ensures |r| == if |l| <= 20 then |l| else 20
    ensures r == l[|l| - |r|..]
  {
    if |l| <= 20 then l else l[|l| - 20..]
  }

  /** The known names as listed: at most the last twenty, or "none". */
  function KnownNamesText(known: Option<seq<string>>): string
  {
    if Given(known) then Join(LastTwenty(known.value), ", ") else "none"
  }

  /** The context template up to the line of known test names. */
  function ContextHead(tested: string, untested: string, gaps: string): string
  {
    "## Application Context\n\n" + "This application has been analyzed before. Here's what we know:\n"
    + "- Previously tested endpoints: " + tested + "\n"
    + "- Untested endpoints: " + untested + "\n"
    + "- Known coverage gaps: " + gaps + "\n"
  }

  /** The line of known test names, with the blank line after it. */
  function KnownNamesLine(known: string): string
  {
    "- Previous test names (do NOT regenerate): " + known + "\n\n"
  }

  const ContextTail: string := "Focus on untested endpoints and coverage gaps first.\n"

  /** The context template filled in. */
  function ContextText(tested: string, untested: string, gaps: string, known: string): string
  {
    ContextHead(tested, untested, gaps) + KnownNamesLine(known) + ContextTail
  }

  /**
   * `build_context_section`: nothing unless some tested endpoint, untested endpoint or coverage
   * gap is given; the known names alone never make a section.
   */
  function ContextSection(tested: Option<seq<string>>, untested: Option<seq<string>>,
                          gaps: Option<seq<string>>, known: Option<seq<string>>): string
  {
    if !Given(tested) && !Given(untested) && !Given(gaps) then ""
    else ContextText(ListOrNone(tested), ListOrNone(untested), ListOrNone(gaps), KnownNamesText(known))
  }

  /** The filled-in template is never empty. */
  lemma ContextTextNonEmpty(tested: string, untested: string, gaps: string, known: string)
    ensures ContextText(tested, untested, gaps, known) != []
  {
    assert |ContextTail| > 0;
  }

  /** The section is empty exactly when no tested endpoint, untested endpoint or coverage gap is given. */
  lemma ContextSectionEmptyIff(tested: Option<seq<string>>, untested: Option<seq<string>>,
                               gaps: Option<seq<string>>, known: Option<seq<string>>)
    ensures ContextSection(tested, untested, gaps, known) == [] <==> !Given(tested) && !Given(untested) && !Given(gaps)
  {
    ContextTextNonEmpty(ListOrNone(tested), ListOrNone(untested), ListOrNone(gaps), KnownNamesText(known));
  }

  /** The known-names line lists the last twenty names, or "none" when there are none. */
  lemma KnownNamesListed(tested: Option<seq<string>>, untested: Option<seq<string>>,
                         gaps: Option<seq<string>>, known: Option<seq<string>>)
    requires Given(tested) || Given(untested) || Given(gaps)
    ensures Contains(ContextSection(tested, untested, gaps, known), KnownNamesLine(KnownNamesText(known)))
    ensures Given(known) && |known.value| > 20 ==> KnownNamesText(known) == Join(known.value[|known.value| - 20..], ", ")
    ensures !Given(known) ==> KnownNamesText(known) == "none"
  {
    var before := ContextHead(ListOrNone(tested), ListOrNone(untested), ListOrNone(gaps));
    var line := KnownNamesLine(KnownNamesText(known));
    var text := before + line + ContextTail;
    ContainsAt(text, line, |before|);
    assert text[|before|..][..|line|] == line;
  }

  // ---------------------------------------------------------------- endpoint information

  /** `f"{v}"`: a string prints as itself, anything else through Python's `str`, an oracle here. */
  function Show(v: Json, repr: Json -> string): string
  {
    if v.JStr? then v.s else repr(v)
  }

  /** `ep.get(key, default)` */
  function GetOr(ep: Dict<Json>, key: string, default: Json): Json
  {
    match Get(ep, key)
    case Some(v) => v
    case None => default
  }

  /** `if ep.get(key):` */
  predicate Present(ep: Dict<Json>, key: string)
  {
    Get(ep, key).Some? && Truthy(Get(ep, key).value)
  }

  /** The header line `- METHOD PATH: DESC`, with the defaults GET, "/" and "". */
  function HeaderLine(ep: Dict<Json>, repr: Json -> string): (r: string)
    ensures StartsWith(r, "- ")
  {
    "- " + Show(GetOr(ep, "method", JStr("GET")), repr) + " " + Show(GetOr(ep, "path", JStr("/")), repr)
    + ": " + Show(GetOr(ep, "description", JStr("")), repr)
  }

  /** The indented line for one optional field, only when its value is truthy. */
  function FieldLine(ep: Dict<Json>, key: string, caption: string, repr: Json -> string): (r: seq<string>)
    ensures |r| <= 1
    ensures r != [] <==> Present(ep, key)
    ensures r != [] ==> StartsWith(r[0], "  " + caption + ": ")
  {
    if Present(ep, key) then ["  " + caption + ": " + Show(Get(ep, key).value, repr)] else []
  }

  /** The auth line, only when `auth_required` is truthy; its type defaults to "required" when the key is absent. */
  function AuthLine(ep: Dict<Json>, repr: Json -> string): (r: seq<string>)
    ensures |r| <= 1
    ensures r != [] <==> Present(ep, "auth_required")
    ensures r != [] ==> StartsWith(r[0], "  Auth: ")
  {
    if Present(ep, "auth_required") then ["  Auth: " + Show(GetOr(ep, "auth_type", JStr("required")), repr)] else []
  }

  /** Without an `auth_type` key the auth line reads "required". */
  lemma AuthDefault(ep: Dict<Json>, repr: Json -> string)
    requires Present(ep, "auth_required") && !HasKey(ep, "auth_type")
    ensures AuthLine(ep, repr) == ["  Auth: required"]
  {
    assert GetOr(ep, "auth_type", JStr("required")) == JStr("required");
    assert "  Auth: " + "required" == "  Auth: required";
  }

  /** `lines` followed by the lines of one endpoint: the header, the optional fields in their fixed order, then auth. */
  function ExtendLines(lines: seq<string>, ep: Dict<Json>, repr: Json -> string): seq<string>
  {
    lines + [HeaderLine(ep, repr)]
    + FieldLine(ep, "request_schema", "Request body schema", repr)
    + FieldLine(ep, "response_schema", "Response schema", repr)
    + FieldLine(ep, "sample_request", "Sample request", repr)
    + FieldLine(ep, "sample_response", "Sample response", repr)
    + FieldLine(ep, "query_params", "Query params", repr)
    + FieldLine(ep, "observed_status_codes", "Observed status codes", repr)
    + AuthLine(ep, repr)
  }

  /** The lines of all endpoints, in order. */
  function AllLines(eps: seq<Dict<Json>>, repr: Json -> string): seq<string>
    decreases |eps|
  {
    if eps == [] then [] else ExtendLines(AllLines(eps[..|eps| - 1], repr), eps[|eps| - 1], repr)
  }

  const NoEndpoints: string := "No endpoint information available."

  /** `build_endpoint_info(endpoints)` as a value. */
  function EndpointInfoOf(eps: seq<Dict<Json>>, repr: Json -> string): string
  {
    var lines := AllLines(eps, repr);
    if lines != [] then Join(lines, "\n") else NoEndpoints
  }

  /** `build_endpoint_info`, the `repr` of non-string values given as a parameter. */
  method BuildEndpointInfo(eps: seq<Dict<Json>>, repr: Json -> string) returns (info: string)
    ensures info == EndpointInfoOf(eps, repr)
  {
    var lines: seq<string> := [];
    for i := 0 to |eps|
      invariant lines == AllLines(eps[..i], repr)
    {
      AllLinesStep(eps, i, repr);
      lines := AppendEndpoint(lines, eps[i], repr);
    }
    assert eps[..|eps|] == eps;
    if lines != [] {
      info := Join(lines, "\n");
    } else {
      info := NoEndpoints;
    }
  }

  /** The lines of the first `i + 1` endpoints extend those of the first `i`. */
  lemma AllLinesStep(eps: seq<Dict<Json>>, i: nat, repr: Json -> string)
    requires i < |eps|
    ensures AllLines(eps[..i + 1], repr) == ExtendLines(AllLines(eps[..i], repr), eps[i], repr)
  {
    assert eps[..i + 1][..i] == eps[..i];
  }

  /** The body of the loop of `build_endpoint_info`: the header, then each line whose field is truthy. */
  method AppendEndpoint(lines: seq<string>, ep: Dict<Json>, repr: Json -> string) returns (r: seq<string>)
    ensures r == ExtendLines(lines, ep, repr)
  {
    r := lines + [HeaderLine(ep, repr)];
    r := r + FieldLine(ep, "request_schema", "Request body schema", repr);
    r := r + FieldLine(ep, "response_schema", "Response schema", repr);
    r := r + FieldLine(ep, "sample_request", "Sample request", repr);
    r := r + FieldLine(ep, "sample_response", "Sample response", repr);
    r := r + FieldLine(ep, "query_params", "Query params", repr);
    r := r + FieldLine(ep, "observed_status_codes", "Observed status codes", repr);
    if Present(ep, "auth_required") {
      r := r + ["  Auth: " + Show(GetOr(ep, "auth_type", JStr("required")), repr)];
    }
  }

  /** How many lines are endpoint headers. */
  function HeaderCount(lines: seq<string>): nat
    decreases |lines|
  {
    if lines == [] then 0
    else HeaderCount(lines[..|lines| - 1]) + (if StartsWith(lines[|lines| - 1], "- ") then 1 else 0)
  }

  /** Counting headers distributes over concatenation. */
  lemma {:induction false} HeaderCountAppend(a: seq<string>, b: seq<string>)
    ensures HeaderCount(a + b) == HeaderCount(a) + HeaderCount(b)
    decreases |b|
  {
    if b == [] {
      assert a + b == a;
    } else {
      var n := |b| - 1;
      HeaderCountAppend(a, b[..n]);
      assert (a + b)[..|a + b| - 1] == a + b[..n];
    }
  }

  /** Appending at most one indented line adds no header. */
  lemma AppendIndented(lines: seq<string>, f: seq<string>, lead: string)
    requires |f| <= 1 && lead != [] && lead[0] == ' ' && (f != [] ==> StartsWith(f[0], lead))
    ensures HeaderCount(lines + f) == HeaderCount(lines)
  {
    if f != [] {
      assert f[0][0] == ' ';
      assert (lines + f)[..|lines + f| - 1] == lines;
    } else {
      assert lines + f == lines;
    }
  }

  /** Appending an optional-field line adds no header. */
  lemma AppendField(lines: seq<string>, ep: Dict<Json>, key: string, caption: string, repr: Json -> string)
    ensures HeaderCount(lines + FieldLine(ep, key, caption, repr)) == HeaderCount(lines)
  {
    var lead := "  " + caption + ": ";
    assert lead[0] == ' ';
    AppendIndented(lines, FieldLine(ep, key, caption, repr), lead);
  }

  /** Appending the auth line adds no header. */
  lemma AppendAuth(lines: seq<string>, ep: Dict<Json>, repr: Json -> string)
    ensures HeaderCount(lines + AuthLine(ep, repr)) == HeaderCount(lines)
  {
    AppendIndented(lines, AuthLine(ep, repr), "  Auth: ");
  }

  /** Each endpoint contributes exactly one header line. */
  lemma ExtendOneHeader(lines: seq<string>, ep: Dict<Json>, repr: Json -> string)
    ensures HeaderCount(ExtendLines(lines, ep, repr)) == HeaderCount(lines) + 1
  {
    var l0 := lines + [HeaderLine(ep, repr)];
    assert l0[..|l0| - 1] == lines;
    AppendField(l0, ep, "request_schema", "Request body schema", repr);
    var l1 := l0 + FieldLine(ep, "request_schema", "Request body schema", repr);
    AppendField(l1, ep, "response_schema", "Response schema", repr);
    var l2 := l1 + FieldLine(ep, "response_schema", "Response schema", repr);
    AppendField(l2, ep, "sample_request", "Sample request", repr);
    var l3 := l2 + FieldLine(ep, "sample_request", "Sample request", repr);
    AppendField(l3, ep, "sample_response", "Sample response", repr);
    var l4 := l3 + FieldLine(ep, "sample_response", "Sample response", repr);
    AppendField(l4, ep, "query_params", "Query params", repr);
    var l5 := l4 + FieldLine(ep, "query_params", "Query params", repr);
    AppendField(l5, ep, "observed_status_codes", "Observed status codes", repr);
    var l6 := l5 + FieldLine(ep, "observed_status_codes", "Observed status codes", repr);
    AppendAuth(l6, ep, repr);
  }

  /** There are exactly as many header lines as endpoints. */
  lemma {:induction false} HeadersPerEndpoint(eps: seq<Dict<Json>>, repr: Json -> string)
    ensures HeaderCount(AllLines(eps, repr)) == |eps|
    decreases |eps|
  {
    if eps != [] {
      var n := |eps| - 1;
      HeadersPerEndpoint(eps[..n], repr);
      ExtendOneHeader(AllLines(eps[..n], repr), eps[n], repr);
    }
  }

  /** The placeholder text appears exactly when there are no endpoints. */
  lemma NoEndpointsIff(eps: seq<Dict<Json>>, repr: Json -> string)
    ensures EndpointInfoOf(eps, repr) == NoEndpoints <==> eps == []
  {
    if eps != [] {
      var lines := AllLines(eps, repr);
      FirstLineStarts(eps, repr);
      JoinHead(lines, "\n");
      var j := Join(lines, "\n");
      assert j[0] == lines[0][0] == '-';
      assert NoEndpoints[0] == 'N';
    }
  }

  /** Extending keeps the earlier lines and puts the endpoint's header right after them. */
  lemma ExtendKeeps(lines: seq<string>, ep: Dict<Json>, repr: Json -> string)
    ensures var r := ExtendLines(lines, ep, repr); |r| > |lines| && r[..|lines|] == lines && r[|lines|] == HeaderLine(ep, repr)
  {
    AppendsKeep(lines, HeaderLine(ep, repr),
      FieldLine(ep, "request_schema", "Request body schema", repr),
      FieldLine(ep, "response_schema", "Response schema", repr),
      FieldLine(ep, "sample_request", "Sample request", repr),
      FieldLine(ep, "sample_response", "Sample response", repr),
      FieldLine(ep, "query_params", "Query params", repr),
      FieldLine(ep, "observed_status_codes", "Observed status codes", repr),
      AuthLine(ep, repr));
  }

  /** Lines appended after a header keep the earlier lines and the header in place. */
  lemma AppendsKeep(a: seq<string>, h: string, b1: seq<string>, b2: seq<string>, b3: seq<string>,
                    b4: seq<string>, b5: seq<string>, b6: seq<string>, b7: seq<string>)
    ensures var r := a + [h] + b1 + b2 + b3 + b4 + b5 + b6 + b7; |r| > |a| && r[..|a|] == a && r[|a|] == h
  {
    var r := a + [h] + b1 + b2 + b3 + b4 + b5 + b6 + b7;
    assert r == (a + [h]) + (b1 + b2 + b3 + b4 + b5 + b6 + b7);
  }

  /** The first line of a non-empty endpoint list is the first endpoint's header. */
  lemma {:induction false} FirstLineStarts(eps: seq<Dict<Json>>, repr: Json -> string)
    requires eps != []
    ensures AllLines(eps, repr) != [] && AllLines(eps, repr)[0] == HeaderLine(eps[0], repr)
    decreases |eps|
  {
    var n := |eps| - 1;
    ExtendKeeps(AllLines(eps[..n], repr), eps[n], repr);
    if n > 0 {
      FirstLineStarts(eps[..n], repr);
    } else {
      assert AllLines(eps[..n], repr) == [];
    }
  }
}
