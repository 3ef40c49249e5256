# testforge, modelled in Dafny

testforge is an automated test-generation pipeline for web APIs. It learns a house style from
"golden" test files, or it watches real HTTP traffic and maps the API from it. It then asks a
language model for a pytest suite, runs the suite, and scores the result. This project models
the deterministic core of that pipeline and proves properties of the model:

- **Traffic to endpoint map** (`ApiMapper`, `HttpProxy`, `Interactions`). Paths are normalised
  (numeric segments become `{id}`, UUID segments `{uuid}`). Exchanges are grouped per method and
  normalised path, and each group becomes one endpoint with its status codes, query keys, path
  parameters, auth type and single-sample schemas. Dependencies, auth patterns and common headers
  are read off the whole traffic. HTTP Archive entries become exchanges.
- **Golden-example analysis** (`AstAnalyzer`, `PatternExtractor`, `Counting`). A syntax-tree
  walk classifies imports, fixtures, test functions, helpers, classes and assertion lines. The
  examples are then folded into a style guide: counters, a frequency threshold, first-occurrence
  de-duplication and a top-five selection.
- **Running and judging** (`Runner`, `FailureSection`, `Flakiness`, `Quality`, `Results`). The
  pytest transcript parser has three levels of fallback. Failed tests take their message from the
  FAILURES section: the text after the `=== FAILURES ===` banner is cut at `___ name ___` headers
  by the backtracking the two regular expressions perform. Timeout and launch failures become
  synthetic results.
  Flakiness re-runs the suite and flags mixed histories. A static quality score is computed, and
  results are counted.
- **Generator text and prompts** (`ApiTestGen`, `Prompts`, `TestModel`). This covers fence
  stripping, splitting the answer into tests, the import/setup preamble, import rendering, the
  prompt sections, and rendering a suite into one file.
- **State and orchestration** (`ContextStore`, `GoldenPipeline`, `ObserverPipeline`, `Engine`,
  `BaseAgent`, `Stages`). This covers the append-only merge of what earlier runs learnt, the two
  stage sequences with fatal and non-fatal stages, mode dispatch, and the agent `execute` wrapper.
- **Other in-repo logic**: the Flask demo app's in-memory user store (`DemoApp`, with a class
  `UserStore`), and two literature-review scripts (`ProcessResults`, `GenerateBib`, `TexEscape`).

Code that updates state step by step is modelled with imperative Dafny. This covers loops that
fill lists and dicts, the context update, the pipelines' result objects and the demo store. Each
such method is proved against a specification function, and the properties are proved as lemmas
about that function. The generic modules `Text`, `PyValues`, `Sorting`, `Counting`, `Grouping`,
`Registry`, `FirstWins`, `Picking` and `Search` hold the Python idioms the core uses. These are
string methods, insertion-ordered dicts, `sorted(set(...))`, `Counter.most_common`,
`grouped[k].append`, "first one wins" scans, filters and leftmost regex matches. Each is defined
once, with its own lemmas.

## Model

| member | source | states |
|---|---|---|
| ApiMapper.NormalizeSegment | testforge/src/testforge/agents/mapper/api_mapper.py:82-92 | an all-digit segment becomes `{id}`, otherwise an 8-4-4-4-12 hexadecimal segment (any case) becomes `{uuid}`, otherwise the segment is kept |
| ApiMapper.NormalizePath | testforge/src/testforge/agents/mapper/api_mapper.py:77-93 | the loop builds exactly the normalised path: "/" and the normalised segments of the slash-stripped path joined by "/" |
| ApiMapper.NormalizeSegmentIdempotent | testforge/src/testforge/agents/mapper/api_mapper.py:82-92 | a placeholder is never normalised again; a non-empty segment stays non-empty and gains no slash |
| ApiMapper.SegmentsRoundTrip | testforge/src/testforge/agents/mapper/api_mapper.py:80-93 | splitting a normalised path gives back the normalised segments of the original path |
| ApiMapper.NormalizeIdempotent | testforge/src/testforge/agents/mapper/api_mapper.py:77-93 | normalising an already normalised path changes nothing |
| ApiMapper.NormalizedSegments | testforge/src/testforge/agents/mapper/api_mapper.py:80-93 | position by position, id segments become `{id}`, UUID segments `{uuid}` and every other segment is kept |
| ApiMapper.GroupKeys | testforge/src/testforge/agents/mapper/api_mapper.py:41-47 | the group keys are strictly ascending (method, normalised path) pairs, and a key is listed exactly when some exchange has it |
| ApiMapper.GroupingPartition | testforge/src/testforge/agents/mapper/api_mapper.py:41-47 | the grouping partitions the traffic: keys distinct and sorted, every exchange's key listed, every group non-empty and holding only exchanges with its key, group sizes summing to the number of exchanges |
| ApiMapper.GroupExchanges | testforge/src/testforge/agents/mapper/api_mapper.py:41-47 | the grouping loop yields the sorted key list and, under each key, exactly that key's exchanges in traffic order |
| ApiMapper.BuildEndpoints | testforge/src/testforge/agents/mapper/api_mapper.py:46-49 | one endpoint per sorted key, built from that key's group |
| ApiMapper.SchemaOfStep | testforge/src/testforge/agents/mapper/api_mapper.py:171-186 | each dict entry adds its schema entry under its key, unless its value is of none of the listed kinds |
| ApiMapper.SchemaOfKeys | testforge/src/testforge/agents/mapper/api_mapper.py:170-186 | the schema has only keys of the sampled dict |
| ApiMapper.SchemaOfFresh | testforge/src/testforge/agents/mapper/api_mapper.py:171-186 | over a dict with distinct keys, a key is not in the schema before its own entry is visited |
| ApiMapper.SchemaOfKept | testforge/src/testforge/agents/mapper/api_mapper.py:172-185 | every string, bool, int, float, list, dict or None value gets its schema entry under its key; a bool is "boolean", never "integer" |
| ApiMapper.SchemaOfDropped | testforge/src/testforge/agents/mapper/api_mapper.py:171-186 | a key whose value is of none of the listed kinds is left out of the schema |
| ApiMapper.InferSchema | testforge/src/testforge/agents/mapper/api_mapper.py:168-186 | the loop, recursing into nested dicts, computes exactly the inferred schema of the dict |
| ApiMapper.HeaderValue | testforge/src/testforge/agents/mapper/api_mapper.py:109-112 | the lookup finds a value exactly when some header has the name in any letter case |
| ApiMapper.FirstAuthTypeAt | testforge/src/testforge/agents/mapper/api_mapper.py:108-120 | the first exchange with a non-empty Authorization value decides the auth type by its prefix |
| ApiMapper.FirstAuthTypeNone | testforge/src/testforge/agents/mapper/api_mapper.py:106-120 | without a non-empty Authorization value there is no auth type |
| ApiMapper.AuthTypeIsFirst | testforge/src/testforge/agents/mapper/api_mapper.py:102-120 | a first non-empty Authorization value makes auth required and gives bearer, basic or custom by its prefix |
| ApiMapper.AuthTypeNone | testforge/src/testforge/agents/mapper/api_mapper.py:106-120 | with no non-empty Authorization value the auth type stays None |
| ApiMapper.FindAuthType | testforge/src/testforge/agents/mapper/api_mapper.py:106-120 | the search loop with its `break` returns the first-decides auth type |
| ApiMapper.AllQueryKeys | testforge/src/testforge/agents/mapper/api_mapper.py:123-125 | a query key is collected exactly when some exchange carries it |
| ApiMapper.EndpointListsSpec | testforge/src/testforge/agents/mapper/api_mapper.py:99-125 | status codes and query parameters are strictly ascending, and each lists exactly the values seen in some exchange |
| ApiMapper.CollectQueryParams | testforge/src/testforge/agents/mapper/api_mapper.py:123-125 | the set-union loop followed by sorting gives the sorted distinct query keys |
| ApiMapper.PathParams | testforge/src/testforge/agents/mapper/api_mapper.py:128 | every path parameter is a non-empty run of word characters |
| ApiMapper.PathParamsNoBrace | testforge/src/testforge/agents/mapper/api_mapper.py:128 | a path without "{" has no path parameters |
| ApiMapper.PathParamsPlaceholder | testforge/src/testforge/agents/mapper/api_mapper.py:128 | a `{w}` placeholder yields `w`, then the search resumes after it |
| ApiMapper.SingleSamples | testforge/src/testforge/agents/mapper/api_mapper.py:131-152 | the request schema, response sample and sample request each come from the first qualifying exchange; the response schema exists only when that response body is a dict |
| ApiMapper.FindRequestSchema | testforge/src/testforge/agents/mapper/api_mapper.py:131-135 | the loop returns the schema of the first JSON request with a dict body |
| ApiMapper.FindResponseSample | testforge/src/testforge/agents/mapper/api_mapper.py:138-145 | the loop stops at the first JSON success response and returns its body and, for a dict body, its schema |
| ApiMapper.FindSampleRequest | testforge/src/testforge/agents/mapper/api_mapper.py:148-152 | the loop returns the first truthy request body |
| ApiMapper.EndpointInfoOf | testforge/src/testforge/agents/mapper/api_mapper.py:154-166 | the endpoint keeps the method and path of its group |
| ApiMapper.BuildEndpointInfo | testforge/src/testforge/agents/mapper/api_mapper.py:95-166 | the method's searches assemble exactly the endpoint specified from the group |
| ApiMapper.CreatorsSpec | testforge/src/testforge/agents/mapper/api_mapper.py:201-206 | a resource has a creator exactly when some POST endpoint without path parameters names it, and the last such endpoint wins |
| ApiMapper.DependencyEntry | testforge/src/testforge/agents/mapper/api_mapper.py:208-213 | every dependency belongs to an endpoint with path parameters and names, as its only prerequisite, the last creator of its resource, a different endpoint |
| ApiMapper.DependencyComplete | testforge/src/testforge/agents/mapper/api_mapper.py:208-213 | every endpoint with path parameters whose resource has a creator gets a dependency entry |
| ApiMapper.DetectDependencies | testforge/src/testforge/agents/mapper/api_mapper.py:188-215 | the two loops compute exactly the specified dependency dict |
| ApiMapper.HeaderPatternCases | testforge/src/testforge/agents/mapper/api_mapper.py:221-230 | in both directions: an Authorization header is a bearer token, basic auth or a custom header by its value's prefix, X-Api-Key is an API key, and no other header reveals a pattern |
| ApiMapper.HeaderPatternsMember | testforge/src/testforge/agents/mapper/api_mapper.py:221-230 | a pattern is found in a request's headers exactly when one of them reveals it |
| ApiMapper.AllPatternsMember | testforge/src/testforge/agents/mapper/api_mapper.py:220-233 | a pattern is found exactly when some exchange reveals it |
| ApiMapper.AuthPatterns | testforge/src/testforge/agents/mapper/api_mapper.py:234 | the patterns are returned strictly ascending |
| ApiMapper.AuthPatternsSpec | testforge/src/testforge/agents/mapper/api_mapper.py:217-234 | the patterns are distinct; a pattern is listed exactly when some request reveals it by a header or, for a cookie session, sends a Cookie header; only the five labels occur |
| ApiMapper.DetectAuthPatterns | testforge/src/testforge/agents/mapper/api_mapper.py:217-234 | the nested loops filling a set, then sorting, give exactly the specified pattern list |
| ApiMapper.ScanHeaders | testforge/src/testforge/agents/mapper/api_mapper.py:221-230 | the inner loop appends the patterns of one request's headers in order |
| ApiMapper.LoweredHeadersSpec | testforge/src/testforge/agents/mapper/api_mapper.py:243-245 | lower-casing keeps one entry per lower-cased name, holding the last such header's value |
| ApiMapper.CommonHeadersSpec | testforge/src/testforge/agents/mapper/api_mapper.py:236-262 | a lower-cased name is common exactly when there is traffic, the name is not skipped and every request sends it; its value is the first request's |
| ApiMapper.DetectCommonHeaders | testforge/src/testforge/agents/mapper/api_mapper.py:236-262 | the method computes exactly the specified common headers, {} for no traffic |
| ApiMapper.LowerHeaderNames | testforge/src/testforge/agents/mapper/api_mapper.py:243-245 | the comprehension loop gives the lower-cased header dict |
| ApiMapper.SentByAll | testforge/src/testforge/agents/mapper/api_mapper.py:256-259 | true exactly when every request sends the header, in any letter case |
| ApiMapper.EndpointsSpec | testforge/src/testforge/agents/mapper/api_mapper.py:41-49 | the map has exactly one endpoint per distinct (method, normalised path), in ascending order, and no more endpoints than exchanges |
| ApiMapper.GroupKeysBound | testforge/src/testforge/agents/mapper/api_mapper.py:41-47 | there are never more groups than exchanges |
| ApiMapper.Run | testforge/src/testforge/agents/mapper/api_mapper.py:36-75 | the agent's run returns exactly the specified endpoint map of the record |
| ApiMapper.Normalized | testforge/src/testforge/agents/mapper/api_mapper.py:77-93 | path normalisation; NormalizePath, NormalizedSegments and SegmentsRoundTrip state the segment-wise replacement, NormalizeIdempotent that normalising twice changes nothing |
| ApiMapper.Dependencies | testforge/src/testforge/agents/mapper/api_mapper.py:188-215 | the dependency map; DependencyEntry states each entry pairs an endpoint with path parameters with the last creator of its resource, DependencyComplete that every such endpoint has an entry, DetectDependencies that the loop builds the map |
| ApiMapper.CommonHeaders | testforge/src/testforge/agents/mapper/api_mapper.py:236-262 | the headers common to the exchanges; CommonHeadersSpec states which headers are kept and with which value |
| ApiMapper.EndpointMapOf | testforge/src/testforge/agents/mapper/api_mapper.py:36-75 | the endpoint map of a recording; ApiMapper.Run states that the mapper returns it |
| ApiTestGen.CloseFenceFrom | testforge/src/testforge/agents/generator/api_test_gen.py:105 | a found closing fence is at or after the search start and is "```" followed only by whitespace to the end |
| ApiTestGen.DropCloseFenceRule | testforge/src/testforge/agents/generator/api_test_gen.py:105 | on trimmed text the closing substitution removes a final "\n```" or, failing that, a final "```", and otherwise nothing |
| ApiTestGen.DropOpenFenceTagged | testforge/src/testforge/agents/generator/api_test_gen.py:104 | a leading "```python" is removed together with the whitespace after it |
| ApiTestGen.FenceRoundTrip | testforge/src/testforge/agents/generator/api_test_gen.py:103-106 | stripping the fences of "```python\n" + body + "\n```" gives back the trimmed body |
| ApiTestGen.NoFenceOnlyStrips | testforge/src/testforge/agents/generator/api_test_gen.py:103-106 | unfenced text is only trimmed |
| ApiTestGen.TestHeadFrom | testforge/src/testforge/agents/generator/api_test_gen.py:173 | a found test head lies at or after the start and matches the decorated `def test_` pattern there |
| ApiTestGen.TestHeadHasDef | testforge/src/testforge/agents/generator/api_test_gen.py:173 | every test head, decorators included, reaches a literal "def test_" |
| ApiTestGen.TestHeadFromNone | testforge/src/testforge/agents/generator/api_test_gen.py:173-175 | when the search fails, no later position starts a test head |
| ApiTestGen.TestHeadFromLeftmost | testforge/src/testforge/agents/generator/api_test_gen.py:173 | no test head starts before the one found: the match is leftmost |
| ApiTestGen.FirstTestIff | testforge/src/testforge/agents/generator/api_test_gen.py:173-175 | a first test is found exactly when the code contains "def test_" |
| ApiTestGen.FirstTestNoLater | testforge/src/testforge/agents/generator/api_test_gen.py:173 | the first test starts no later than any "def test_" |
| ApiTestGen.ImportRunMaximal | testforge/src/testforge/agents/generator/api_test_gen.py:182-194 | the imports part is the maximal leading run of import, from and blank lines |
| ApiTestGen.ImportRunAll | testforge/src/testforge/agents/generator/api_test_gen.py:182-194 | when every line is an import line, all of them are imports |
| ApiTestGen.ImportRunSays | testforge/src/testforge/agents/generator/api_test_gen.py:182-194 | the `in_imports` flag at each line is exactly "still inside the leading run", and a later import line goes to setup |
| ApiTestGen.PreambleWithoutTest | testforge/src/testforge/agents/generator/api_test_gen.py:173-175 | without "def test_" the preamble is ("", "") |
| ApiTestGen.ExtractPreamble | testforge/src/testforge/agents/generator/api_test_gen.py:171-196 | the method returns exactly the specified (imports, setup) pair |
| ApiTestGen.SortPreambleLines | testforge/src/testforge/agents/generator/api_test_gen.py:178-196 | the two-state loop sorts lines into exactly the leading import run and the rest, each joined and stripped |
| ApiTestGen.StyleImportLines | testforge/src/testforge/agents/generator/api_test_gen.py:200-208 | one rendered line per common import, in order |
| ApiTestGen.BuildImportsFromStyle | testforge/src/testforge/agents/generator/api_test_gen.py:198-209 | the loop renders the style guide's imports as "from m import a, b", "import m as a" or "import m", joined by newlines |
| ApiTestGen.ImportLineIsImport | testforge/src/testforge/agents/generator/api_test_gen.py:186-209 | every rendered import line is read back as an import line by the preamble split |
| ApiTestGen.StyleImportsReparse | testforge/src/testforge/agents/generator/api_test_gen.py:186-209 | splitting the rendered style imports puts all of them in the imports part and nothing in setup |
| ApiTestGen.NextBoundary | testforge/src/testforge/agents/generator/api_test_gen.py:137 | a found split point lies in range and is followed by "\ndef test_" |
| ApiTestGen.Pieces | testforge/src/testforge/agents/generator/api_test_gen.py:137 | the lookahead split always yields at least one piece |
| ApiTestGen.KeepTestParts | testforge/src/testforge/agents/generator/api_test_gen.py:138 | keeping only pieces containing "def test_" never adds pieces |
| ApiTestGen.Matches | testforge/src/testforge/agents/generator/api_test_gen.py:132-138 | when the primary pattern matches anything, its matches are used unchanged |
| ApiTestGen.DefNameShape | testforge/src/testforge/agents/generator/api_test_gen.py:145 | a found test name is "test_" followed by at least one word character |
| ApiTestGen.TestNameShape | testforge/src/testforge/agents/generator/api_test_gen.py:145-146 | every test name, found or generated, starts with "test_" and is made of word characters |
| ApiTestGen.TestNameOfHeader | testforge/src/testforge/agents/generator/api_test_gen.py:145-146 | a source starting "def test_w(" is named "test_w" |
| ApiTestGen.TargetPriority | testforge/src/testforge/agents/generator/api_test_gen.py:149-156 | method and endpoint are both set or both None; None exactly when no verb matches; otherwise the first matching verb of get, post, put, patch, delete decides, upper-cased |
| ApiTestGen.FStringEndpoint | testforge/src/testforge/agents/generator/api_test_gen.py:152 | for an f-string URL the lazily captured endpoint is empty |
| ApiTestGen.DetectTarget | testforge/src/testforge/agents/generator/api_test_gen.py:149-156 | the verb loop with its `break` returns the first-verb target |
| ApiTestGen.TestsOfStep | testforge/src/testforge/agents/generator/api_test_gen.py:140-167 | each match adds one test numbered by the tests so far, unless it is blank after stripping |
| ApiTestGen.ExtractTestFunctions | testforge/src/testforge/agents/generator/api_test_gen.py:128-169 | the loop returns exactly the tests built from the primary matches, or the fallback split when those are empty |
| ApiTestGen.TestsOfAt | testforge/src/testforge/agents/generator/api_test_gen.py:140-167 | with no blank matches, test i is built from the i-th stripped match |
| ApiTestGen.TestsOfShape | testforge/src/testforge/agents/generator/api_test_gen.py:140-167 | at most one test per match; each has non-empty source, type "api" and a "test_" name |
| ApiTestGen.TestRunPieces | testforge/src/testforge/agents/generator/api_test_gen.py:137-138 | the fallback split of tests joined by blank lines gives back exactly those tests |
| ApiTestGen.HeadOnlyRoundTrip | testforge/src/testforge/agents/generator/api_test_gen.py:137-138 | a preamble without tests splits into no tests |
| ApiTestGen.TestsOnlyRoundTrip | testforge/src/testforge/agents/generator/api_test_gen.py:137-138 | a file of tests only splits back into those tests |
| ApiTestGen.HeadAndTestsRoundTrip | testforge/src/testforge/agents/generator/api_test_gen.py:137-138 | a preamble followed by tests splits back into the tests alone |
| ApiTestGen.FallbackRoundTrip | testforge/src/testforge/agents/generator/api_test_gen.py:137-138 | the fallback split of a rendered suite gives back its stripped test sources when each begins with its only `def test_` line and the preamble has none |
| ApiTestGen.ParseResponse | testforge/src/testforge/agents/generator/api_test_gen.py:100-126 | the method returns exactly the specified suite: fences stripped, tests split, preamble taken, style imports used when the imports are blank |
| ApiTestGen.ParseWithoutTests | testforge/src/testforge/agents/generator/api_test_gen.py:112-116 | without a test the imports come from the style guide and the setup is empty |
| ApiTestGen.ParsedImportsPresent | testforge/src/testforge/agents/generator/api_test_gen.py:115-116 | with at least one common import the parsed suite never has blank imports |
| ApiTestGen.StripRendered | testforge/src/testforge/models/test_model.py:72-81 | trimming a rendered suite leaves its parts joined by blank lines |
| ApiTestGen.ParseRenderedSuite | testforge/src/testforge/agents/generator/api_test_gen.py:100-138 | parsing a fenced rendering of a suite, when the primary pattern finds nothing, gives back one test per test, each with its stripped source; on the real pattern that hypothesis holds for a one-test rendering only, since its lookahead (line 132) needs a newline after a test and the strip at line 106 leaves the last test without one |
| ApiTestGen.RenderedCode | testforge/src/testforge/agents/generator/api_test_gen.py:103-106 | fence stripping of a fenced rendering gives the joined parts |
| ApiTestGen.RenderedMatches | testforge/src/testforge/agents/generator/api_test_gen.py:132-138 | when the primary pattern finds nothing, the matches of a rendering are its test parts; on the real pattern that hypothesis holds for a one-test rendering only (the lookahead at line 132 needs a newline the stripped last test lacks) |
| ApiTestGen.TestsOfParts | testforge/src/testforge/agents/generator/api_test_gen.py:140-167 | the tests built from the test parts are one per test with the stripped source |
| AstAnalyzer.FirstOfKind | testforge/src/testforge/agents/analyzer/ast_analyzer.py:100-103 | the child found has the kind asked for, and None means no child has it |
| AstAnalyzer.LastOfKind | testforge/src/testforge/agents/analyzer/ast_analyzer.py:92-96 | the child kept has the kind asked for (the last such one), and None means no child has it |
| AstAnalyzer.TakeDotted | testforge/src/testforge/agents/analyzer/ast_analyzer.py:60 | `[\w.]+` takes the longest prefix of word characters and dots |
| AstAnalyzer.MatchImport | testforge/src/testforge/agents/analyzer/ast_analyzer.py:60-68 | a matched `import m [as a]` gives a non-empty module, no names and the from-flag unset |
| AstAnalyzer.SplitNames | testforge/src/testforge/agents/analyzer/ast_analyzer.py:75 | the imported names are the comma-split pieces, each stripped |
| AstAnalyzer.MatchFromImport | testforge/src/testforge/agents/analyzer/ast_analyzer.py:71-82 | a matched `from m import x, y` gives a non-empty module, at least one name, no alias and the from-flag set |
| AstAnalyzer.ExtractImports | testforge/src/testforge/agents/analyzer/ast_analyzer.py:55-83 | the loop over the root's children returns exactly the specified imports |
| AstAnalyzer.ImportsTopLevel | testforge/src/testforge/agents/analyzer/ast_analyzer.py:55-83 | every import comes from a top-level import statement, and the from-flag is set exactly for `from` statements |
| AstAnalyzer.ScopeAt | testforge/src/testforge/agents/analyzer/ast_analyzer.py:107 | a matched scope is a non-empty run of word characters |
| AstAnalyzer.FixtureScopeDefault | testforge/src/testforge/agents/analyzer/ast_analyzer.py:105-109 | without a `scope=` decorator argument the scope is "function" |
| AstAnalyzer.FixtureScopeLast | testforge/src/testforge/agents/analyzer/ast_analyzer.py:105-109 | the last decorator with a `scope=` argument decides the scope |
| AstAnalyzer.ExtractFixtures | testforge/src/testforge/agents/analyzer/ast_analyzer.py:86-125 | the loop returns exactly the specified fixtures |
| AstAnalyzer.FixtureRule | testforge/src/testforge/agents/analyzer/ast_analyzer.py:88-112 | a node gives a fixture exactly when it is a decorated definition with a function and a decorator containing "fixture"; `yields` is whether the function text contains "yield", and the name is the function's |
| AstAnalyzer.DocstringRoundTrip | testforge/src/testforge/agents/analyzer/ast_analyzer.py:292 | stripping quotes and whitespace from a triple-quoted docstring gives back its text |
| AstAnalyzer.SummarizeShort | testforge/src/testforge/agents/analyzer/ast_analyzer.py:297-302 | a body of at most 10 lines is its own summary |
| AstAnalyzer.SummarizeLong | testforge/src/testforge/agents/analyzer/ast_analyzer.py:297-303 | a longer body is summarised as its first 10 lines plus one "... (k more lines)" line with k the lines beyond 10 |
| AstAnalyzer.DefsUpToMember | testforge/src/testforge/agents/analyzer/ast_analyzer.py:186-202 | the defs found among the first k children are those each child contributes |
| AstAnalyzer.DefsMember | testforge/src/testforge/agents/analyzer/ast_analyzer.py:186-202 | a def is yielded exactly when one of the node's children contributes it: directly, under a decorator, or recursively in a class body |
| AstAnalyzer.DecoratedDefsDirect | testforge/src/testforge/agents/analyzer/ast_analyzer.py:191-194 | a def found under a decorated definition is a direct function child of it, with it as parent |
| AstAnalyzer.DecoratorsOf | testforge/src/testforge/agents/analyzer/ast_analyzer.py:243-252 | no decorator keeps a leading "@" |
| AstAnalyzer.GetParameters | testforge/src/testforge/agents/analyzer/ast_analyzer.py:255-265 | the loop returns exactly the specified parameter list |
| AstAnalyzer.ParametersNoSelf | testforge/src/testforge/agents/analyzer/ast_analyzer.py:255-265 | every parameter is a bare identifier of the first parameter list and is never "self" |
| AstAnalyzer.ExtractAssertions | testforge/src/testforge/agents/analyzer/ast_analyzer.py:268-281 | the line loop returns exactly the specified assertions |
| AstAnalyzer.AssertionPrecedence | testforge/src/testforge/agents/analyzer/ast_analyzer.py:272-279 | each stripped line gives at most one assertion, its pattern being the line: "assert " first, then "pytest.raises", then `self.assert\w+`, both directions |
| AstAnalyzer.AssertionsPerLine | testforge/src/testforge/agents/analyzer/ast_analyzer.py:268-281 | there are no more assertions than lines, and an assertion is listed exactly when some line yields it |
| AstAnalyzer.QuotedAt | testforge/src/testforge/agents/analyzer/ast_analyzer.py:154 | a quoted endpoint is non-empty and has no quote character |
| AstAnalyzer.FStringAt | testforge/src/testforge/agents/analyzer/ast_analyzer.py:159-162 | an f-string endpoint starts with "/" and has no quote character |
| AstAnalyzer.EndpointShape | testforge/src/testforge/agents/analyzer/ast_analyzer.py:153-164 | a detected endpoint is non-empty without quotes, and starts with "/" when it came from an f-string |
| AstAnalyzer.DetectCallFirst | testforge/src/testforge/agents/analyzer/ast_analyzer.py:149-165 | the first verb of the fixed list whose `.m(` appears decides the method, upper-cased, and the endpoint is looked for with that verb only |
| AstAnalyzer.DetectCallNone | testforge/src/testforge/agents/analyzer/ast_analyzer.py:146-165 | when no verb's call appears, method and endpoint stay None |
| AstAnalyzer.DetectHttpCall | testforge/src/testforge/agents/analyzer/ast_analyzer.py:146-165 | the verb loop with its `break` returns the first-verb result |
| AstAnalyzer.TestPatternParts | testforge/src/testforge/agents/analyzer/ast_analyzer.py:132-181 | a `test_` def becomes a pattern holding its name, docstring, decorators, parameters, detected call, assertions, summary and line count (end row minus start row plus one) |
| AstAnalyzer.TestPattern | testforge/src/testforge/agents/analyzer/ast_analyzer.py:131-181 | the method builds exactly the specified pattern of one def |
| AstAnalyzer.BodyFacts | testforge/src/testforge/agents/analyzer/ast_analyzer.py:141-165 | the body scans return the parameters, assertions and detected call of the def |
| AstAnalyzer.ExtractTestFunctions | testforge/src/testforge/agents/analyzer/ast_analyzer.py:128-183 | the loop returns exactly the specified test functions |
| AstAnalyzer.TestFunctionsNamed | testforge/src/testforge/agents/analyzer/ast_analyzer.py:131-139 | every test function is named `test_*`, and every yielded def so named is listed |
| AstAnalyzer.ExtractHelperFunctions | testforge/src/testforge/agents/analyzer/ast_analyzer.py:205-229 | the loop returns exactly the specified helper names |
| AstAnalyzer.HelperRule | testforge/src/testforge/agents/analyzer/ast_analyzer.py:205-229 | a helper is a non-empty name not starting "test_", from a top-level function that is not a fixture |
| AstAnalyzer.ExtractClassNames | testforge/src/testforge/agents/analyzer/ast_analyzer.py:232-240 | the loop returns exactly the specified class names |
| AstAnalyzer.ClassNamesTopLevel | testforge/src/testforge/agents/analyzer/ast_analyzer.py:232-240 | a class name is listed exactly when a top-level class definition has it as its first identifier |
| AstAnalyzer.ParsePythonFile | testforge/src/testforge/agents/analyzer/ast_analyzer.py:36-52 | the example gathers the imports, fixtures, test functions, helpers and class names of the tree |
| AstAnalyzer.Imports | testforge/src/testforge/agents/analyzer/ast_analyzer.py:55-83 | the import patterns of a module; ImportsTopLevel states they come from its top-level import statements, ExtractImports that the loop computes them |
| AstAnalyzer.Fixtures | testforge/src/testforge/agents/analyzer/ast_analyzer.py:86-125 | the fixtures of a module; ExtractFixtures states that the loop computes them |
| AstAnalyzer.TestFunctions | testforge/src/testforge/agents/analyzer/ast_analyzer.py:128-183 | the test functions of a module; TestFunctionsNamed states each is named test_*, ExtractTestFunctions that the loop computes them |
| BaseAgent.NewAgent | testforge/src/testforge/agents/base.py:31-32 | the agent's name is the given name when it is non-empty, and the class name otherwise |
| BaseAgent.DefaultValidation | testforge/src/testforge/agents/base.py:40-42 | the default validation reports no errors |
| BaseAgent.Execute | testforge/src/testforge/agents/base.py:44-69 | validation errors are returned as they are and the run is skipped; otherwise success carries the output, and a raising run gives success false with the one error message; the agent name is always the agent's own |
| BaseAgent.FailureExplains | testforge/src/testforge/agents/base.py:44-69 | a result is successful exactly when it carries no errors |
| BaseAgent.DefaultValidationRuns | testforge/src/testforge/agents/base.py:40-69 | with the default validation, success is exactly the run's success, and a failure gives exactly its message |
| ContextStore.RecordOf | testforge/src/testforge/context_store.py:110-116 | the run record counts the suite's tests, and counts no passes or failures without an execution result |
| ContextStore.AppContext.constructor | testforge/src/testforge/models/app_context.py:27-62 | a fresh context holds its identity, no map, empty lists, zero totals and both timestamps at creation time |
| ContextStore.AppContext.UpdateFromRun | testforge/src/testforge/context_store.py:66-121 | the whole new state: merged map, new test names and tested endpoints appended, untested endpoints recomputed when a map exists, one run record appended, totals grown by its counts, everything else unchanged, consistency kept |
| ContextStore.AppContext.MergeEndpointMap | testforge/src/testforge/context_store.py:77-85 | only the endpoint map changes: adopted when the context has none, extended with the new endpoints otherwise, untouched without an incoming map |
| ContextStore.AppContext.TrackTests | testforge/src/testforge/context_store.py:87-107 | names and "METHOD endpoint" keys of the suite's tests are added when absent, and the untested list is recomputed only when a map exists |
| ContextStore.AppContext.RecordRun | testforge/src/testforge/context_store.py:118-121 | the history grows by exactly the record and each total by its count |
| ContextStore.AppendNewEndpoints | testforge/src/testforge/context_store.py:82-85 | the loop appends exactly the incoming endpoints whose (method, path) was absent before the call |
| ContextStore.AddPicked | testforge/src/testforge/context_store.py:88-99 | the loop appends each picked value not already present, in suite order |
| ContextStore.AddNewSnoc | testforge/src/testforge/context_store.py:88-99 | one more value is appended exactly when it is not yet present |
| ContextStore.SumsStep | testforge/src/testforge/context_store.py:118-121 | each total equals the sum of its count over the run history once one record is appended |
| ContextStore.AddNewPrefix | testforge/src/testforge/context_store.py:88-99 | adding names keeps every existing entry and its order |
| ContextStore.AddNewMember | testforge/src/testforge/context_store.py:88-99 | after adding, a value is present exactly when it was present before or was offered |
| ContextStore.AddNewDistinct | testforge/src/testforge/context_store.py:88-99 | a list without duplicates stays without duplicates |
| ContextStore.AddNewPresent | testforge/src/testforge/context_store.py:88-99 | offering only names already present changes nothing |
| ContextStore.AddNewIdempotent | testforge/src/testforge/context_store.py:88-99 | tracking the same suite twice adds nothing the second time |
| ContextStore.MergedKeys | testforge/src/testforge/context_store.py:81-85 | merging keeps the existing endpoints as a prefix, and the merged keys are the old keys plus the incoming ones |
| ContextStore.MergedOnlyNew | testforge/src/testforge/context_store.py:82-85 | every appended endpoint has a (method, path) that was absent before |
| ContextStore.MergeIdempotent | testforge/src/testforge/context_store.py:77-85 | merging the same map twice is the same as merging it once |
| ContextStore.UntestedSpec | testforge/src/testforge/context_store.py:102-107 | the untested list is strictly sorted and holds exactly the map's "METHOD path" labels that are not tested |
| ContextStore.RecordCountsBounded | testforge/src/testforge/context_store.py:110-116 | a record's passed plus failed never exceed the number of results |
| Counting.Count | testforge/src/testforge/agents/analyzer/pattern_extractor.py:146-148 | a counter entry is positive exactly for values that occur, and never exceeds the number of values |
| Counting.Tally | testforge/src/testforge/agents/analyzer/pattern_extractor.py:156-158 | the counting loop yields a counter whose keys are exactly the values seen, each mapped to its number of occurrences |
| Counting.RankedEntry | testforge/src/testforge/agents/analyzer/pattern_extractor.py:150-152 | each ranked entry is a value's count paired with its first occurrence |
| Counting.MostCommonCounts | testforge/src/testforge/agents/analyzer/pattern_extractor.py:150-159 | `most_common(n)` lists at most n values, each occurring and paired with its exact count |
| Counting.MostCommonDistinct | testforge/src/testforge/agents/analyzer/pattern_extractor.py:150-159 | no value is listed twice |
| Counting.MostCommonOrder | testforge/src/testforge/agents/analyzer/pattern_extractor.py:150-159 | counts descend, and equal counts keep first-seen order |
| Counting.MostCommonTop | testforge/src/testforge/agents/analyzer/pattern_extractor.py:150-159 | a value left out means n values were listed, each counted more often or as often and seen earlier |
| Counting.MostCommon | testforge/src/testforge/agents/analyzer/pattern_extractor.py:150-159 | `Counter.most_common(n)`; MostCommonCounts, MostCommonDistinct, MostCommonOrder and MostCommonTop state the counts, distinct keys, descending order with ties by first occurrence and the cut at n |
| DemoApp.UsersJson | testforge/examples/flask_api_tests/demo_app.py:22 | one JSON object per stored user, in store order |
| DemoApp.Lookup | testforge/examples/flask_api_tests/demo_app.py:58-66 | a found index holds the id, and None means no user has it |
| DemoApp.UserStore.constructor | testforge/examples/flask_api_tests/demo_app.py:11-12 | the store starts empty with the next id 1 |
| DemoApp.UserStore.Create | testforge/examples/flask_api_tests/demo_app.py:25-53 | the handler's new store and reply are exactly those of the create rule |
| DemoApp.UserStore.Update | testforge/examples/flask_api_tests/demo_app.py:64-81 | the handler's new store and reply are exactly those of the update rule as written |
| DemoApp.UserStore.UpdateIntended | testforge/examples/flask_api_tests/test_users_golden_3.py:53-65 | the handler follows the corrected update rule, under which an empty body changes nothing and gives 200 |
| DemoApp.UserStore.Delete | testforge/examples/flask_api_tests/demo_app.py:84-89 | the handler's new store and reply are exactly those of the delete rule |
| DemoApp.CreateKeepsValid | testforge/examples/flask_api_tests/demo_app.py:25-53 | creation keeps ids distinct and below the next id |
| DemoApp.UpdateKeepsValid | testforge/examples/flask_api_tests/demo_app.py:64-81 | both update rules keep the store valid |
| DemoApp.DeleteKeepsValid | testforge/examples/flask_api_tests/demo_app.py:84-89 | deletion keeps the store valid |
| DemoApp.CreateRefusals | testforge/examples/flask_api_tests/demo_app.py:28-42 | 400 exactly for a missing or empty body or a missing name or email; 409 exactly for a taken email; any refusal leaves the store unchanged; the status is 201, 400 or 409 |
| DemoApp.CreateStores | testforge/examples/flask_api_tests/demo_app.py:44-53 | a created user is appended under the old next id with the given name and email and role "user" by default, the counter grows by one, the reply is the user, and a later get finds it |
| DemoApp.CounterNeverDecreases | testforge/examples/flask_api_tests/demo_app.py:51-86 | only creation moves the next id, and only upward |
| DemoApp.DeletedIdNotReused | testforge/examples/flask_api_tests/demo_app.py:50-86 | a user created after a delete never gets the deleted id |
| DemoApp.AbsentIsNotFound | testforge/examples/flask_api_tests/demo_app.py:58-88 | get, update and delete of an absent id give 404 and change nothing, update before it looks at the body |
| DemoApp.DeleteIsFinal | testforge/examples/flask_api_tests/demo_app.py:84-89 | after a delete, both a get and a second delete give 404 |
| DemoApp.UpdateChangesOnlyGivenKeys | testforge/examples/flask_api_tests/demo_app.py:74-81 | a non-empty update changes only the name, email and role keys it carries, touches no other user, checks no duplicate email and replies 200 with the user |
| DemoApp.EmptyUpdateRefused | testforge/examples/flask_api_tests/demo_app.py:70-72 | as written, an update of an existing user with `{}` is refused with 400 |
| DemoApp.EmptyUpdateChangesNothing | testforge/examples/flask_api_tests/test_users_golden_3.py:53-65 | under the corrected rule an empty update changes nothing and replies 200 with the user |
| DemoApp.UpdateVersionsAgree | testforge/examples/flask_api_tests/demo_app.py:64-81 | the two update rules differ only on the empty body |
| DemoApp.ListReportsAll | testforge/examples/flask_api_tests/demo_app.py:20-22 | listing replies 200 with every user and a total equal to the store size |
| DemoApp.SearchKeepsMatches | testforge/examples/flask_api_tests/demo_app.py:98-101 | the results are exactly the users whose name or email contains the query, in store order |
| DemoApp.SearchQueryRules | testforge/examples/flask_api_tests/demo_app.py:94-100 | the search ignores the query's letter case, and a missing or empty query gives 400 |
| DemoApp.SearchTotal | testforge/examples/flask_api_tests/demo_app.py:98-102 | the reply lists the hits and a total equal to their number |
| DemoApp.CreateUser | testforge/examples/flask_api_tests/demo_app.py:25-53 | POST /api/users; CreateRefusals states its 400 and 409 refusals, CreateStores the stored user and 201 reply, CreateKeepsValid the store invariant it keeps |
| DemoApp.GetUser | testforge/examples/flask_api_tests/demo_app.py:56-61 | GET /api/users/<id>; CreateStores states that a created user reads back, AbsentIsNotFound and DeleteIsFinal that a missing or deleted id gives 404 |
| DemoApp.UpdateUser | testforge/examples/flask_api_tests/demo_app.py:64-81 | PUT /api/users/<id>; UpdateChangesOnlyGivenKeys, EmptyUpdateRefused, AbsentIsNotFound and UpdateKeepsValid state its changes, its refusals and the invariant it keeps |
| DemoApp.DeleteUser | testforge/examples/flask_api_tests/demo_app.py:84-89 | DELETE /api/users/<id>; DeleteIsFinal, DeletedIdNotReused and DeleteKeepsValid state that the user is gone for good and the invariant is kept |
| DemoApp.SearchUsers | testforge/examples/flask_api_tests/demo_app.py:92-102 | GET /api/users/search; SearchQueryRules states the 400 reply without a query and that case does not matter, SearchKeepsMatches and SearchTotal which users come back and the total |
| Stages.CheckErrors | testforge/src/testforge/orchestration/golden_pipeline.py:105-147 | the executor and validator stages add at most two errors, none exactly when execution was skipped or succeeded and validation succeeded, each error naming its stage |
| Stages.ValidatorSees | testforge/src/testforge/orchestration/golden_pipeline.py:105-147 | the validator receives the execution result only when execution ran and succeeded, and the validation result is set exactly when the validator succeeds |
| GoldenPipeline.GoldenPipelineResult.constructor | testforge/src/testforge/orchestration/golden_pipeline.py:35-43 | a fresh result holds nothing and no errors |
| GoldenPipeline.RunGoldenPipeline | testforge/src/testforge/orchestration/golden_pipeline.py:50-149 | the stage sequence fills a fresh result with exactly the specified outcome, using the default configuration when none is given |
| GoldenPipeline.GoldenSuccessIff | testforge/src/testforge/orchestration/golden_pipeline.py:45-149 | success holds exactly when analysis and generation succeed, execution succeeds or is skipped, and validation succeeds |
| GoldenPipeline.AnalyzerFailureIsFatal | testforge/src/testforge/orchestration/golden_pipeline.py:78-81 | an analyzer failure records the one "Analyzer failed: " error and nothing else happens |
| GoldenPipeline.GeneratorFailureIsFatal | testforge/src/testforge/orchestration/golden_pipeline.py:100-103 | a generator failure keeps the style guide, leaves no suite, runs no later stage and records the one "Generator failed: " error |
| GoldenPipeline.LaterFailuresKeepSuite | testforge/src/testforge/orchestration/golden_pipeline.py:97-147 | once generated, the suite is kept; any later error makes the run unsuccessful; skipped execution leaves no execution result and no test file path |
| GoldenPipeline.GoldenErrorsBounded | testforge/src/testforge/orchestration/golden_pipeline.py:78-147 | a run records at most two errors |
| ObserverPipeline.ObserverPipelineResult.constructor | testforge/src/testforge/orchestration/observer_pipeline.py:37-45 | a fresh result holds nothing and no errors |
| ObserverPipeline.RunObserverPipeline | testforge/src/testforge/orchestration/observer_pipeline.py:52-173 | the stage sequence fills a fresh result with exactly the specified outcome, using the default configuration when none is given |
| ObserverPipeline.ObserverSuccessIff | testforge/src/testforge/orchestration/observer_pipeline.py:47-173 | success holds exactly when capture succeeds with some exchanges, mapping and generation succeed, execution succeeds or is skipped, and validation succeeds |
| ObserverPipeline.ObserverFailureIsFatal | testforge/src/testforge/orchestration/observer_pipeline.py:79-82 | an observer failure records the one "Observer failed: " error and nothing else happens |
| ObserverPipeline.EmptyCaptureStops | testforge/src/testforge/orchestration/observer_pipeline.py:84-86 | zero exchanges give the single error "No HTTP exchanges captured" and no mapping |
| ObserverPipeline.MapperFailureIsFatal | testforge/src/testforge/orchestration/observer_pipeline.py:95-98 | a mapper failure leaves no map and no suite and records the one "Mapper failed: " error |
| ObserverPipeline.GeneratorDefaults | testforge/src/testforge/orchestration/observer_pipeline.py:104-121 | without a golden style guide the generator gets a pytest/requests guide with no examples; the description falls back to the app name |
| ObserverPipeline.ObserverErrorsBounded | testforge/src/testforge/orchestration/observer_pipeline.py:79-171 | a run records at most two errors |
| Engine.UnknownMode | testforge/src/testforge/orchestration/engine.py:66-71 | an unknown mode gives success false with the one error "Unknown mode: " followed by the mode |
| Engine.OnlyCombinedRaises | testforge/src/testforge/orchestration/engine.py:142-156 | the dispatch raises exactly in combined mode with golden inputs whose analysis fails |
| Engine.GoldenResponseShape | testforge/src/testforge/orchestration/engine.py:74-104 | golden mode copies success, errors and test file path from the pipeline, with test count 0 and test file "" without a suite and summary "" without validation |
| Engine.ObserverResponseShape | testforge/src/testforge/orchestration/engine.py:107-139 | observer mode copies success, errors and test file path, and counts endpoints and tests as 0 when absent |
| Engine.CombinedWithoutGolden | testforge/src/testforge/orchestration/engine.py:142-190 | combined mode without golden inputs answers as observer mode does, under its own mode name and without the raw response |
| Engine.SuccessMeansNoErrors | testforge/src/testforge/orchestration/engine.py:58-190 | a successful response has no errors and one of the three known modes |
| Engine.RunPipeline | testforge/src/testforge/orchestration/engine.py:58-190 | the pipeline dispatch; UnknownMode, GoldenResponseShape, ObserverResponseShape, OnlyCombinedRaises and SuccessMeansNoErrors state what each mode returns and when it fails |
| Engine.RunCombined | testforge/src/testforge/orchestration/engine.py:142-190 | the combined mode; CombinedWithoutGolden states that without golden files it answers as the observer mode under the name combined, and OnlyCombinedRaises that it raises exactly when analysing the given golden files fails, and no other mode raises |
| Sorting.SortedSet | testforge/src/testforge/agents/mapper/api_mapper.py:99 | `sorted(set(xs))` is strictly ascending and holds exactly the values of xs |
| Sorting.StrictlySortedUnique | testforge/src/testforge/agents/mapper/api_mapper.py:99 | two strictly sorted lists with the same members are equal, so the sorted set is determined by its members |
| Sorting.SortedSetOnlyElements | testforge/src/testforge/agents/mapper/api_mapper.py:123-125 | the sorted union depends only on which values occur, not on repeats or order |
| Sorting.StrLtIsOrder | testforge/src/testforge/agents/mapper/api_mapper.py:234 | Python's string comparison is a strict total order |
| Sorting.PairLtIsOrder | testforge/src/testforge/agents/mapper/api_mapper.py:47 | the tuple comparison used to sort (method, path) keys is a strict total order |
| PyValues.DictTruthiness | testforge/src/testforge/agents/mapper/api_mapper.py:150 | a dict body is truthy exactly when non-empty, and None is falsy |
| PyValues.Get | testforge/src/testforge/agents/mapper/api_mapper.py:211 | a dict lookup fails exactly for an absent key and otherwise returns a stored value |
| PyValues.Put | testforge/src/testforge/agents/mapper/api_mapper.py:173 | assigning a present key keeps the key order; a new key goes last |
| PyValues.PutGet | testforge/src/testforge/agents/mapper/api_mapper.py:173 | after `d[k] = v`, `d[k]` is v and every other key reads as before |
| PyValues.PutDistinct | testforge/src/testforge/agents/mapper/api_mapper.py:173 | assignment keeps keys unique |
| Registry.RegisterHas | testforge/src/testforge/agents/mapper/api_mapper.py:202-206 | after a loop of `d[key(x)] = val(x)` over the kept items, a key is present exactly when some kept item has it |
| Registry.RegisterLast | testforge/src/testforge/agents/mapper/api_mapper.py:202-206 | each key holds the value of the last kept item with that key |
| Registry.RegisterEntry | testforge/src/testforge/agents/mapper/api_mapper.py:202-206 | every entry comes from some kept item |
| Registry.RegisterDistinct | testforge/src/testforge/agents/mapper/api_mapper.py:202-206 | the filled dict has unique keys |
| Grouping.Group | testforge/src/testforge/agents/mapper/api_mapper.py:41-44 | a group holds only items with its key, no more than there are items |
| Grouping.GroupNonEmpty | testforge/src/testforge/agents/mapper/api_mapper.py:41-44 | the group of any item's key is non-empty |
| Grouping.TotalSizeCovers | testforge/src/testforge/agents/mapper/api_mapper.py:41-44 | over distinct keys covering every item, the group sizes add up to the number of items |
| Grouping.GroupBy | testforge/src/testforge/agents/mapper/api_mapper.py:41-44 | the defaultdict loop yields exactly one entry per key seen, holding that key's items in order |
| FirstWins.CollectDistinct | testforge/src/testforge/agents/analyzer/pattern_extractor.py:138-143 | the `seen`-set loop keeps names unique |
| FirstWins.CollectNames | testforge/src/testforge/agents/analyzer/pattern_extractor.py:138-143 | a name is kept exactly when some item has it |
| FirstWins.CollectEmpty | testforge/src/testforge/agents/analyzer/pattern_extractor.py:138-143 | nothing is kept exactly when nothing qualifies |
| FirstWins.CollectFirst | testforge/src/testforge/agents/analyzer/pattern_extractor.py:138-143 | each kept item is the first one with its name |
| Picking.PickMember | old_stuff/TPDIMEIA_3_bck27jan_1200/scripts/process_results.py:134-137 | a filtering loop keeps a value exactly when some item yields it |
| Picking.PickAppend | old_stuff/TPDIMEIA_3_bck27jan_1200/scripts/process_results.py:111-117 | filtering a concatenation concatenates the filtered parts |
| Search.FirstFromNone | testforge/src/testforge/agents/analyzer/ast_analyzer.py:151 | a failed leftmost search means no position from the start matches |
| Search.FirstFromWitness | testforge/src/testforge/agents/analyzer/ast_analyzer.py:151 | a successful search returns the leftmost matching position |
| Flakiness.FirstSeenMember | testforge/src/testforge/agents/validator/flakiness.py:36-37 | a name gets a history entry exactly when some run reports it |
| Flakiness.RecordStatuses | testforge/src/testforge/agents/validator/flakiness.py:36-37 | recording a run appends, to each name's history, that run's statuses for it in order |
| Flakiness.RecordHasKey | testforge/src/testforge/agents/validator/flakiness.py:36-37 | after a run, a name has a history exactly when it had one or the run reports it |
| Flakiness.HistoriesSpec | testforge/src/testforge/agents/validator/flakiness.py:28-37 | after k runs each name's history is its statuses over the runs in run order, and it exists exactly when non-empty |
| Flakiness.FirstSeenSnoc | testforge/src/testforge/agents/validator/flakiness.py:37 | `setdefault` adds a new name last and leaves a known name in place |
| Flakiness.RecordKeys | testforge/src/testforge/agents/validator/flakiness.py:36-37 | the history keys stay the names in first-seen order |
| Flakiness.HistoriesKeys | testforge/src/testforge/agents/validator/flakiness.py:26-37 | the history dict is keyed by all reported names in first-seen order |
| Flakiness.HistoriesDistinct | testforge/src/testforge/agents/validator/flakiness.py:26-37 | the history dict has unique keys |
| Flakiness.HistoryEntries | testforge/src/testforge/agents/validator/flakiness.py:26-37 | every history entry holds its name's statuses over the runs |
| Flakiness.FlakySpec | testforge/src/testforge/agents/validator/flakiness.py:39-42 | the flaky list is the first-seen names filtered by flakiness of their history |
| Flakiness.FlakyAmongMember | testforge/src/testforge/agents/validator/flakiness.py:39-42 | a name is listed exactly when it is among the names and its history is flaky |
| Flakiness.FlakyMembers | testforge/src/testforge/agents/validator/flakiness.py:39-42 | a test is reported exactly when some run reports it and its history holds two distinct statuses; no test is reported twice |
| Flakiness.FlakyIff | testforge/src/testforge/agents/validator/flakiness.py:41 | `len(set(statuses)) > 1` holds exactly when two statuses differ, so an all-identical history is never flaky |
| Flakiness.HistoryBound | testforge/src/testforge/agents/validator/flakiness.py:28-37 | when each run names a test at most once, every history has at most as many statuses as runs |
| Flakiness.StatusesInBound | testforge/src/testforge/agents/validator/flakiness.py:36-37 | a run without repeated names contributes at most one status per name, exactly one when it reports the name |
| Flakiness.DetectFlakyTests | testforge/src/testforge/agents/validator/flakiness.py:12-47 | fewer than two runs give [] without calling the executor; otherwise the executor is called exactly `runs` times and the result is the flaky names of the histories |
| Flakiness.RecordRun | testforge/src/testforge/agents/validator/flakiness.py:36-37 | the per-run loop yields exactly the recorded histories |
| Flakiness.CollectFlaky | testforge/src/testforge/agents/validator/flakiness.py:39-42 | the second loop yields exactly the flaky names in dict order |
| HttpProxy.QueryParams | testforge/src/testforge/agents/observer/http_proxy.py:96-98 | the loop builds the name-to-value dict of the query pairs |
| HttpProxy.LastPairWins | testforge/src/testforge/agents/observer/http_proxy.py:96-102 | a later pair with the same name overwrites an earlier one |
| HttpProxy.ExchangesOf | testforge/src/testforge/agents/observer/http_proxy.py:84-144 | one exchange per HAR entry |
| HttpProxy.ExchangeAt | testforge/src/testforge/agents/observer/http_proxy.py:84-144 | the i-th exchange is built from the i-th entry, in entry order |
| HttpProxy.EntryDefaults | testforge/src/testforge/agents/observer/http_proxy.py:85-138 | missing fields default to method "GET", url "", status 0 and duration 0; without a request there is no body, content type or query |
| HttpProxy.BodyRule | testforge/src/testforge/agents/observer/http_proxy.py:107-125 | a body is decoded only for a JSON mime type and non-empty text that decodes; otherwise the raw text stays, or None without text; the content type is the mime type |
| HttpProxy.ParsedJsonRequest | testforge/src/testforge/agents/observer/http_proxy.py:107-110 | a parsed exchange is a JSON request exactly when its postData has a mime type containing "json" |
| HttpProxy.ParseHarFile | testforge/src/testforge/agents/observer/http_proxy.py:77-146 | the entry loop returns exactly the specified exchanges |
| HttpProxy.Observe | testforge/src/testforge/agents/observer/http_proxy.py:48-75 | captured exchanges, when present, are used and the HAR path ignored; otherwise a non-empty HAR path is parsed; with neither the record has no exchanges |
| Interactions.JsonTypeIff | testforge/src/testforge/models/interactions.py:30-36 | a content type is JSON exactly when it is present and contains "json"; None is never JSON |
| Interactions.SuccessIsTwoOrThreeHundred | testforge/src/testforge/models/interactions.py:38-40 | success is exactly a 2xx or 3xx status |
| Interactions.UniqueEndpoints | testforge/src/testforge/models/interactions.py:66-68 | the set holds exactly the raw (method, path) pairs of the exchanges |
| Interactions.UniqueEndpointsBound | testforge/src/testforge/models/interactions.py:66-68 | there are never more unique endpoints than exchanges |
| Results.StatusName | testforge/src/testforge/models/results.py:15 | a status is one of the five literals |
| Results.StatusNameInjective | testforge/src/testforge/models/results.py:15 | distinct statuses have distinct names |
| Results.CountStatus | testforge/src/testforge/models/results.py:33-43 | a counter never exceeds the number of results |
| Results.CountStatusIsCardinality | testforge/src/testforge/models/results.py:33-43 | a counter is the number of results with exactly that status |
| Results.CountersBounded | testforge/src/testforge/models/results.py:33-43 | passed, failed and errors together never exceed the number of results |
| Results.PassRate | testforge/src/testforge/models/results.py:45-50 | the pass rate lies in [0, 1], is 0 with no results, and is 1 exactly when there are results and all passed |
| TestModel.EndpointMap.EndpointCount | testforge/src/testforge/models/test_model.py:37-39 | the endpoint count is the number of endpoints |
| TestModel.TestSuite.TestCount | testforge/src/testforge/models/test_model.py:68-70 | the test count is the number of tests |
| TestModel.TestParts | testforge/src/testforge/models/test_model.py:79-80 | every test contributes exactly one part, its stripped source, in suite order, even when empty |
| TestModel.HeadParts | testforge/src/testforge/models/test_model.py:75-78 | stripped imports and setup come first, each only when non-empty |
| TestModel.FilePartsShape | testforge/src/testforge/models/test_model.py:74-80 | the parts are the head parts followed by one part per test |
| TestModel.ToFileContentEnds | testforge/src/testforge/models/test_model.py:81 | the rendering always ends in "\n", and an empty suite renders as exactly "\n" |
| TestModel.ToFileContentSingle | testforge/src/testforge/models/test_model.py:72-81 | a lone test without imports or setup renders as its stripped source and "\n" |
| TestModel.ToFileContent | testforge/src/testforge/models/test_model.py:72-81 | a suite as one file; ToFileContentSingle states a lone test without imports or setup gives its stripped source and a newline, ToFileContentEnds that the content always ends with a newline |
| PatternExtractor.DocstringCount | testforge/src/testforge/agents/analyzer/pattern_extractor.py:91-92 | at most one docstring per test is counted |
| PatternExtractor.ParametrizeCount | testforge/src/testforge/agents/analyzer/pattern_extractor.py:93-94 | at most one parametrized mark per test is counted |
| PatternExtractor.SourcesOf | testforge/src/testforge/agents/analyzer/pattern_extractor.py:114 | one source per example, in example order |
| PatternExtractor.Threshold | testforge/src/testforge/agents/analyzer/pattern_extractor.py:124 | the common-import threshold is at least 1 |
| PatternExtractor.FrequentStep | testforge/src/testforge/agents/analyzer/pattern_extractor.py:127-131 | one step of the selection loop appends the import exactly when its key reaches the threshold and was not seen |
| PatternExtractor.StylesOf | testforge/src/testforge/agents/analyzer/pattern_extractor.py:146-148 | one style per assertion, in order |
| PatternExtractor.TestsSnoc | testforge/src/testforge/agents/analyzer/pattern_extractor.py:84-94 | one more test adds its assertions, decorators, line count, docstring and parametrize mark to the running totals |
| PatternExtractor.ExamplesSnoc | testforge/src/testforge/agents/analyzer/pattern_extractor.py:77-82 | one more example extends the imports, fixtures and tests and sets the class flag when it declares a class |
| PatternExtractor.AccumulateTests | testforge/src/testforge/agents/analyzer/pattern_extractor.py:84-94 | the inner loop leaves the totals describing every test seen and the example-level fields alone |
| PatternExtractor.Accumulate | testforge/src/testforge/agents/analyzer/pattern_extractor.py:77-94 | the outer loop leaves the totals describing every example |
| PatternExtractor.DetectFramework | testforge/src/testforge/agents/analyzer/pattern_extractor.py:96-101 | the loop returns the framework of the imports |
| PatternExtractor.DetectClient | testforge/src/testforge/agents/analyzer/pattern_extractor.py:103-111 | the loop returns the client decided by the first httpx or aiohttp import |
| PatternExtractor.SelectFrequent | testforge/src/testforge/agents/analyzer/pattern_extractor.py:119-131 | the loop returns the first import of each key counted at least threshold times |
| PatternExtractor.SelectCommonFixtures | testforge/src/testforge/agents/analyzer/pattern_extractor.py:133-143 | the loop returns the first fixture of each name |
| PatternExtractor.BuildStyleGuide | testforge/src/testforge/agents/analyzer/pattern_extractor.py:64-175 | the style guide built step by step is the specified one |
| PatternExtractor.UploadedExamples | testforge/src/testforge/agents/analyzer/pattern_extractor.py:49-52 | one example per uploaded source |
| PatternExtractor.CollectExamples | testforge/src/testforge/agents/analyzer/pattern_extractor.py:44-52 | file examples come first, then the uploaded ones in order |
| PatternExtractor.Analyze | testforge/src/testforge/agents/analyzer/pattern_extractor.py:41-62 | the agent run returns the specified output or error |
| PatternExtractor.AllImportsMember | testforge/src/testforge/agents/analyzer/pattern_extractor.py:77-78 | an import is collected exactly when some example has it |
| PatternExtractor.AllTestsMember | testforge/src/testforge/agents/analyzer/pattern_extractor.py:84 | a test is visited exactly when some example has it |
| PatternExtractor.AssertionTotalIsCount | testforge/src/testforge/agents/analyzer/pattern_extractor.py:86-88 | the assertion total is the length of the collected assertion list |
| PatternExtractor.ParametrizeCountPositive | testforge/src/testforge/agents/analyzer/pattern_extractor.py:93-94 | the parametrize count is positive exactly when some test has a parametrize decorator |
| PatternExtractor.FrameworkRule | testforge/src/testforge/agents/analyzer/pattern_extractor.py:96-101 | the framework is unittest exactly when some import is the unittest module, pytest otherwise |
| PatternExtractor.ClientDefault | testforge/src/testforge/agents/analyzer/pattern_extractor.py:103-111 | the client stays requests exactly when no import is httpx or aiohttp |
| PatternExtractor.ClientDecidedAt | testforge/src/testforge/agents/analyzer/pattern_extractor.py:105-111 | the first httpx or aiohttp import decides the client; later ones are ignored |
| PatternExtractor.TestClientOverride | testforge/src/testforge/agents/analyzer/pattern_extractor.py:113-116 | any example mentioning test_client or TestClient makes the client test_client, whatever the imports |
| PatternExtractor.CommonImportsDistinct | testforge/src/testforge/agents/analyzer/pattern_extractor.py:125-131 | no key appears twice among the common imports |
| PatternExtractor.CommonImportsKeys | testforge/src/testforge/agents/analyzer/pattern_extractor.py:119-131 | a key is common exactly when it is counted at least threshold times |
| PatternExtractor.CommonImportsFirst | testforge/src/testforge/agents/analyzer/pattern_extractor.py:127-131 | each common import is the first import with its key, and they keep collection order |
| PatternExtractor.FewExamplesKeepAll | testforge/src/testforge/agents/analyzer/pattern_extractor.py:124 | with at most three examples the threshold is 1, so every import key is common |
| PatternExtractor.CommonFixturesSpec | testforge/src/testforge/agents/analyzer/pattern_extractor.py:133-143 | the common fixtures hold each fixture name exactly once, and exactly the names that occur |
| PatternExtractor.CommonFixturesFirst | testforge/src/testforge/agents/analyzer/pattern_extractor.py:138-143 | each common fixture is the first with its name, in collection order |
| PatternExtractor.CommonAssertionsSpec | testforge/src/testforge/agents/analyzer/pattern_extractor.py:145-153 | at most five distinct styles, each with its real count and its own name as pattern, by decreasing count and first appearance on ties |
| PatternExtractor.CommonDecoratorsSpec | testforge/src/testforge/agents/analyzer/pattern_extractor.py:155-159 | at most five distinct decorators that occur, by decreasing count and first appearance on ties |
| PatternExtractor.AverageRule | testforge/src/testforge/agents/analyzer/pattern_extractor.py:170-171 | dividing by max(count, 1): the total itself with no tests, otherwise the mean |
| PatternExtractor.StyleGuideAverages | testforge/src/testforge/agents/analyzer/pattern_extractor.py:170-171 | the averages are the assertion and line totals over the test count, 0.0 without tests |
| PatternExtractor.StyleGuideFlags | testforge/src/testforge/agents/analyzer/pattern_extractor.py:172-173 | docstrings are used exactly when more than half the tests have one; parametrize exactly when some test is parametrized |
| PatternExtractor.UsesParametrizeRule | testforge/src/testforge/agents/analyzer/pattern_extractor.py:173 | parametrize is used exactly when some example has a parametrized test |
| PatternExtractor.AnalyzeSpec | testforge/src/testforge/agents/analyzer/pattern_extractor.py:41-62 | the run fails exactly when no file and no source is given; otherwise it returns all examples, file ones first, uploaded ones named by index, with the guide built on them |
| PatternExtractor.UploadedNamesDistinct | testforge/src/testforge/agents/analyzer/pattern_extractor.py:52 | distinct upload indexes give distinct file names |
| PatternExtractor.StyleGuideOf | testforge/src/testforge/agents/analyzer/pattern_extractor.py:64-175 | the style guide of the golden examples; FrameworkRule, TestClientOverride, FewExamplesKeepAll, StyleGuideAverages, StyleGuideFlags and UsesParametrizeRule state each of its fields |
| ProcessResults.RelevanceIgnoresCase | old_stuff/TPDIMEIA_3_bck27jan_1200/scripts/process_results.py:25-26 | relevance is decided on the lower-cased joined text, so the case of title, abstract and keywords never matters |
| ProcessResults.SoftwareSuffices | old_stuff/TPDIMEIA_3_bck27jan_1200/scripts/process_results.py:28-41 | once the text mentions "software" the exclusion never rejects, and relevance is the agent and model groups (software already meets the third) |
| ProcessResults.ExclusionRejects | old_stuff/TPDIMEIA_3_bck27jan_1200/scripts/process_results.py:28-34 | an excluded whole word rejects the paper unless the text mentions "software" or "code" |
| ProcessResults.InclusionDecides | old_stuff/TPDIMEIA_3_bck27jan_1200/scripts/process_results.py:36-41 | without an excluded word a paper is relevant exactly when each of the three keyword groups matches a whole word |
| ProcessResults.ParseAcmMd | old_stuff/TPDIMEIA_3_bck27jan_1200/scripts/process_results.py:77-105 | the line loop returns exactly the papers the line rule yields, in order |
| ProcessResults.AcmLineRules | old_stuff/TPDIMEIA_3_bck27jan_1200/scripts/process_results.py:78-104 | a line yields a paper exactly when it is non-empty after stripping, does not start with "Title" and has at least three fields; the paper has authors "N/A", source "ACM", no keywords or DOI, title and summary without outer quotes, and an empty summary with only three fields |
| ProcessResults.AcmPapersFromLines | old_stuff/TPDIMEIA_3_bck27jan_1200/scripts/process_results.py:77-105 | a paper is read exactly when some line yields it, and there are never more papers than lines |
| ProcessResults.Deduplicate | old_stuff/TPDIMEIA_3_bck27jan_1200/scripts/process_results.py:121-129 | the dictionary loop returns the specified deduplication |
| ProcessResults.NormTitleIgnoresPunctuation | old_stuff/TPDIMEIA_3_bck27jan_1200/scripts/process_results.py:124 | removing \W characters makes punctuation in a title irrelevant to its key |
| ProcessResults.NormTitleIgnoresCase | old_stuff/TPDIMEIA_3_bck27jan_1200/scripts/process_results.py:124 | the title key ignores case |
| ProcessResults.DeduplicatedDistinct | old_stuff/TPDIMEIA_3_bck27jan_1200/scripts/process_results.py:122-129 | no two kept papers share a title key |
| ProcessResults.DeduplicatedCovers | old_stuff/TPDIMEIA_3_bck27jan_1200/scripts/process_results.py:122-129 | every title key of the input is kept, and no other |
| ProcessResults.DeduplicatedKeepsFirst | old_stuff/TPDIMEIA_3_bck27jan_1200/scripts/process_results.py:125-129 | each kept paper is the first with its key; later duplicates are dropped |
| ProcessResults.SelectRelevant | old_stuff/TPDIMEIA_3_bck27jan_1200/scripts/process_results.py:133-137 | the filter loop returns the specified selection |
| ProcessResults.SelectedMember | old_stuff/TPDIMEIA_3_bck27jan_1200/scripts/process_results.py:134-137 | a paper is selected exactly when it is among the unique papers and relevant |
| ProcessResults.SelectedDistinct | old_stuff/TPDIMEIA_3_bck27jan_1200/scripts/process_results.py:134-137 | filtering keeps the title keys distinct |
| ProcessResults.WriteTexTable | old_stuff/TPDIMEIA_3_bck27jan_1200/scripts/process_results.py:147-155 | the written table is the header line followed by one row per selected paper |
| ProcessResults.SafeTitleRoundTrip | old_stuff/TPDIMEIA_3_bck27jan_1200/scripts/process_results.py:153 | escaping & and then % in a title loses nothing: undoing both gives the title back |
| ProcessResults.SafeTitlePercents | old_stuff/TPDIMEIA_3_bck27jan_1200/scripts/process_results.py:153 | every % in an escaped title is preceded by a backslash |
| ProcessResults.SafeVenueOnlyAmpersand | old_stuff/TPDIMEIA_3_bck27jan_1200/scripts/process_results.py:154 | a venue only has its & escaped, loses nothing, and one without & is unchanged |
| ProcessResults.ProcessResultsMain | old_stuff/TPDIMEIA_3_bck27jan_1200/scripts/process_results.py:110-155 | the selection is the relevant papers among the title-deduplicated IEEE and ACM records in load order, and the table is rendered from it |
| ProcessResults.SelectionSound | old_stuff/TPDIMEIA_3_bck27jan_1200/scripts/process_results.py:121-137 | every selected paper is relevant and came from the input, and no two share a title key |
| ProcessResults.IsRelevant | old_stuff/TPDIMEIA_3_bck27jan_1200/scripts/process_results.py:25-41 | the relevance filter on title, abstract and keywords; RelevanceIgnoresCase, ExclusionRejects, SoftwareSuffices and InclusionDecides state its case-folding, its exclusions and its two ways of accepting |
| TexEscape.UnescapeEscape | old_stuff/TPDIMEIA_3_bck27jan_1200/scripts/process_results.py:153-154 | escaping one special character is undone by reading its escapes back |
| TexEscape.EscapedOccurrences | old_stuff/TPDIMEIA_3_bck27jan_1200/scripts/process_results.py:153 | each occurrence of the escaped character has a backslash before it |
| TexEscape.EscapeAbsent | old_stuff/TPDIMEIA_3_bck27jan_1200/scripts/process_results.py:154 | a string without the character is left unchanged |
| GenerateBib.KeyNeedsTitle | old_stuff/TPDIMEIA_3_bck27jan_1200/scripts/generate_bib.py:22 | a key exists exactly when the title has a word; a blank title raises IndexError |
| GenerateBib.KeyShape | old_stuff/TPDIMEIA_3_bck27jan_1200/scripts/generate_bib.py:21-24 | the key is the lower-cased last name, year and first title word with non-word characters removed, and is all lower case |
| GenerateBib.LastNameRules | old_stuff/TPDIMEIA_3_bck27jan_1200/scripts/generate_bib.py:13-19 | the last name comes from the first author alone: the stripped text before a comma, else the last token, else "Anonymous" |
| GenerateBib.ShortenBounds | old_stuff/TPDIMEIA_3_bck27jan_1200/scripts/generate_bib.py:54 | short text is kept; longer text is cut to n characters followed by "...", so never longer than n + 3 |
| GenerateBib.EntryFields | old_stuff/TPDIMEIA_3_bck27jan_1200/scripts/generate_bib.py:42-52 | an entry is an article exactly when the source mentions Journal or the venue Transactions, with a journal field, otherwise inproceedings with a booktitle; authors have every ";" replaced by " and" |
| GenerateBib.ShortVenueAfterParen | old_stuff/TPDIMEIA_3_bck27jan_1200/scripts/generate_bib.py:63 | a venue with a parenthesis is shortened to the text after its last "(" with ")" stripped from both ends |
| GenerateBib.ShortVenueClean | old_stuff/TPDIMEIA_3_bck27jan_1200/scripts/generate_bib.py:63 | such a short venue contains no "(" and neither starts nor ends with ")" |
| GenerateBib.ShortVenueWithoutParen | old_stuff/TPDIMEIA_3_bck27jan_1200/scripts/generate_bib.py:63 | a venue without a parenthesis gives its first ten characters, or the whole venue when it has at most ten |
| GenerateBib.TableTitlesRoundTrip | old_stuff/TPDIMEIA_3_bck27jan_1200/scripts/generate_bib.py:61-62 | the escaped table titles read back to the shortened titles |
| GenerateBib.RqTagsOrdered | old_stuff/TPDIMEIA_3_bck27jan_1200/scripts/generate_bib.py:90-97 | each research question is tagged exactly when one of its words occurs, and the tags come in RQ1, RQ2, RQ3 order |
| GenerateBib.RqLabelDefault | old_stuff/TPDIMEIA_3_bck27jan_1200/scripts/generate_bib.py:99 | the label is "RQ1" exactly when neither RQ2 nor RQ3 words occur (RQ1 is the default), and always starts with "RQ" |
| GenerateBib.KeyedFailureSticks | old_stuff/TPDIMEIA_3_bck27jan_1200/scripts/generate_bib.py:36-37 | the first paper whose key fails ends the loop with that error |
| GenerateBib.KeyedOk | old_stuff/TPDIMEIA_3_bck27jan_1200/scripts/generate_bib.py:36-66 | the loop succeeds exactly when every key can be made; a failure is the error of some paper's key |
| GenerateBib.KeyedAt | old_stuff/TPDIMEIA_3_bck27jan_1200/scripts/generate_bib.py:36-66 | on success there is one rendered item per paper, the i-th made from the i-th paper and its key |
| GenerateBib.ScanOutcome | old_stuff/TPDIMEIA_3_bck27jan_1200/scripts/generate_bib.py:36-37 | the scan succeeds exactly when every title has a word, and fails only with IndexError |
| GenerateBib.BuildBibEntry | old_stuff/TPDIMEIA_3_bck27jan_1200/scripts/generate_bib.py:42-55 | the built entry is the specified BibTeX text |
| GenerateBib.BuildEntries | old_stuff/TPDIMEIA_3_bck27jan_1200/scripts/generate_bib.py:36-66 | the first loop yields the bibliography entries and citation rows exactly when every key can be made, else its error |
| GenerateBib.BuildStudyRow | old_stuff/TPDIMEIA_3_bck27jan_1200/scripts/generate_bib.py:86-108 | the built row is the specified table row |
| GenerateBib.WriteStudiesTable | old_stuff/TPDIMEIA_3_bck27jan_1200/scripts/generate_bib.py:75-113 | the second loop yields the table text from the rows, or the key error |
| GenerateBib.GenerateBibMain | old_stuff/TPDIMEIA_3_bck27jan_1200/scripts/generate_bib.py:27-113 | the script succeeds exactly when every title has a word, failing with IndexError otherwise, and its output is the appendix, the rows and the table |
| GenerateBib.BibliographyInOrder | old_stuff/TPDIMEIA_3_bck27jan_1200/scripts/generate_bib.py:36-113 | with all keys made, there is one entry and one table row per paper, in paper order |
| GenerateBib.GenerateKey | old_stuff/TPDIMEIA_3_bck27jan_1200/scripts/generate_bib.py:9-25 | the citation key of a paper; KeyShape states it is the lower-cased author surname, year and first title word, and KeyNeedsTitle that it fails with IndexError exactly when the title has no text |
| Prompts.ExampleBlocks | testforge/src/testforge/llm/prompts/api_test_gen.py:115-117 | one block per golden source |
| Prompts.BuildStyleContext | testforge/src/testforge/llm/prompts/api_test_gen.py:113-118 | the loop builds the specified style context |
| Prompts.ExampleBlockAt | testforge/src/testforge/llm/prompts/api_test_gen.py:116-117 | the i-th block is numbered i + 1 (enumerate from 1) and holds the i-th source |
| Prompts.HeadingNumber | testforge/src/testforge/llm/prompts/api_test_gen.py:117 | the number written in a heading reads back as the example's number |
| Prompts.ExampleReadBack | testforge/src/testforge/llm/prompts/api_test_gen.py:117 | each block starts with its heading and its fenced part strips back to the source |
| Prompts.ListOrNone | testforge/src/testforge/llm/prompts/api_test_gen.py:131-133 | a missing or empty list is written "none", otherwise joined with ", " |
| Prompts.LastTwenty | testforge/src/testforge/llm/prompts/api_test_gen.py:134 | only the last twenty known test names are kept, all of them when there are fewer |
| Prompts.ContextTextNonEmpty | testforge/src/testforge/llm/prompts/api_test_gen.py:130-135 | a filled context section is never empty |
| Prompts.ContextSectionEmptyIff | testforge/src/testforge/llm/prompts/api_test_gen.py:128-129 | the section is empty exactly when no tested, untested or gap list is given |
| Prompts.KnownNamesListed | testforge/src/testforge/llm/prompts/api_test_gen.py:130-135 | a non-empty section lists the known test names: the last twenty, or "none" without any |
| Prompts.HeaderLine | testforge/src/testforge/llm/prompts/api_test_gen.py:142-145 | every endpoint line starts with "- " |
| Prompts.FieldLine | testforge/src/testforge/llm/prompts/api_test_gen.py:146-157 | an optional field adds one indented captioned line exactly when it is present and truthy |
| Prompts.AuthLine | testforge/src/testforge/llm/prompts/api_test_gen.py:158-159 | an auth line is added exactly when auth is required |
| Prompts.AuthDefault | testforge/src/testforge/llm/prompts/api_test_gen.py:159 | without an auth type the auth line reads "required" |
| Prompts.BuildEndpointInfo | testforge/src/testforge/llm/prompts/api_test_gen.py:138-160 | the loop builds the specified endpoint text |
| Prompts.AppendEndpoint | testforge/src/testforge/llm/prompts/api_test_gen.py:141-159 | one iteration appends the specified lines for one endpoint |
| Prompts.HeaderCountAppend | testforge/src/testforge/llm/prompts/api_test_gen.py:140-159 | header lines of joined line lists add up |
| Prompts.HeadersPerEndpoint | testforge/src/testforge/llm/prompts/api_test_gen.py:141-159 | there is exactly one "- " line per endpoint; every other line is indented |
| Prompts.NoEndpointsIff | testforge/src/testforge/llm/prompts/api_test_gen.py:160 | the fallback sentence appears exactly when there are no endpoints |
| Prompts.FirstLineStarts | testforge/src/testforge/llm/prompts/api_test_gen.py:141-145 | the first line is the first endpoint's header line |
| Quality.LineCount | testforge/src/testforge/agents/validator/quality.py:105-106 | splitting the stripped code on newlines always gives at least one line |
| Quality.BaseAssertionQuality | testforge/src/testforge/agents/validator/quality.py:72-80 | the assertion quality lies in [0, 1], is 0 exactly without assertions and 1 exactly from four assertions on |
| Quality.AssertionQuality | testforge/src/testforge/agents/validator/quality.py:72-86 | an API test without a status check keeps 70% of the base quality, any other test all of it; always in [0, 1] |
| Quality.ReadabilityRange | testforge/src/testforge/agents/validator/quality.py:109-118 | readability before clamping already lies in [0.5, 0.8], so the clamp never changes it |
| Quality.OverallRange | testforge/src/testforge/agents/validator/quality.py:125-129 | the weighted overall score lies in [0.15, 0.94] |
| Quality.CoverageBreadth | testforge/src/testforge/agents/validator/quality.py:96-102 | breadth is a quarter per signal present: 0, 0.25, 0.5, 0.75 or 1 |
| Quality.AssertionRule | testforge/src/testforge/agents/validator/quality.py:72-80 | no assertions gives quality 0 and the "No assertions found" issue; exactly one gives 0.5 and the "more assertions" suggestion; more give min(1, n/4) |
| Quality.StatusCodeRule | testforge/src/testforge/agents/validator/quality.py:83-86 | the missing-status issue is raised exactly for an API test without status_code, which then keeps 70% of its assertion quality |
| Quality.ScoreRanges | testforge/src/testforge/agents/validator/quality.py:65-129 | every score component of a test lies in its range |
| Quality.TypicalGoodTest | testforge/src/testforge/agents/validator/quality.py:65-129 | a documented API test of 3 to 30 lines with four assertions, a status and a body check scores 0.79 |
| Quality.LocalhostRule | testforge/src/testforge/agents/validator/quality.py:121-122 | the base_url suggestion is made exactly when the code holds a localhost URL with a port |
| Quality.ScoreTest | testforge/src/testforge/agents/validator/quality.py:65-129 | scoring a test gives the specified score |
| Quality.ScoreWith | testforge/src/testforge/agents/validator/quality.py:65-129 | the step-by-step scoring gives the specified score from the code's features |
| Quality.JudgeAssertions | testforge/src/testforge/agents/validator/quality.py:72-93 | the assertion step gives the specified quality, issues and suggestions |
| Quality.JudgeReadability | testforge/src/testforge/agents/validator/quality.py:104-118 | the readability step gives the specified score, the too-short issue below three lines and the too-long suggestion above thirty |
| Quality.TotalOverallBound | testforge/src/testforge/agents/validator/quality.py:41 | a sum of scores each at most hi lies between 0 and hi times their number |
| Quality.ScoresOf | testforge/src/testforge/agents/validator/quality.py:35-37 | one score per test |
| Quality.ScoresOfAt | testforge/src/testforge/agents/validator/quality.py:35-37 | the i-th score is the score of the i-th test |
| Quality.MeanBound | testforge/src/testforge/agents/validator/quality.py:41 | a mean of values in [0, hi] lies in [0, hi] |
| Quality.AverageRange | testforge/src/testforge/agents/validator/quality.py:39-41 | the average quality lies in [0, 0.94] and is 0 for an empty suite |
| Quality.SummaryShape | testforge/src/testforge/agents/validator/quality.py:43-53 | the summary has the test count and the average, plus passed/total and the pass rate when there is an execution result |
| Quality.ScoreAll | testforge/src/testforge/agents/validator/quality.py:35-37 | the comprehension loop returns the scores of all tests in order |
| Quality.Run | testforge/src/testforge/agents/validator/quality.py:34-63 | the validator returns the specified validation result |
| Runner.StatusMatchSpec | testforge/src/testforge/agents/executor/runner.py:187-190 | a line matches the verbose pattern exactly when some "::" position does, and the leftmost one decides: a non-empty word name and a PASSED, FAILED, ERROR or SKIPPED status |
| Runner.SummaryMatchSpec | testforge/src/testforge/agents/executor/runner.py:212-214 | a summary line matches exactly when it starts with "FAILED", then whitespace, and some "::" after it is followed by a word name |
| Runner.StatusLinesAt | testforge/src/testforge/agents/executor/runner.py:183-190 | the i-th verbose match is the match of the i-th stripped line |
| Runner.SummaryLinesAt | testforge/src/testforge/agents/executor/runner.py:211-214 | the i-th summary match is the match of the i-th stripped line |
| Runner.StatusMatchesNoTimeout | testforge/src/testforge/agents/executor/runner.py:188 | the verbose pattern never yields a timeout status |
| Runner.ParseOutputNonEmpty | testforge/src/testforge/agents/executor/runner.py:166-240 | parsing always returns at least one result |
| Runner.ParseOutputDistinct | testforge/src/testforge/agents/executor/runner.py:195-217 | no test name is reported twice |
| Runner.ParseOutputCases | testforge/src/testforge/agents/executor/runner.py:183-238 | the verbose pass is used when it finds a test, else the summary pass, else a single suite result |
| Runner.ParseOutputStreams | testforge/src/testforge/agents/executor/runner.py:203-236 | every result carries the whole stdout and stderr |
| Runner.StatusPassSpec | testforge/src/testforge/agents/executor/runner.py:172-206 | each verbose result comes from the first line naming its test; a failed test takes what the FAILURES dict holds under its name, or "", any other status "" |
| Runner.StatusPassNames | testforge/src/testforge/agents/executor/runner.py:183-206 | a test is reported exactly when some verbose line names it |
| Runner.SummaryPassSpec | testforge/src/testforge/agents/executor/runner.py:209-226 | each summary result is failed, without an error message, from the first FAILED line naming its test |
| Runner.FallbackSpec | testforge/src/testforge/agents/executor/runner.py:228-238 | with no test lines the result is one "<suite>" entry, failed exactly when stdout mentions FAILED or ERROR, passed otherwise |
| Runner.ParsePytestOutput | testforge/src/testforge/agents/executor/runner.py:166-240 | the FAILURES loop, the two line loops and the fallback return the specified results |
| Runner.StatusPass | testforge/src/testforge/agents/executor/runner.py:183-206 | the first loop returns the first result per name, and the seen set holds exactly their names |
| Runner.SummaryPass | testforge/src/testforge/agents/executor/runner.py:209-226 | the second loop returns the first failed result per summary name |
| Runner.SuiteStem | testforge/src/testforge/agents/executor/runner.py:45 | the suite name is a non-empty path component |
| Runner.SuiteStemPlain | testforge/src/testforge/agents/executor/runner.py:45 | a plain suite name gives the stem test_<name> |
| Runner.ParseNeverTimeout | testforge/src/testforge/agents/executor/runner.py:166-240 | parsing never produces a timeout result |
| Runner.RunResultSpec | testforge/src/testforge/agents/executor/runner.py:118-164 | a finished run reports the parsed results, a timeout one "<suite>" timeout result with the seconds in its message, a launch failure one "<suite>" error result with the exception text; the suite is always named by the file stem |
| Runner.RunPytest | testforge/src/testforge/agents/executor/runner.py:96-164 | running pytest gives the specified execution result |
| Runner.ParseOutput | testforge/src/testforge/agents/executor/runner.py:166-240 | `_parse_pytest_output`; ParseOutputCases, StatusPassSpec, SummaryPassSpec, FallbackSpec and the FailedMessage lemmas state what each pass returns |
| Runner.RunResult | testforge/src/testforge/agents/executor/runner.py:118-164 | `_run_pytest` after the process ends; RunResultSpec states the result of each outcome |
| Runner.FailedMessageLast | testforge/src/testforge/agents/executor/runner.py:172-206 | a failed status-line result carries the stripped body of the last FAILURES match naming it |
| Runner.FailedMessageAbsent | testforge/src/testforge/agents/executor/runner.py:172-206 | a failed status-line result that no FAILURES match names carries "" |
| Runner.FailedMessageFromLayout | testforge/src/testforge/agents/executor/runner.py:172-206 | on output as pytest prints it, a failed test's message is the stripped body printed under its name, the last one when printed twice |
| Runner.FailedMessageNotInLayout | testforge/src/testforge/agents/executor/runner.py:172-206 | on output as pytest prints it, a failed test with no body printed under its name has message "" |
| Runner.FailedMessageWithoutBanner | testforge/src/testforge/agents/executor/runner.py:172-206 | output without "FAILURES" gives every failed status-line result the message "" |
| FailureSection.ReadFailureDetails | testforge/src/testforge/agents/executor/runner.py:172-181 | the loop over the matches builds the dict the section specifies |
| FailureSection.DetailsLast | testforge/src/testforge/agents/executor/runner.py:181 | a name's entry is the stripped body of the last match naming it |
| FailureSection.DetailsAbsent | testforge/src/testforge/agents/executor/runner.py:181 | a name no match carries has no entry |
| FailureSection.RunEndSpec | testforge/src/testforge/agents/executor/runner.py:174-177 | a greedy run of one character stops at the end or at another character |
| FailureSection.SpaceEndSpec | testforge/src/testforge/agents/executor/runner.py:174-177 | a greedy `\s*` run is whitespace and stops at the end or at a non-space |
| FailureSection.SeparatorRead | testforge/src/testforge/agents/executor/runner.py:174 | a banner of at least three "=" on each side of " FAILURES " is matched whole |
| FailureSection.NoSeparatorBefore | testforge/src/testforge/agents/executor/runner.py:174 | no banner starts before an "=" that follows another character when no "FAILURES" lies between |
| FailureSection.FindSeparatorFrom | testforge/src/testforge/agents/executor/runner.py:174 | the search for the banner passes over indices where none starts |
| FailureSection.FindSeparatorAbsent | testforge/src/testforge/agents/executor/runner.py:174 | text without "FAILURES" holds no banner |
| FailureSection.FirstSeparator | testforge/src/testforge/agents/executor/runner.py:174 | a banner with no "FAILURES" before it is the first one the split finds |
| FailureSection.FailureBlockRead | testforge/src/testforge/agents/executor/runner.py:174-178 | output with one banner and no other "FAILURES" splits into the text after the banner |
| FailureSection.HeaderRead | testforge/src/testforge/agents/executor/runner.py:177 | a `___ name ___` line is matched as that name and ends with its newline |
| FailureSection.BodyRead | testforge/src/testforge/agents/executor/runner.py:177 | the lazy body stops at the first three underscores, or the end |
| FailureSection.BlocksSkip | testforge/src/testforge/agents/executor/runner.py:176-180 | text without underscores yields no match |
| FailureSection.BlocksStep | testforge/src/testforge/agents/executor/runner.py:176-180 | one header and body make one match, and the search resumes where the body ends |
| FailureSection.BlocksLayout | testforge/src/testforge/agents/executor/runner.py:176-180 | failures printed one after another are matched as their names and bodies, in order |
| FailureSection.FailureDetailsRead | testforge/src/testforge/agents/executor/runner.py:172-181 | output as pytest prints it yields the dict of each failure's name to its stripped body, the last one winning |
| FailureSection.FailureDetailsNone | testforge/src/testforge/agents/executor/runner.py:172-175 | output without "FAILURES" yields the empty dict |
| FailureSection.FailureDetails | testforge/src/testforge/agents/executor/runner.py:172-181 | the FAILURES dict; FailureDetailsRead and FailureDetailsNone state its value, ReadFailureDetails that the loop builds it |
| FailureSection.Blocks | testforge/src/testforge/agents/executor/runner.py:176-180 | the finditer matches; BlocksLayout, BlocksStep and BlocksSkip state what they are |

## Left out

- The model does not run anything. Launching pytest, `asyncio.wait_for`, and writing the scratch directory and conftest are replaced by the run's outcome, passed as input: finished with stdout and stderr, timed out, or failed to launch.
- The language-model call is left out. The raw answer is an input string.
- Tree-sitter parsing is left out. The analyzer receives the root `Node` (kind, text, children, start and end row) the parser would produce.
- ApiTestGen.Matches: the primary DOTALL backtracking pattern of `_extract_test_functions` is an oracle parameter `primary`. Only the fallback split before `def test_` is modelled exactly.
- FailureSection: the FAILURES patterns are read with ASCII `\w` and `\s`, like every pattern here. The lemmas that state results cover the layout pytest prints: a banner with one space around the word, headers with one space around the name, bodies without three underscores in a row. Other text is still read by the definitions, but no lemma states the result.
- File and network I/O is left out: `parse_golden_files`, reading the HAR file (the oracle `readHar`), `ContextStore` `get`, `list_apps`, `create` and `_save`, and every file read or write in the two scripts. The scripts' outputs are returned as strings.
- `json.loads` is the oracle `decode`, and `urlparse(...).path` is the oracle `pathOf`. `csv.reader` on one ACM line is the oracle `fields`.
- `parse_ieee_csv` is left out: the IEEE records arrive already parsed. A `csv.Error` or I/O error that ends an ACM scan early is not modelled. The JSON dump of the selection is not modelled.
- The regular-expression alternatives in `is_relevant` are spelt out as word lists matched as whole words.
- Nondeterminism is passed in as parameters: `uuid` names and ids (`newId`, `tag`, the run and session ids) and `datetime.now()` (the clock `now`).
- Floating point is modelled as `real`. Python's rounding (0.7 + 0.1 is not exactly 0.8) and the `{:.2f}` and `{:.0%}` formatting in the summary are given by the parameters `fmt` and `pct`.
- Unicode is modelled as ASCII only: `\d`, `\w`, `\s`, `\b` and `str.lower()` cover the ASCII case.
- Python's `repr` and `str` of dicts and lists in prompt lines are the oracle `repr`.
- HttpProxy.EntryDefaults: a HAR `time` that is present but null is not distinguished from a missing one. The model's duration is a number.
- The pydantic validation of `HTTPExchange` fields and the capture timestamp are not modelled.
- ContextStore.AppContext.MergeEndpointMap: when the context has no map, the incoming map is adopted as a value. The Python aliasing, where later appends show through the caller's object, is not captured.
- `MitmproxyAddon` is a live proxy callback and is left out.
- The pipelines see each agent as a function from its input to a result, which is its output or `str(e)` of the exception it raised. Logging and `async` are left out; the stages are sequential calls.
- DemoApp: Flask routing, `jsonify`, error pages and the health route are left out. A request body is the decoded JSON object or `None`, so Flask's content-type handling in `get_json` and non-object JSON bodies are not modelled.
- `letta_agent.py`, the UI, the FastAPI routes, the CLI, `config.py`, the PDF extractor and the placeholder modules that only raise `NotImplementedError` are not part of this model.
- `models/style_guide.py` and `models/app_context.py` have no behaviour. They appear only as datatype shapes.

## Findings

| source | as written | input that shows it | evidently intended | confidence | as-written member | corrected member |
|---|---|---|---|---|---|---|
| testforge/examples/flask_api_tests/demo_app.py:70-72 | `PUT /api/users/<id>` treats an empty JSON object as a missing body and answers 400 | an existing user id with the body `{}` | 200 with the user unchanged, as testforge/examples/flask_api_tests/test_users_golden_3.py:53-65 expects | not executed | DemoApp.EmptyUpdateRefused | DemoApp.EmptyUpdateChangesNothing |
