/**
 * The script that turns the selected studies into BibTeX entries and a TeX table of studies
 * with their research questions. The JSON selection arrives as a list of papers; the two files
 * it writes are returned as strings.
 */
module GenerateBib {

  import opened Wrappers
  import opened Text
  import opened TexEscape

  /** One paper of the selection; only `source` may be missing. */
  datatype BibPaper = BibPaper(
    authors: string,
    title: string,
    year: string,
    venue: string,
    summary: string,
    source: Option<string>)

  // ---------------------------------------------------------------- citation keys

  /** The first author: the text before the first `;`. */
  function FirstAuthor(authors: string): string
  {
    Split(authors, ';')[0]
  }

  /** The part before the comma of a "Last, First" author, else the last token, else "Anonymous". */
  function LastName(authors: string): string
  {
    var first := FirstAuthor(authors);
    if ',' in first then Strip(Split(first, ',')[0])
    else
      var parts := Words(Strip(first));
      if parts == [] then "Anonymous" else parts[|parts| - 1]
  }

  /** The first whitespace-separated token of the title with its non-word characters removed; none for a blank title. */
  function TitleWord(title: string): Option<string>
  {
    var words := Words(title);
    if words == [] then None else Some(WordCharsOf(words[0]))
  }

  const IndexError: string := "IndexError: list index out of range"

  /** `generate_key`; a blank title raises. */
  function GenerateKey(p: BibPaper): Result<string>
  {
    match TitleWord(p.title)
    case None => Failure(IndexError)
    case Some(w) => Success(Lower(LastName(p.authors) + p.year + w))
  }

  /** Stripping a set from a string made only of that set leaves nothing. */
  lemma StripLeftAll(s: string, cs: set<char>)
    requires forall i :: 0 <= i < |s| ==> s[i] in cs
    ensures StripLeftSet(s, cs) == []
  {
    StripLeftSetSuffix(s, cs);
  }

  /** The title has a character other than whitespace. */
  predicate HasText(title: string)
  {
    exists k :: 0 <= k < |title| && !IsSpace(title[k])
  }

  /** A key exists exactly when the title has a non-whitespace character. */
  lemma KeyNeedsTitle(p: BibPaper)
    ensures GenerateKey(p).Success? <==> HasText(p.title)
    ensures GenerateKey(p).Failure? ==> GenerateKey(p).error == IndexError
  {
    if !HasText(p.title) {
      StripLeftAll(p.title, Whitespace);
    } else {
      var k :| 0 <= k < |p.title| && !IsSpace(p.title[k]);
      WordsNonEmpty(p.title, k);
    }
  }

  /** A key is the lower-cased last name, year and title word, in that order, and is lower case throughout. */
  lemma KeyShape(p: BibPaper)
    requires GenerateKey(p).Success?
    ensures TitleWord(p.title).Some? && AllWordChars(TitleWord(p.title).value)
    ensures var key := GenerateKey(p).value;
      key == Lower(LastName(p.authors)) + Lower(p.year) + Lower(TitleWord(p.title).value)
      && Lower(key) == key
  {
    var w := TitleWord(p.title).value;
    var name := LastName(p.authors);
    LowerIdempotent(name + p.year + w);
    LowerConcat(name, p.year);
    LowerConcat(name + p.year, w);
  }

  /**
   * The last name comes from the first author alone: the text before its comma, stripped, when
   * it has one; otherwise its last token, or "Anonymous" when it is blank.
   */
  lemma LastNameRules(authors: string)
    ensures var first := FirstAuthor(authors);
      StartsWith(authors, first) && ';' !in first && (|first| == |authors| || authors[|first|] == ';')
    ensures var first := FirstAuthor(authors);
      ',' in first ==> ',' !in LastName(authors) && LastName(authors) == Strip(Split(first, ',')[0])
    ensures var first := FirstAuthor(authors);
      ',' !in first && Words(Strip(first)) == [] ==> LastName(authors) == "Anonymous"
    ensures var first := FirstAuthor(authors); var parts := Words(Strip(first));
      ',' !in first && parts != [] ==> LastName(authors) == parts[|parts| - 1]
  {
    SplitFirst(authors, ';');
    var first := FirstAuthor(authors);
    if ',' in first {
      var piece := Split(first, ',')[0];
      StripSetIsSlice(piece, Whitespace);
      var i, j :| 0 <= i <= j <= |piece| && Strip(piece) == piece[i..j];
      assert forall k :: 0 <= k < |piece[i..j]| ==> piece[i..j][k] == piece[i + k];
    }
  }

  // ---------------------------------------------------------------- BibTeX entries

  /** "article" when the source mentions a journal or the venue a transactions series. */
  function EntryType(p: BibPaper): string
  {
    if Contains(p.source.GetOr(""), "Journal") || Contains(p.venue, "Transactions") then "article"
    else "inproceedings"
  }

  /** `s[:n] + '...'` when `s` is longer than `n`, else `s`. */
  function Shorten(s: string, n: nat): string
  {
    if |s| > n then s[..n] + "..." else s
  }

  /** A short string is kept; a long one becomes its first `n` characters and an ellipsis. */
  lemma ShortenBounds(s: string, n: nat)
    ensures |s| <= n ==> Shorten(s, n) == s
    ensures |s| > n ==> |Shorten(s, n)| == n + 3 && StartsWith(Shorten(s, n), s[..n]) && EndsWith(Shorten(s, n), "...")
    ensures |Shorten(s, n)| <= n + 3
  {
    if |s| > n {
      assert Shorten(s, n)[..n] == s[..n];
    }
  }

  /** The first line of an entry. */
  function EntryHead(entryType: string, key: string): string
  {
    "@" + entryType + "{" + key + ",\n"
  }

  /** One `name = {value},` line of an entry. */
  function Field(name: string, value: string): string
  {
    "  " + name + " = {" + value + "},\n"
  }

  /** The venue line: `journal` for articles, `booktitle` otherwise. */
  function VenueField(p: BibPaper): string
  {
    Field(if EntryType(p) == "article" then "journal" else "booktitle", p.venue)
  }

  /** The last field, without a trailing comma: the abstract, cut at 500 characters. */
  function AbstractLine(p: BibPaper): string
  {
    "  abstract = {" + Shorten(p.summary, 500) + "}\n"
  }

  /** The BibTeX entry of a paper under its key. */
  function BibEntry(p: BibPaper, key: string): string
  {
    EntryHead(EntryType(p), key)
    + Field("author", ReplaceChar(p.authors, ';', " and"))
    + Field("title", p.title)
    + VenueField(p)
    + Field("year", p.year)
    + AbstractLine(p)
    + "}\n"
  }

  /** Articles name a journal, everything else a book title; the author list never keeps a `;`. */
  lemma EntryFields(p: BibPaper)
    ensures EntryType(p) == "article" <==> Contains(p.source.GetOr(""), "Journal") || Contains(p.venue, "Transactions")
    ensures EntryType(p) == "article" ==> VenueField(p) == Field("journal", p.venue)
    ensures EntryType(p) != "article" ==> VenueField(p) == Field("booktitle", p.venue) && EntryType(p) == "inproceedings"
    ensures ';' !in ReplaceChar(p.authors, ';', " and")
    ensures ';' !in p.authors ==> ReplaceChar(p.authors, ';', " and") == p.authors
  {
    if ';' !in p.authors {
      ReplaceAbsent(p.authors, ';', " and");
    }
  }

  // ---------------------------------------------------------------- table cells

  /** The venue cell: the text after the last `(` without the surrounding `)`, else the first ten characters. */
  function ShortVenue(venue: string): string
  {
    if '(' in venue then
      var pieces := Split(venue, '(');
      StripSet(pieces[|pieces| - 1], {')'})
    else Take(venue, 10)
  }

  /** With a parenthesis the cell is the text after the last `(`, with `)` stripped from both ends. */
  lemma ShortVenueAfterParen(venue: string)
    requires '(' in venue
    ensures var pieces := Split(venue, '('); var last := pieces[|pieces| - 1];
      EndsWith(venue, last) && |last| < |venue| && venue[|venue| - |last| - 1] == '('
      && ShortVenue(venue) == StripSet(last, {')'})
  {
    SplitSeveral(venue, '(');
    SplitLast(venue, '(');
  }

  /** With a parenthesis the cell has none left and does not start or end with `)`. */
  lemma ShortVenueClean(venue: string)
    requires '(' in venue
    ensures '(' !in ShortVenue(venue)
    ensures ShortVenue(venue) == [] || (ShortVenue(venue)[0] != ')' && ShortVenue(venue)[|ShortVenue(venue)| - 1] != ')')
  {
    var pieces := Split(venue, '(');
    StripSetLacks(pieces[|pieces| - 1], {')'}, '(');
    StripSetEnds(pieces[|pieces| - 1], {')'});
  }

  /** Without a parenthesis the cell is the first ten characters, or the whole venue when it is shorter. */
  lemma ShortVenueWithoutParen(venue: string)
    requires '(' !in venue
    ensures |ShortVenue(venue)| <= 10 && StartsWith(venue, ShortVenue(venue))
    ensures |venue| <= 10 ==> ShortVenue(venue) == venue
    ensures |venue| > 10 ==> ShortVenue(venue) == venue[..10]
  {
  }

  /** `&` and `%` escaped, as in the bibliography table. */
  function TableTitle50(title: string): string
  {
    Escape(Escape(Shorten(title, 50), '&'), '%')
  }

  /** `&`, `%` and `_` escaped, as in the studies table. */
  function TableTitle40(title: string): string
  {
    Escape(Escape(Escape(Shorten(title, 40), '&'), '%'), '_')
  }

  /** Both table titles read back as the shortened title. */
  lemma TableTitlesRoundTrip(title: string)
    ensures Unescape(Unescape(TableTitle50(title), '%'), '&') == Shorten(title, 50)
    ensures Unescape(Unescape(Unescape(TableTitle40(title), '_'), '%'), '&') == Shorten(title, 40)
  {
    UnescapeEscape(Escape(Shorten(title, 50), '&'), '%');
    UnescapeEscape(Shorten(title, 50), '&');
    UnescapeEscape(Escape(Escape(Shorten(title, 40), '&'), '%'), '_');
    UnescapeEscape(Escape(Shorten(title, 40), '&'), '%');
    UnescapeEscape(Shorten(title, 40), '&');
  }

  /** A row of the bibliography table (built, never written). */
  function CitationRow(p: BibPaper, key: string): string
  {
    "\\cite{" + key + "} & " + TableTitle50(p.title) + " & " + ShortVenue(p.venue) + " & " + p.year + " \\\\ \\hline"
  }

  // ---------------------------------------------------------------- research questions

  const Rq1Words: seq<string> := ["architecture", "orchestra", "collaboration", "role", "multi-agent", "workflow"]
  const Rq2Words: seq<string> := ["rag", "retrieval", "knowledge", "context", "tool", "api"]
  const Rq3Words: seq<string> := ["benchmark", "evaluate", "metric", "coverage", "pass@", "comparison", "empirical"]

  /** `any(k in text for k in words)` */
  predicate AnyIn(text: string, words: seq<string>)
  {
    exists k :: 0 <= k < |words| && Contains(text, words[k])
  }

  /** The lower-cased "title abstract" text the questions are inferred from. */
  function RqText(p: BibPaper): string
  {
    Lower(p.title + " " + p.summary)
  }

  /** The research questions a text touches, in order. */
  function RqTags(text: string): seq<string>
  {
    (if AnyIn(text, Rq1Words) then ["RQ1"] else [])
    + (if AnyIn(text, Rq2Words) then ["RQ2"] else [])
    + (if AnyIn(text, Rq3Words) then ["RQ3"] else [])
  }

  /** The RQ cell: the tags joined by ", ", or "RQ1" when none. */
  function RqLabel(text: string): string
  {
    var tags := RqTags(text);
    if tags == [] then "RQ1" else Join(tags, ", ")
  }

  /** Each tag appears exactly when its keyword list matches, and the tags come in ascending order. */
  lemma RqTagsOrdered(text: string)
    ensures "RQ1" in RqTags(text) <==> AnyIn(text, Rq1Words)
    ensures "RQ2" in RqTags(text) <==> AnyIn(text, Rq2Words)
    ensures "RQ3" in RqTags(text) <==> AnyIn(text, Rq3Words)
    ensures forall a, b :: 0 <= a < b < |RqTags(text)| ==> RqTags(text)[a][2] < RqTags(text)[b][2]
  {
  }

  /** The cell is "RQ1" exactly when neither the second nor the third keyword list matches. */
  lemma RqLabelDefault(text: string)
    ensures RqLabel(text) == "RQ1" <==> !AnyIn(text, Rq2Words) && !AnyIn(text, Rq3Words)
    ensures StartsWith(RqLabel(text), "RQ")
  {
    var tags := RqTags(text);
    if |tags| >= 2 {
      JoinHead(tags, ", ");
      JoinSnoc(tags[..|tags| - 1], tags[|tags| - 1], ", ");
      assert tags[..|tags| - 1] + [tags[|tags| - 1]] == tags;
      assert |Join(tags, ", ")| > 3;
      var cell := Join(tags, ", ");
      assert cell[..|tags[0]|] == tags[0] && |tags[0]| == 3;
      assert cell[..2] == tags[0][..2];
    } else if |tags| == 1 {
      assert Join(tags, ", ") == tags[0];
    }
  }

  /** A row of the studies table. */
  function StudyRow(p: BibPaper, key: string): string
  {
    "\\cite{" + key + "} & " + TableTitle40(p.title) + " & " + p.year + " & " + p.source.GetOr("N/A")
    + " & " + RqLabel(RqText(p)) + " \\\\ \\hline"
  }

  // ---------------------------------------------------------------- the script

  /**
   * Each paper rendered under its key, in order; the first paper without a key stops the scan
   * with its error, as the exception `generate_key` raises stops `main`.
   */
  function Keyed<R>(papers: seq<BibPaper>, keyOf: BibPaper -> Result<string>, render: (BibPaper, string) -> R)
    : Result<seq<R>>
    decreases |papers|
  {
    if papers == [] then Success([])
    else
      var n := |papers| - 1;
      match Keyed(papers[..n], keyOf, render)
      case Failure(e) => Failure(e)
      case Success(done) =>
        match keyOf(papers[n])
        case Failure(e) => Failure(e)
        case Success(key) => Success(done + [render(papers[n], key)])
  }

  /** Scanning one more paper. */
  lemma KeyedStep<R>(papers: seq<BibPaper>, i: nat, keyOf: BibPaper -> Result<string>, render: (BibPaper, string) -> R)
    requires i < |papers| && Keyed(papers[..i], keyOf, render).Success?
    ensures Keyed(papers[..i + 1], keyOf, render)
      == match keyOf(papers[i])
         case Failure(e) => Failure(e)
         case Success(key) => Success(Keyed(papers[..i], keyOf, render).value + [render(papers[i], key)])
  {
    assert papers[..i + 1][..i] == papers[..i];
  }

  /** Once a prefix fails, the whole list fails the same way. */
  lemma {:induction false} KeyedFailureSticks<R>(papers: seq<BibPaper>, i: nat, keyOf: BibPaper -> Result<string>,
                                                 render: (BibPaper, string) -> R)
    requires i <= |papers| && Keyed(papers[..i], keyOf, render).Failure?
    ensures Keyed(papers, keyOf, render) == Keyed(papers[..i], keyOf, render)
    decreases |papers| - i
  {
    if i < |papers| {
      assert papers[..i + 1][..i] == papers[..i];
      KeyedFailureSticks(papers, i + 1, keyOf, render);
    } else {
      assert papers[..i] == papers;
    }
  }

  /** The scan succeeds exactly when every paper has a key; a failure carries the error of some paper's key. */
  lemma {:induction false} KeyedOk<R>(papers: seq<BibPaper>, keyOf: BibPaper -> Result<string>, render: (BibPaper, string) -> R)
    ensures Keyed(papers, keyOf, render).Success? <==> forall i :: 0 <= i < |papers| ==> keyOf(papers[i]).Success?
    ensures Keyed(papers, keyOf, render).Failure? ==>
      exists j :: 0 <= j < |papers| && keyOf(papers[j]) == Failure(Keyed(papers, keyOf, render).error)
    decreases |papers|
  {
    if papers != [] {
      var n := |papers| - 1;
      var prefix := papers[..n];
      KeyedOk(prefix, keyOf, render);
      assert forall i :: 0 <= i < n ==> prefix[i] == papers[i];
    }
  }

  /** A successful scan renders paper `i` under its key at position `i`. */
  lemma {:induction false} KeyedAt<R>(papers: seq<BibPaper>, i: nat, keyOf: BibPaper -> Result<string>,
                                      render: (BibPaper, string) -> R)
    requires Keyed(papers, keyOf, render).Success? && i < |papers|
    ensures |Keyed(papers, keyOf, render).value| == |papers|
    ensures keyOf(papers[i]).Success?
    ensures Keyed(papers, keyOf, render).value[i] == render(papers[i], keyOf(papers[i]).value)
    decreases |papers|
  {
    var n := |papers| - 1;
    var prefix := papers[..n];
    assert prefix[..n] == prefix;
    if n > 0 {
      KeyedAt(prefix, if i < n then i else 0, keyOf, render);
    }
    if i < n {
      assert prefix[i] == papers[i];
    }
  }

  /** Every paper has a key; otherwise the script stops at the first one without. */
  predicate AllKeyed(papers: seq<BibPaper>)
  {
    forall i :: 0 <= i < |papers| ==> GenerateKey(papers[i]).Success?
  }

  /** The script runs to the end exactly when every title has text; otherwise it raises the `IndexError`. */
  lemma ScanOutcome<R>(papers: seq<BibPaper>, render: (BibPaper, string) -> R)
    ensures Keyed(papers, GenerateKey, render).Success? <==> AllKeyed(papers)
    ensures AllKeyed(papers) <==> forall i :: 0 <= i < |papers| ==> HasText(papers[i].title)
    ensures Keyed(papers, GenerateKey, render).Failure? ==> Keyed(papers, GenerateKey, render).error == IndexError
  {
    KeyedOk(papers, GenerateKey, render);
    forall i | 0 <= i < |papers|
      ensures GenerateKey(papers[i]).Success? <==> HasText(papers[i].title)
      ensures GenerateKey(papers[i]).Failure? ==> GenerateKey(papers[i]).error == IndexError
    {
      KeyNeedsTitle(papers[i]);
    }
  }

  /** The BibTeX entry of one paper, built field by field. */
  method BuildBibEntry(p: BibPaper, key: string) returns (bib: string)
    ensures bib == BibEntry(p, key)
  {
    var entryType := "inproceedings";
    if Contains(p.source.GetOr(""), "Journal") || Contains(p.venue, "Transactions") {
      entryType := "article";
    }
    bib := EntryHead(entryType, key);
    bib := bib + Field("author", ReplaceChar(p.authors, ';', " and"));
    bib := bib + Field("title", p.title);
    if entryType == "article" {
      bib := bib + Field("journal", p.venue);
    } else {
      bib := bib + Field("booktitle", p.venue);
    }
    bib := bib + Field("year", p.year);
    bib := bib + AbstractLine(p);
    bib := bib + "}\n";
  }

  /** The first loop of `main`: entries and citation rows, stopping at the first paper without a key. */
  method BuildEntries(papers: seq<BibPaper>) returns (r: Result<(seq<string>, seq<string>)>)
    ensures r.Success? <==> Keyed(papers, GenerateKey, BibEntry).Success?
    ensures r.Success? <==> Keyed(papers, GenerateKey, CitationRow).Success?
    ensures r.Failure? ==> r.error == Keyed(papers, GenerateKey, BibEntry).error
    ensures r.Success? ==>
      r.value == (Keyed(papers, GenerateKey, BibEntry).value, Keyed(papers, GenerateKey, CitationRow).value)
  {
    var bibEntries: seq<string> := [];
    var tableRows: seq<string> := [];
    var i := 0;
    while i < |papers|
      invariant i <= |papers|
      invariant Keyed(papers[..i], GenerateKey, BibEntry) == Success(bibEntries)
      invariant Keyed(papers[..i], GenerateKey, CitationRow) == Success(tableRows)
    {
      KeyedStep(papers, i, GenerateKey, BibEntry);
      KeyedStep(papers, i, GenerateKey, CitationRow);
      var p := papers[i];
      var keyed := GenerateKey(p);
      if keyed.Failure? {
        KeyedFailureSticks(papers, i + 1, GenerateKey, BibEntry);
        KeyedFailureSticks(papers, i + 1, GenerateKey, CitationRow);
        return Failure(keyed.error);
      }
      var key := keyed.value;
      var bib := BuildBibEntry(p, key);
      bibEntries := bibEntries + [bib];
      tableRows := tableRows + [CitationRow(p, key)];
      i := i + 1;
    }
    assert papers[..i] == papers;
    r := Success((bibEntries, tableRows));
  }

  /** The strings, each followed by a newline. */
  function Lines(rows: seq<string>): string
    decreases |rows|
  {
    if rows == [] then [] else Lines(rows[..|rows| - 1]) + rows[|rows| - 1] + "\n"
  }

  /** Each row is followed by its own newline, so the text ends with the last row. */
  lemma LinesSnoc(rows: seq<string>, row: string)
    ensures Lines(rows + [row]) == Lines(rows) + row + "\n"
  {
    assert (rows + [row])[..|rows|] == rows;
  }

  /** What is appended to the bibliography file: a marker line, then each entry followed by a blank line. */
  function BibAppendix(entries: seq<string>): string
  {
    "\n% --- New SLR Entries ---\n" + Lines(entries)
  }

  const TableHead: string :=
    "% Generated Table Content\n"
    + "\\begin{table}[ht]\n"
    + "\\centering\n"
    + "\\caption{Selected Studies for MAS in Software Testing}\n"
    + "\\label{tab:selected_studies_new}\n"
    + "\\resizebox{\\textwidth}{!}{\n"
    + "\\begin{tabular}{|l|p{6cm}|l|l|l|}\n"
    + "\\hline\n"
    + "Ref & Title & Year & Source & RQs \\\\ \\hline\n"

  const TableFoot: string := "\\end{tabular}\n}\n\\end{table}\n"

  /** The studies table: the fixed head, one line per study row, the fixed foot. */
  function StudiesTable(rows: seq<string>): string
  {
    TableHead + Lines(rows) + TableFoot
  }

  /** One row of the studies table, with its questions inferred tag by tag. */
  method BuildStudyRow(p: BibPaper, key: string) returns (row: string)
    ensures row == StudyRow(p, key)
  {
    var text := Lower(p.title + " " + p.summary);
    var rqs: seq<string> := [];
    if AnyIn(text, Rq1Words) {
      rqs := rqs + ["RQ1"];
    }
    if AnyIn(text, Rq2Words) {
      rqs := rqs + ["RQ2"];
    }
    if AnyIn(text, Rq3Words) {
      rqs := rqs + ["RQ3"];
    }
    assert rqs == RqTags(text);
    var rqStr := if rqs != [] then Join(rqs, ", ") else "RQ1";
    var source := p.source.GetOr("N/A");
    row := "\\cite{" + key + "} & " + TableTitle40(p.title) + " & " + p.year + " & " + source + " & " + rqStr + " \\\\ \\hline";
  }

  /** The second loop of `main`: the studies table, its rows written between the fixed head and foot. */
  method WriteStudiesTable(papers: seq<BibPaper>) returns (r: Result<string>)
    ensures r.Success? <==> Keyed(papers, GenerateKey, StudyRow).Success?
    ensures r.Failure? ==> r.error == Keyed(papers, GenerateKey, StudyRow).error
    ensures r.Success? ==> r.value == StudiesTable(Keyed(papers, GenerateKey, StudyRow).value)
  {
    var lines: string := [];
    ghost var rows: seq<string> := [];
    var i := 0;
    while i < |papers|
      invariant i <= |papers|
      invariant Keyed(papers[..i], GenerateKey, StudyRow) == Success(rows) && lines == Lines(rows)
    {
      KeyedStep(papers, i, GenerateKey, StudyRow);
      var p := papers[i];
      var keyed := GenerateKey(p);
      if keyed.Failure? {
        KeyedFailureSticks(papers, i + 1, GenerateKey, StudyRow);
        return Failure(keyed.error);
      }
      var row := BuildStudyRow(p, keyed.value);
      LinesSnoc(rows, row);
      rows := rows + [row];
      lines := lines + row + "\n";
      i := i + 1;
    }
    assert papers[..i] == papers;
    r := Success(TableHead + lines + TableFoot);
  }

  /** What a run produces: the bibliography appendix, the unused citation rows, and the studies table. */
  datatype BibOutput = BibOutput(bibAppendix: string, citationRows: seq<string>, studiesTable: string)

  /** `main`: a paper without a key stops the run with the `IndexError` before anything is written. */
  method GenerateBibMain(papers: seq<BibPaper>) returns (r: Result<BibOutput>)
    ensures r.Success? <==> AllKeyed(papers)
    ensures r.Failure? ==> r.error == IndexError
    ensures r.Success? ==>
      (Keyed(papers, GenerateKey, BibEntry).Success? && Keyed(papers, GenerateKey, CitationRow).Success?
       && Keyed(papers, GenerateKey, StudyRow).Success?
       && r.value == BibOutput(BibAppendix(Keyed(papers, GenerateKey, BibEntry).value),
                               Keyed(papers, GenerateKey, CitationRow).value,
                               StudiesTable(Keyed(papers, GenerateKey, StudyRow).value)))
  {
    ScanOutcome(papers, BibEntry);
    ScanOutcome(papers, StudyRow);
    var built := BuildEntries(papers);
    if built.Failure? {
      return Failure(built.error);
    }
    var (bibEntries, tableRows) := built.value;
    var table := WriteStudiesTable(papers);
    r := Success(BibOutput(BibAppendix(bibEntries), tableRows, table.value));
  }

  /** Entry `i` of the bibliography and row `i` of the studies table are paper `i`'s, under its key. */
  lemma BibliographyInOrder(papers: seq<BibPaper>, i: nat)
    requires AllKeyed(papers) && i < |papers|
    ensures Keyed(papers, GenerateKey, BibEntry).Success? && Keyed(papers, GenerateKey, StudyRow).Success?
    ensures |Keyed(papers, GenerateKey, BibEntry).value| == |papers|
    ensures Keyed(papers, GenerateKey, BibEntry).value[i] == BibEntry(papers[i], GenerateKey(papers[i]).value)
    ensures |Keyed(papers, GenerateKey, StudyRow).value| == |papers|
    ensures Keyed(papers, GenerateKey, StudyRow).value[i] == StudyRow(papers[i], GenerateKey(papers[i]).value)
  {
    ScanOutcome(papers, BibEntry);
    ScanOutcome(papers, StudyRow);
    KeyedAt(papers, i, GenerateKey, BibEntry);
    KeyedAt(papers, i, GenerateKey, StudyRow);
  }
}
