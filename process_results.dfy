/**
 * The literature-review script that merges search exports, drops duplicate titles, keeps the
 * papers about LLM-based multi-agent systems for software engineering, and writes the TeX rows
 * of the selection. Reading the files is left to the caller: IEEE records arrive parsed, ACM
 * exports arrive as lines, and `csv.reader` on one line is the oracle `fields`.
 */
module ProcessResults {

  import opened Wrappers
  import opened Text
  import opened Picking
  import opened FirstWins
  import opened TexEscape

  /** One search record, with the keys the script writes. */
  datatype Paper = Paper(
    title: string,
    authors: string,
    year: string,
    venue: string,
    summary: string,
    keywords: string,
    source: string,
    doi: string)

  // ---------------------------------------------------------------- relevance

  /** Group A, agents: `multi[- ]?agent|mas|agentic|autonomous agents?|collaborative agents?`, spelled out. */
  const AgentWords: seq<string> :=
    ["multiagent", "multi-agent", "multi agent", "mas", "agentic",
     "autonomous agent", "autonomous agents", "collaborative agent", "collaborative agents"]

  /** Group B, language models. */
  const ModelWords: seq<string> :=
    ["llm", "large language model", "large language models", "gpt", "generative ai", "genai",
     "foundation model", "foundation models"]

  /** Group C, software engineering and testing. */
  const EngineeringWords: seq<string> :=
    ["software", "test", "testing", "code", "debugging", "verification", "validation", "fuzzing", "requirements"]

  /** The exclusion list: `robotics?|medical|healthcare|...`, spelled out. */
  const ExcludedWords: seq<string> :=
    ["robotic", "robotics", "medical", "healthcare", "education", "social", "traffic", "grid", "energy", "hardware"]

  /** The lower-cased "title abstract keywords" string every pattern runs on. */
  function RelevanceText(title: string, summary: string, keywords: string): string
  {
    Lower(title + " " + summary + " " + keywords)
  }

  /** The exclusion rule fires: an excluded word, and neither "software" nor "code" anywhere, even inside a word. */
  predicate Excluded(text: string)
  {
    HasWholeWord(text, ExcludedWords) && !Contains(text, "software") && !Contains(text, "code")
  }

  /** `is_relevant` */
  predicate IsRelevant(title: string, summary: string, keywords: string)
  {
    var text := RelevanceText(title, summary, keywords);
    !Excluded(text)
    && HasWholeWord(text, AgentWords) && HasWholeWord(text, ModelWords) && HasWholeWord(text, EngineeringWords)
  }

  predicate PaperIsRelevant(p: Paper)
  {
    IsRelevant(p.title, p.summary, p.keywords)
  }

  /** Relevance does not depend on letter case: the three fields may be lower-cased first. */
  lemma RelevanceIgnoresCase(title: string, summary: string, keywords: string)
    ensures RelevanceText(Lower(title), Lower(summary), Lower(keywords)) == RelevanceText(title, summary, keywords)
    ensures IsRelevant(Lower(title), Lower(summary), Lower(keywords)) == IsRelevant(title, summary, keywords)
  {
    var joined := title + " " + summary + " " + keywords;
    LowerConcat(title, " ");
    LowerConcat(title + " ", summary);
    LowerConcat(title + " " + summary, " ");
    LowerConcat(title + " " + summary + " ", keywords);
    assert Lower(joined) == Lower(title) + " " + Lower(summary) + " " + Lower(keywords);
    LowerIdempotent(joined);
  }

  /** A whole-word "software" overrides every exclusion word and satisfies group C: only groups A and B remain. */
  lemma SoftwareSuffices(title: string, summary: string, keywords: string, i: nat)
    requires WordAt(RelevanceText(title, summary, keywords), i, "software")
    ensures IsRelevant(title, summary, keywords) <==>
      var text := RelevanceText(title, summary, keywords);
      HasWholeWord(text, AgentWords) && HasWholeWord(text, ModelWords)
  {
    var text := RelevanceText(title, summary, keywords);
    assert StartsWith(text[i..], "software") by {
      assert text[i..][..8] == text[i..i + 8];
    }
    ContainsAt(text, "software", i);
    assert EngineeringWords[0] == "software";
    assert HasWholeWord(text, EngineeringWords);
  }

  /** An excluded word with neither "software" nor "code" in the text rejects the paper, whatever else it says. */
  lemma ExclusionRejects(title: string, summary: string, keywords: string, i: nat, k: nat)
    requires k < |ExcludedWords| && WordAt(RelevanceText(title, summary, keywords), i, ExcludedWords[k])
    requires !Contains(RelevanceText(title, summary, keywords), "software")
    requires !Contains(RelevanceText(title, summary, keywords), "code")
    ensures !IsRelevant(title, summary, keywords)
  {
  }

  /** Without an excluded word the verdict is the conjunction of the three inclusion groups. */
  lemma InclusionDecides(title: string, summary: string, keywords: string)
    requires !HasWholeWord(RelevanceText(title, summary, keywords), ExcludedWords)
    ensures IsRelevant(title, summary, keywords) <==>
      var text := RelevanceText(title, summary, keywords);
      HasWholeWord(text, AgentWords) && HasWholeWord(text, ModelWords) && HasWholeWord(text, EngineeringWords)
  {
  }

  // ---------------------------------------------------------------- ACM exports

  /** One line of an ACM export: skipped when blank or a header, kept when it has at least three fields. */
  function ParseAcmLine(raw: string, fields: string -> seq<string>): Option<Paper>
  {
    var line := Strip(raw);
    if line == [] || StartsWith(line, "Title") then None
    else
      var parts := fields(line);
      if |parts| >= 3 then
        var summary := if |parts| > 3 then Strip(parts[3]) else "";
        Some(Paper(StripSet(Strip(parts[0]), {'"'}), "N/A", Strip(parts[2]), Strip(parts[1]),
                   StripSet(summary, {'"'}), "", "ACM", ""))
      else None
  }

  /** The papers of an export, in line order. */
  function AcmPapers(lines: seq<string>, fields: string -> seq<string>): seq<Paper>
  {
    Pick(lines, (l: string) => ParseAcmLine(l, fields))
  }

  /** `parse_acm_md` over the lines of the file. */
  method ParseAcmMd(lines: seq<string>, fields: string -> seq<string>) returns (papers: seq<Paper>)
    ensures papers == AcmPapers(lines, fields)
  {
    papers := [];
    var i := 0;
    while i < |lines|
      invariant i <= |lines|
      invariant papers == Pick(lines[..i], (l: string) => ParseAcmLine(l, fields))
    {
      PickSnoc(lines, i, (l: string) => ParseAcmLine(l, fields));
      var line := Strip(lines[i]);
      if line != [] && !StartsWith(line, "Title") {
        var parts := fields(line);
        if |parts| >= 3 {
          var title := Strip(parts[0]);
          var venue := Strip(parts[1]);
          var year := Strip(parts[2]);
          var summary := if |parts| > 3 then Strip(parts[3]) else "";
          title := StripSet(title, {'"'});
          summary := StripSet(summary, {'"'});
          papers := papers + [Paper(title, "N/A", year, venue, summary, "", "ACM", "")];
        }
      }
      i := i + 1;
    }
    assert lines[..i] == lines;
  }

  /**
   * A line yields a paper exactly when it is not blank, not a header and has three fields; the
   * paper is an ACM record without authors, keywords or DOI whose title and summary have no
   * quote at either end, and whose summary is empty when the line has only three fields.
   */
  lemma AcmLineRules(raw: string, fields: string -> seq<string>)
    ensures var line := Strip(raw);
      ParseAcmLine(raw, fields).Some? <==> line != [] && !StartsWith(line, "Title") && |fields(line)| >= 3
    ensures var r := ParseAcmLine(raw, fields);
      r.Some? ==>
        r.value.authors == "N/A" && r.value.source == "ACM" && r.value.keywords == "" && r.value.doi == ""
        && (r.value.title == [] || (r.value.title[0] != '"' && r.value.title[|r.value.title| - 1] != '"'))
        && (r.value.summary == [] || (r.value.summary[0] != '"' && r.value.summary[|r.value.summary| - 1] != '"'))
        && (|fields(Strip(raw))| == 3 ==> r.value.summary == "")
  {
    var line := Strip(raw);
    if line != [] && !StartsWith(line, "Title") && |fields(line)| >= 3 {
      var parts := fields(line);
      StripSetEnds(Strip(parts[0]), {'"'});
      StripSetEnds(if |parts| > 3 then Strip(parts[3]) else "", {'"'});
    }
  }

  /** A paper comes out of an export exactly when one of its lines parses to it; never more papers than lines. */
  lemma AcmPapersFromLines(lines: seq<string>, fields: string -> seq<string>, p: Paper)
    ensures p in AcmPapers(lines, fields) <==> exists i :: 0 <= i < |lines| && ParseAcmLine(lines[i], fields) == Some(p)
    ensures |AcmPapers(lines, fields)| <= |lines|
  {
    PickMember(lines, (l: string) => ParseAcmLine(l, fields), p);
  }

  // ---------------------------------------------------------------- de-duplication

  /** The de-duplication key: the lower-cased title without its non-word characters. */
  function NormTitle(title: string): string
  {
    WordCharsOf(Lower(title))
  }

  function TitleKey(p: Paper): string
  {
    NormTitle(p.title)
  }

  function Keep(p: Paper): Option<Paper>
  {
    Some(p)
  }

  /** The values of `unique_papers`: the first paper for each key, in order of first appearance. */
  function Deduplicated(papers: seq<Paper>): seq<Paper>
  {
    Collect(papers, Keep, TitleKey)
  }

  /** One more paper: kept exactly when its key is new. */
  lemma DeduplicateStep(papers: seq<Paper>, i: nat, unique: seq<Paper>)
    requires i < |papers| && unique == Collect(papers[..i], Keep, TitleKey)
    ensures Collect(papers[..i + 1], Keep, TitleKey)
      == if TitleKey(papers[i]) in NamesOf(unique, TitleKey) then unique else unique + [papers[i]]
    ensures NamesOf(unique + [papers[i]], TitleKey) == NamesOf(unique, TitleKey) + [TitleKey(papers[i])]
  {
    CollectSnoc(papers, i, Keep, TitleKey);
  }

  /** The de-duplication loop of the script, with the dict's keys kept beside its values. */
  method Deduplicate(papers: seq<Paper>) returns (unique: seq<Paper>)
    ensures unique == Deduplicated(papers)
  {
    unique := [];
    var keys: seq<string> := [];
    var i := 0;
    while i < |papers|
      invariant i <= |papers|
      invariant unique == Collect(papers[..i], Keep, TitleKey)
      invariant keys == NamesOf(unique, TitleKey)
    {
      DeduplicateStep(papers, i, unique);
      var p := papers[i];
      var normTitle := NormTitle(p.title);
      if normTitle !in keys {
        keys := keys + [normTitle];
        unique := unique + [p];
      }
      i := i + 1;
    }
    assert papers[..i] == papers;
  }

  /** Titles that differ in one punctuation or space character collide. */
  lemma NormTitleIgnoresPunctuation(a: string, c: char, b: string)
    requires !IsWordChar(c)
    ensures NormTitle(a + [c] + b) == NormTitle(a + b)
  {
    LowerConcat(a + [c], b);
    LowerConcat(a, [c]);
    LowerConcat(a, b);
    WordCharsConcat(Lower(a) + Lower([c]), Lower(b));
    WordCharsConcat(Lower(a), Lower([c]));
    WordCharsConcat(Lower(a), Lower(b));
    assert WordCharsOf(Lower([c])) == [];
  }

  /** Titles that differ only in letter case collide. */
  lemma NormTitleIgnoresCase(title: string)
    ensures NormTitle(Lower(title)) == NormTitle(title)
  {
    LowerIdempotent(title);
  }

  /** No two kept papers share a normalised title. */
  lemma DeduplicatedDistinct(papers: seq<Paper>)
    ensures forall a, b :: 0 <= a < b < |Deduplicated(papers)| ==>
      TitleKey(Deduplicated(papers)[a]) != TitleKey(Deduplicated(papers)[b])
  {
    CollectDistinct(papers, Keep, TitleKey);
  }

  /** Every normalised title of the input is the title of some kept paper, and no other is. */
  lemma DeduplicatedCovers(papers: seq<Paper>, key: string)
    ensures key in NamesOf(Deduplicated(papers), TitleKey) <==> exists i :: 0 <= i < |papers| && TitleKey(papers[i]) == key
  {
    CollectNames(papers, Keep, TitleKey, key);
  }

  /** Each kept paper is the first paper with its normalised title. */
  lemma DeduplicatedKeepsFirst(papers: seq<Paper>, a: nat)
    requires a < |Deduplicated(papers)|
    ensures exists i ::
      (0 <= i < |papers| && papers[i] == Deduplicated(papers)[a]
       && forall j :: 0 <= j < i ==> TitleKey(papers[j]) != TitleKey(papers[i]))
  {
    CollectFirst(papers, Keep, TitleKey, a);
    var i :| FirstWithName(papers, Keep, TitleKey, i) && Keep(papers[i]) == Some(Deduplicated(papers)[a]);
    forall j | 0 <= j < i
      ensures TitleKey(papers[j]) != TitleKey(papers[i])
    {
      assert Keep(papers[j]).Some?;
    }
  }

  // ---------------------------------------------------------------- selection

  function KeepRelevant(p: Paper): Option<Paper>
  {
    if PaperIsRelevant(p) then Some(p) else None
  }

  /** The relevant papers, in order. */
  function Selected(papers: seq<Paper>): seq<Paper>
  {
    Pick(papers, KeepRelevant)
  }

  /** The selection loop of the script. */
  method SelectRelevant(unique: seq<Paper>) returns (selected: seq<Paper>)
    ensures selected == Selected(unique)
  {
    selected := [];
    var i := 0;
    while i < |unique|
      invariant i <= |unique|
      invariant selected == Pick(unique[..i], KeepRelevant)
    {
      PickSnoc(unique, i, KeepRelevant);
      var p := unique[i];
      if IsRelevant(p.title, p.summary, p.keywords) {
        selected := selected + [p];
      }
      i := i + 1;
    }
    assert unique[..i] == unique;
  }

  /** A paper is selected exactly when it is among the input and relevant. */
  lemma SelectedMember(papers: seq<Paper>, p: Paper)
    ensures p in Selected(papers) <==> p in papers && PaperIsRelevant(p)
  {
    PickMember(papers, KeepRelevant, p);
  }

  /** A filter keeps keys distinct: what it picks are elements of the input, in order. */
  lemma {:induction false} FilterKeepsDistinct<T>(xs: seq<T>, f: T -> Option<T>, key: T -> string)
    requires forall x :: f(x).Some? ==> f(x).value == x
    requires forall a, b :: 0 <= a < b < |xs| ==> key(xs[a]) != key(xs[b])
    ensures forall a, b :: 0 <= a < b < |Pick(xs, f)| ==> key(Pick(xs, f)[a]) != key(Pick(xs, f)[b])
    decreases |xs|
  {
    if xs != [] {
      var n := |xs| - 1;
      var prev := Pick(xs[..n], f);
      FilterKeepsDistinct(xs[..n], f, key);
      if f(xs[n]).Some? {
        assert Pick(xs, f) == prev + [xs[n]];
        forall a | 0 <= a < |prev|
          ensures key(prev[a]) != key(xs[n])
        {
          PickMember(xs[..n], f, prev[a]);
          var j :| 0 <= j < n && f(xs[..n][j]) == Some(prev[a]);
          assert xs[..n][j] == xs[j];
        }
      }
    }
  }

  /** Filtering keeps normalised titles distinct. */
  lemma SelectedDistinct(papers: seq<Paper>)
    requires forall a, b :: 0 <= a < b < |papers| ==> TitleKey(papers[a]) != TitleKey(papers[b])
    ensures forall a, b :: 0 <= a < b < |Selected(papers)| ==> TitleKey(Selected(papers)[a]) != TitleKey(Selected(papers)[b])
  {
    FilterKeepsDistinct(papers, KeepRelevant, TitleKey);
  }

  // ---------------------------------------------------------------- TeX rows

  /** The title as written into the table: `&` then `%` escaped. */
  function SafeTitle(title: string): string
  {
    Escape(Escape(title, '&'), '%')
  }

  /** The venue as written into the table: only `&` escaped. */
  function SafeVenue(venue: string): string
  {
    Escape(venue, '&')
  }

  function TexRow(p: Paper): string
  {
    SafeTitle(p.title) + " & " + SafeVenue(p.venue) + " & " + p.year + " \\\\ \\hline\n"
  }

  function TexRows(papers: seq<Paper>): string
    decreases |papers|
  {
    if papers == [] then [] else TexRows(papers[..|papers| - 1]) + TexRow(papers[|papers| - 1])
  }

  const TexHeader: string := "% Auto-generated table rows\n"

  /** The content of the TeX table file. */
  function TexTable(selected: seq<Paper>): string
  {
    TexHeader + TexRows(selected)
  }

  /** The table-writing loop, with the file as the string written so far. */
  method WriteTexTable(selected: seq<Paper>) returns (content: string)
    ensures content == TexTable(selected)
  {
    content := TexHeader;
    var i := 0;
    while i < |selected|
      invariant i <= |selected|
      invariant content == TexHeader + TexRows(selected[..i])
    {
      assert selected[..i + 1][..i] == selected[..i];
      var p := selected[i];
      var safeTitle := Escape(Escape(p.title, '&'), '%');
      var safeVenue := Escape(p.venue, '&');
      content := content + (safeTitle + " & " + safeVenue + " & " + p.year + " \\\\ \\hline\n");
      i := i + 1;
    }
    assert selected[..i] == selected;
  }

  /** The escaped title reads back as the title, and every `%` in it is escaped. */
  lemma SafeTitleRoundTrip(title: string)
    ensures Unescape(Unescape(SafeTitle(title), '%'), '&') == title
  {
    UnescapeEscape(Escape(title, '&'), '%');
    UnescapeEscape(title, '&');
  }

  /** Every `%` of the written title has a backslash before it. */
  lemma SafeTitlePercents(title: string, i: nat)
    requires i < |SafeTitle(title)| && SafeTitle(title)[i] == '%'
    ensures i > 0 && SafeTitle(title)[i - 1] == '\\'
  {
    EscapedOccurrences(Escape(title, '&'), '%', i);
  }

  /** The venue reads back as written; one without `&` is copied as is, `%` included. */
  lemma SafeVenueOnlyAmpersand(venue: string)
    ensures Unescape(SafeVenue(venue), '&') == venue
    ensures '&' !in venue ==> SafeVenue(venue) == venue
  {
    UnescapeEscape(venue, '&');
    if '&' !in venue {
      EscapeAbsent(venue, '&');
    }
  }

  // ---------------------------------------------------------------- the script

  /** `main`: merge the four exports, de-duplicate, select, and render the table. */
  method ProcessResultsMain(ieee1: seq<Paper>, ieee2: seq<Paper>, acm1: seq<string>, acm2: seq<string>,
                            fields: string -> seq<string>)
    returns (selected: seq<Paper>, table: string)
    ensures selected == Selected(Deduplicated(ieee1 + ieee2 + AcmPapers(acm1, fields) + AcmPapers(acm2, fields)))
    ensures table == TexTable(selected)
  {
    var allPapers := ieee1 + ieee2;
    var fromAcm1 := ParseAcmMd(acm1, fields);
    allPapers := allPapers + fromAcm1;
    var fromAcm2 := ParseAcmMd(acm2, fields);
    allPapers := allPapers + fromAcm2;
    var unique := Deduplicate(allPapers);
    selected := SelectRelevant(unique);
    table := WriteTexTable(selected);
  }

  /** The selection is relevant, drawn from the input, and free of duplicate titles. */
  lemma SelectionSound(papers: seq<Paper>)
    ensures forall p :: p in Selected(Deduplicated(papers)) ==> PaperIsRelevant(p) && p in papers
    ensures var sel := Selected(Deduplicated(papers));
      forall a, b :: 0 <= a < b < |sel| ==> TitleKey(sel[a]) != TitleKey(sel[b])
  {
    var unique := Deduplicated(papers);
    forall p | p in Selected(unique)
      ensures PaperIsRelevant(p) && p in papers
    {
      SelectedMember(unique, p);
      var a :| 0 <= a < |unique| && unique[a] == p;
      DeduplicatedKeepsFirst(papers, a);
    }
    DeduplicatedDistinct(papers);
    SelectedDistinct(unique);
  }
}
