/** The local multi-method extractor of pdf_parser_alternative.py: three PDF
    libraries run in a requested order, pdfplumber tables are serialised as
    Markdown pipe tables, the longest output wins, Gemini reformats it, and
    OCR of the first pages is tried when the text is short.

    The libraries and Gemini are not modelled: what they return is an input.
    `Sources` holds, per library, the page texts it extracts or the text of
    the exception it raises, and two functions stand for Gemini: `generate`
    maps a text prompt to the response text (or the exception text) and
    `vision` maps a page index to the OCR response for that page's image. */
module AlternativeParser {
  import opened Wrappers
  import opened TextUtil

  // =====================================================================
  // Tables

  /** A pdfplumber table cell: a text or Python None. */
  type Cell = Option<string>
  type Row = seq<Cell>
  type Table = seq<Row>

  /** `str(cell) if cell else ""`: None and the empty text both render as "". */
  function CellText(c: Cell): string
  {
    match c
    case None => ""
    case Some(t) => t
  }

  function CellTexts(row: Row): seq<string>
  {
    seq(|row|, i requires 0 <= i < |row| => CellText(row[i]))
  }

  /** One table row: `"| " + " | ".join(cells) + " |"`, without escaping. */
  function RowLine(row: Row): string
  {
    "| " + Join(CellTexts(row), " | ") + " |"
  }

  function Repeat(s: string, n: nat): string
  {
    if n == 0 then "" else s + Repeat(s, n - 1)
  }

  /** `"|" + "---|" * len(header)`. */
  function SeparatorLine(columns: nat): string
  {
    "|" + Repeat("---|", columns)
  }

  /** Header line, separator line, then one line per data row. */
  function TableLines(table: Table): seq<string>
    requires |table| >= 1
  {
    [RowLine(table[0]), SeparatorLine(|table[0]|)]
      + seq(|table| - 1, i requires 0 <= i < |table| - 1 => RowLine(table[i + 1]))
  }

  /** What `table_to_markdown` returns: for two or more rows, it starts with
      the header line and the separator at the header's width. */
  function TableMarkdown(table: Table): (md: string)
    ensures |table| >= 2 ==> StartsWith(md, RowLine(table[0]) + "\n" + SeparatorLine(|table[0]|))
  {
    if |table| < 2 then ""
    else
      var lines := TableLines(table);
      var head := RowLine(table[0]) + "\n" + SeparatorLine(|table[0]|);
      assert Join(lines, "\n") == lines[0] + "\n" + Join(lines[1..], "\n");
      assert lines[1..][0] == lines[1];
      assert StartsWith(Join(lines[1..], "\n"), lines[1]) by {
        if |lines[1..]| > 1 {
          assert Join(lines[1..], "\n") == lines[1] + "\n" + Join(lines[2..], "\n") by {
            assert lines[1..][1..] == lines[2..];
          }
        }
      }
      assert Join(lines, "\n")[..|head|] == head;
      Join(lines, "\n")
  }

  /** `table_to_markdown`: the lines are collected in a loop and joined. */
  method TableToMarkdown(table: Table) returns (md: string)
    ensures |table| < 2 ==> md == ""
    ensures |table| >= 2 ==> md == Join(TableLines(table), "\n")
  {
    if |table| < 2 {
      return "";
    }
    var lines := [RowLine(table[0]), SeparatorLine(|table[0]|)];
    var i := 1;
    while i < |table|
      invariant 1 <= i <= |table|
      invariant lines == [RowLine(table[0]), SeparatorLine(|table[0]|)]
                         + seq(i - 1, k requires 0 <= k < i - 1 => RowLine(table[k + 1]))
    {
      lines := lines + [RowLine(table[i])];
      i := i + 1;
    }
    md := Join(lines, "\n");
  }

  /** The separator of an n-column table is 4n+1 characters: a '|' at every
      position divisible by four and '-' everywhere else. */
  lemma SeparatorShape(columns: nat)
    ensures |SeparatorLine(columns)| == 4 * columns + 1
    ensures forall i :: 0 <= i < |SeparatorLine(columns)| ==>
      SeparatorLine(columns)[i] == if i % 4 == 0 then '|' else '-'
  {
    RepeatShape(columns);
  }

  lemma {:induction false} RepeatShape(n: nat)
    ensures |Repeat("---|", n)| == 4 * n
    ensures forall i :: 0 <= i < 4 * n ==> Repeat("---|", n)[i] == if i % 4 == 3 then '|' else '-'
  {
    if n > 0 {
      RepeatShape(n - 1);
      var r := Repeat("---|", n);
      assert r == "---|" + Repeat("---|", n - 1);
      forall i | 0 <= i < 4 * n
        ensures r[i] == if i % 4 == 3 then '|' else '-'
      {
        if i >= 4 {
          assert r[i] == Repeat("---|", n - 1)[i - 4];
        }
      }
    }
  }

  /** A cell-by-cell reading of a row line: after the leading '|' every cell
      contributes " " + its text + " |", empty cells included. */
  function CellsFrom(row: Row): string
  {
    if |row| == 0 then "" else " " + CellText(row[0]) + " |" + CellsFrom(row[1..])
  }

  lemma {:induction false} RowLineByCells(row: Row)
    requires |row| > 0
    ensures RowLine(row) == "|" + CellsFrom(row)
  {
    JoinedCells(row);
  }

  lemma {:induction false} JoinedCells(row: Row)
    requires |row| > 0
    ensures " " + Join(CellTexts(row), " | ") + " |" == CellsFrom(row)
  {
    var texts := CellTexts(row);
    if |row| > 1 {
      assert texts[1..] == CellTexts(row[1..]);
      JoinedCells(row[1..]);
      assert Join(texts, " | ") == texts[0] + " | " + Join(texts[1..], " | ");
    }
  }

  /** Cells are not escaped: a cell that holds " | " renders exactly like
      the two cells on either side of it. */
  lemma CellBarsNotEscaped(a: string, b: string)
    ensures RowLine([Some(a + " | " + b)]) == RowLine([Some(a), Some(b)])
  {
    assert CellTexts([Some(a), Some(b)]) == [a, b];
    assert CellTexts([Some(a + " | " + b)]) == [a + " | " + b];
    assert [a, b][1..] == [b];
    assert Join([a, b], " | ") == a + " | " + b;
  }

  /** When no cell holds a line break, a table of n >= 2 rows becomes exactly
      n + 1 lines: it holds n line breaks. */
  lemma TableLineCount(table: Table)
    requires |table| >= 2
    requires forall r, c :: 0 <= r < |table| && 0 <= c < |table[r]| ==> CountChar('\n', CellText(table[r][c])) == 0
    ensures |TableLines(table)| == |table| + 1
    ensures CountChar('\n', TableMarkdown(table)) == |table|
  {
    var lines := TableLines(table);
    CountJoin('\n', lines, "\n");
    assert CountChar('\n', "\n") == 1;
    forall k | 0 <= k < |lines|
      ensures CountChar('\n', lines[k]) == 0
    {
      if k == 1 {
        SeparatorShape(|table[0]|);
        NoBreakInSeparator(|table[0]|);
      } else {
        var r := if k == 0 then 0 else k - 1;
        assert lines[k] == RowLine(table[r]);
        NoBreakInRow(table[r]);
      }
    }
    ZeroSum('\n', lines);
  }

  lemma {:induction false} NoBreakInSeparator(columns: nat)
    ensures CountChar('\n', SeparatorLine(columns)) == 0
  {
    SeparatorShape(columns);
    NoCharCounted('\n', SeparatorLine(columns));
  }

  lemma {:induction false} NoCharCounted(c: char, s: string)
    requires forall i :: 0 <= i < |s| ==> s[i] != c
    ensures CountChar(c, s) == 0
  {
    if |s| > 0 {
      NoCharCounted(c, s[1..]);
    }
  }

  lemma {:induction false} ZeroSum(c: char, parts: seq<string>)
    requires forall k :: 0 <= k < |parts| ==> CountChar(c, parts[k]) == 0
    ensures SumCounts(c, parts) == 0
  {
    if |parts| > 0 {
      ZeroSum(c, parts[1..]);
    }
  }

  lemma NoBreakInRow(row: Row)
    requires forall c :: 0 <= c < |row| ==> CountChar('\n', CellText(row[c])) == 0
    ensures CountChar('\n', RowLine(row)) == 0
  {
    var texts := CellTexts(row);
    CountJoin('\n', texts, " | ");
    assert CountChar('\n', " | ") == 0;
    ZeroSum('\n', texts);
    CountConcat('\n', "| " + Join(texts, " | "), " |");
    CountConcat('\n', "| ", Join(texts, " | "));
  }

  // =====================================================================
  // Page texts

  /** The section every page loop appends: `f"## Page {n}\n\n{text}\n"`. */
  function PageSection(n: nat, text: string): string
  {
    "## Page " + NatToString(n) + "\n\n" + text + "\n"
  }

  /** One section per page, numbered from 1. */
  function NumberedSections(pages: seq<string>): seq<string>
  {
    seq(|pages|, i requires 0 <= i < |pages| => PageSection(i + 1, pages[i]))
  }

  /** When no page text holds a '#', a text made of n page sections holds
      exactly the 2n '#' of their "## Page" headers. */
  lemma PageMarkers(pages: seq<string>)
    requires forall i :: 0 <= i < |pages| ==> CountChar('#', pages[i]) == 0
    ensures CountChar('#', Join(NumberedSections(pages), "\n")) == 2 * |pages|
  {
    var parts := NumberedSections(pages);
    CountJoin('#', parts, "\n");
    assert CountChar('#', "\n") == 0;
    forall i | 0 <= i < |parts|
      ensures CountChar('#', parts[i]) == 2
    {
      SectionMarkers(i + 1, pages[i]);
    }
    SumOfTwos(parts);
  }

  lemma SectionMarkers(n: nat, text: string)
    requires CountChar('#', text) == 0
    ensures CountChar('#', PageSection(n, text)) == 2
  {
    var digits := NatToString(n);
    CountDigits('#', digits);
    CountConcat('#', "## Page " + digits + "\n\n" + text, "\n");
    CountConcat('#', "## Page " + digits + "\n\n", text);
    CountConcat('#', "## Page " + digits, "\n\n");
    CountConcat('#', "## Page ", digits);
    assert CountChar('#', "## Page ") == 2;
    assert CountChar('#', "\n\n") == 0;
    assert CountChar('#', "\n") == 0;
  }

  lemma {:induction false} SumOfTwos(parts: seq<string>)
    requires forall i :: 0 <= i < |parts| ==> CountChar('#', parts[i]) == 2
    ensures SumCounts('#', parts) == 2 * |parts|
  {
    if |parts| > 0 {
      SumOfTwos(parts[1..]);
    }
  }

  /** What `extract_text_pypdf2` returns: the page sections joined by "\n",
      or a failure notice, which is returned as if it were the text. */
  function PyPdf2Text(extracted: Result<seq<string>>): (r: string)
    ensures extracted.Ok? && |extracted.value| > 0 ==> StartsWith(r, PageSection(1, extracted.value[0]))
    ensures extracted.Err? ==> StartsWith(r, "PyPDF2 extraction failed: ") && EndsWith(r, extracted.error)
  {
    JoinStartsWithFirst(NumberedSections(if extracted.Ok? then extracted.value else []), "\n");
    match extracted
    case Err(e) => "PyPDF2 extraction failed: " + e
    case Ok(pages) => Join(NumberedSections(pages), "\n")
  }

  method ExtractTextPyPdf2(extracted: Result<seq<string>>) returns (text: string)
    ensures text == PyPdf2Text(extracted)
  {
    match extracted
    case Err(e) =>
      text := "PyPDF2 extraction failed: " + e;
    case Ok(pages) =>
      var parts: seq<string> := [];
      var i := 0;
      while i < |pages|
        invariant 0 <= i <= |pages|
        invariant parts == NumberedSections(pages[..i])
      {
        parts := parts + [PageSection(i + 1, pages[i])];
        i := i + 1;
      }
      assert pages[..i] == pages;
      text := Join(parts, "\n");
  }

  /** The text list of `extract_with_pymupdf` (images are not extracted on
      this path): one section for every page, empty ones included. */
  method ExtractWithPyMuPdf(pages: seq<string>) returns (parts: seq<string>)
    ensures parts == NumberedSections(pages)
  {
    parts := [];
    var i := 0;
    while i < |pages|
      invariant 0 <= i <= |pages|
      invariant parts == NumberedSections(pages[..i])
    {
      parts := parts + [PageSection(i + 1, pages[i])];
      i := i + 1;
    }
    assert pages[..i] == pages;
  }

  // =====================================================================
  // pdfplumber

  /** What pdfplumber gives for one page: its text (None when it has none)
      and the tables found on it. */
  datatype PlumberPage = PlumberPage(text: Option<string>, tables: seq<Table>)

  /** An entry of `content["tables"]`: a 1-based page number and the cells. */
  datatype PageTable = PageTable(page: nat, data: Table)

  /** `if page_text:` */
  predicate HasText(p: PlumberPage)
  {
    p.text.Some? && p.text.value != ""
  }

  /** The text parts of the first n pages: a section for each page with text. */
  function PlumberTextParts(pages: seq<PlumberPage>, n: nat): seq<string>
    requires n <= |pages|
  {
    if n == 0 then []
    else PlumberTextParts(pages, n - 1)
         + (if HasText(pages[n - 1]) then [PageSection(n, pages[n - 1].text.value)] else [])
  }

  /** The non-empty tables among the first m tables of page `pageNo`. */
  function NonEmptyTables(pageNo: nat, tables: seq<Table>, m: nat): seq<PageTable>
    requires m <= |tables|
  {
    if m == 0 then []
    else NonEmptyTables(pageNo, tables, m - 1)
         + (if |tables[m - 1]| > 0 then [PageTable(pageNo, tables[m - 1])] else [])
  }

  /** The non-empty tables of the first n pages, page by page. */
  function PlumberTables(pages: seq<PlumberPage>, n: nat): seq<PageTable>
    requires n <= |pages|
  {
    if n == 0 then []
    else PlumberTables(pages, n - 1) + NonEmptyTables(n, pages[n - 1].tables, |pages[n - 1].tables|)
  }

  /** `extract_with_pdfplumber` once the document is open: the page loop with
      the inner table loop. */
  method ExtractWithPdfplumber(pages: seq<PlumberPage>) returns (textParts: seq<string>, tables: seq<PageTable>)
    ensures textParts == PlumberTextParts(pages, |pages|)
    ensures tables == PlumberTables(pages, |pages|)
  {
    textParts, tables := [], [];
    var i := 0;
    while i < |pages|
      invariant 0 <= i <= |pages|
      invariant textParts == PlumberTextParts(pages, i)
      invariant tables == PlumberTables(pages, i)
    {
      var page := pages[i];
      if HasText(page) {
        textParts := textParts + [PageSection(i + 1, page.text.value)];
      }
      var j := 0;
      while j < |page.tables|
        invariant 0 <= j <= |page.tables|
        invariant tables == PlumberTables(pages, i) + NonEmptyTables(i + 1, page.tables, j)
      {
        if |page.tables[j]| > 0 {
          tables := tables + [PageTable(i + 1, page.tables[j])];
        }
        j := j + 1;
      }
      i := i + 1;
    }
  }

  /** Every page with text, and only such a page, has its section among the
      text parts, under its own page number. */
  lemma {:induction false} PlumberTextPartOfPage(pages: seq<PlumberPage>, n: nat, k: nat)
    requires k < n <= |pages| && HasText(pages[k])
    ensures PageSection(k + 1, pages[k].text.value) in PlumberTextParts(pages, n)
  {
    if k < n - 1 {
      PlumberTextPartOfPage(pages, n - 1, k);
    }
  }

  lemma {:induction false} PlumberTextPartHasPage(pages: seq<PlumberPage>, n: nat, s: string)
    requires n <= |pages| && s in PlumberTextParts(pages, n)
    ensures exists k :: 0 <= k < n && HasText(pages[k]) && s == PageSection(k + 1, pages[k].text.value)
  {
    if s !in PlumberTextParts(pages, n - 1) {
      assert HasText(pages[n - 1]) && s == PageSection(n, pages[n - 1].text.value);
    } else {
      PlumberTextPartHasPage(pages, n - 1, s);
    }
  }

  /** `f"\n### Table (Page {page})\n\n{table_md}\n"`. */
  function TableSection(page: nat, md: string): string
  {
    "\n### Table (Page " + NatToString(page) + ")\n\n" + md + "\n"
  }

  /** The table parts: one per table whose Markdown is not empty. */
  function TableSections(tables: seq<PageTable>): seq<string>
  {
    if |tables| == 0 then []
    else
      var last := tables[|tables| - 1];
      TableSections(tables[..|tables| - 1])
        + (if TableMarkdown(last.data) != "" then [TableSection(last.page, TableMarkdown(last.data))] else [])
  }

  /** A table's Markdown is empty exactly when it has fewer than two rows. */
  lemma TableMarkdownEmpty(table: Table)
    ensures TableMarkdown(table) == "" <==> |table| < 2
  {
    if |table| >= 2 {
      var lines := TableLines(table);
      assert Join(lines, "\n") == lines[0] + "\n" + Join(lines[1..], "\n");
    }
  }

  /** The pdfplumber candidate text: all page parts, then the table parts. */
  function PlumberText(pages: seq<PlumberPage>): string
  {
    Join(PlumberTextParts(pages, |pages|) + TableSections(PlumberTables(pages, |pages|)), "\n")
  }

  /** The combining step of `parse_pdf_multimethod` for pdfplumber. */
  method CombinePdfplumber(textParts: seq<string>, tables: seq<PageTable>) returns (text: string)
    ensures text == Join(textParts + TableSections(tables), "\n")
  {
    var parts := textParts;
    var i := 0;
    while i < |tables|
      invariant 0 <= i <= |tables|
      invariant parts == textParts + TableSections(tables[..i])
    {
      assert tables[..i + 1][..i] == tables[..i];
      var md := TableToMarkdown(tables[i].data);
      if md != "" {
        parts := parts + [TableSection(tables[i].page, md)];
      }
      i := i + 1;
    }
    assert tables[..i] == tables;
    text := Join(parts, "\n");
  }

  /** Joining two non-empty lists is joining each and putting one separator
      between them. */
  lemma {:induction false} JoinAppend(a: seq<string>, b: seq<string>, sep: string)
    requires |a| > 0 && |b| > 0
    ensures Join(a + b, sep) == Join(a, sep) + sep + Join(b, sep)
  {
    if |a| > 1 {
      assert (a + b)[1..] == a[1..] + b;
      JoinAppend(a[1..], b, sep);
    } else {
      assert (a + b)[1..] == b;
    }
  }

  /** Table sections come after all page-text sections. */
  lemma PlumberTablesLast(pages: seq<PlumberPage>)
    requires |PlumberTextParts(pages, |pages|)| > 0
    requires |TableSections(PlumberTables(pages, |pages|))| > 0
    ensures PlumberText(pages) == Join(PlumberTextParts(pages, |pages|), "\n") + "\n"
                                  + Join(TableSections(PlumberTables(pages, |pages|)), "\n")
  {
    JoinAppend(PlumberTextParts(pages, |pages|), TableSections(PlumberTables(pages, |pages|)), "\n");
  }

  // =====================================================================
  // Gemini enhancement

  /** The template lines before the `{text}` slot; in the source each
      non-blank line carries sixteen spaces of indentation. */
  const FormatLines: seq<string> := [
    "Format the following text as clean Markdown:",
    "- Preserve all content",
    "- Add proper headers (##, ###) for sections",
    "- Format lists properly",
    "- Clean up spacing and line breaks",
    "- Preserve technical terms and numbers exactly",
    "",
    "Text:"]
  const SummarizeLines: seq<string> := [
    "Create a detailed summary of the following text in Markdown format:",
    "- Include all key points",
    "- Maintain section structure",
    "- Preserve important data and numbers",
    "- Use bullet points for clarity",
    "",
    "Text:"]
  const MedicalLines: seq<string> := [
    "Format this medical/scientific document as structured Markdown:",
    "- Identify and format sections (Abstract, Introduction, Methods, Results, Discussion)",
    "- Preserve all medical terminology exactly",
    "- Format data and statistics clearly",
    "- Extract key findings as bullet points",
    "",
    "Text:"]

  const Indent := "                "

  /** Each line on a line of its own, indented unless it is blank. */
  function Indented(lines: seq<string>): string
  {
    if |lines| == 0 then ""
    else "\n" + (if lines[0] == "" then "" else Indent + lines[0]) + Indented(lines[1..])
  }

  /** The text after `{text}`, the same in all three templates. */
  const PromptTail := "\n            "

  /** Only this many characters of the raw text are sent. */
  const EnhanceLimit := 10000

  /** `prompts.get(task, prompts["format"])`: the template lines for `task`. */
  function TemplateLines(task: string): seq<string>
  {
    if task == "summarize" then SummarizeLines
    else if task == "medical" then MedicalLines
    else FormatLines
  }

  /** A task with no template of its own gets the "format" template. */
  lemma UnknownTaskFormats(task: string)
    requires task != "summarize" && task != "medical"
    ensures TemplateLines(task) == TemplateLines("format")
    ensures forall raw :: EnhancePrompt(raw, task) == EnhancePrompt(raw, "format")
  {
  }

  /** The template up to its `{text}` slot. */
  function PromptHead(task: string): string
  {
    Indented(TemplateLines(task)) + "\n" + Indent
  }

  /** `raw_text[:10000]`. */
  function Truncated(raw: string): string
  {
    if |raw| <= EnhanceLimit then raw else raw[..EnhanceLimit]
  }

  /** A template head with the text filled into its slot. */
  function Fill(head: string, raw: string): string
  {
    head + Truncated(raw) + PromptTail
  }

  /** The prompt `enhance_with_gemini` sends for `task`. */
  function EnhancePrompt(raw: string, task: string): (prompt: string)
  {
    Fill(PromptHead(task), raw)
  }

  /** The filled template holds the first min(|raw|, 10000) characters of
      the text and nothing else of it, between the head and the common tail. */
  lemma FillShape(head: string, raw: string)
    ensures var m := if |raw| < EnhanceLimit then |raw| else EnhanceLimit;
            var prompt := Fill(head, raw);
            && |prompt| == |head| + m + |PromptTail|
            && prompt[..|head|] == head
            && prompt[|head|..|head| + m] == raw[..m]
            && prompt[|head| + m..] == PromptTail
  {
    var m := if |raw| < EnhanceLimit then |raw| else EnhanceLimit;
    assert Truncated(raw) == raw[..m];
  }

  /** What follows the first 10000 characters does not reach Gemini. */
  lemma FillIgnoresRest(head: string, raw: string, rest: string)
    requires |raw| >= EnhanceLimit
    ensures Fill(head, raw + rest) == Fill(head, raw)
  {
    assert (raw + rest)[..EnhanceLimit] == raw[..EnhanceLimit];
  }

  const EnhanceFailedPrefix := "Gemini enhancement failed: "

  /** `enhance_with_gemini`: Gemini's response, or a failure notice followed
      by the whole raw text. */
  function EnhanceWithGemini(raw: string, task: string, generate: string -> Result<string>): (r: string)
    ensures generate(EnhancePrompt(raw, task)).Ok? ==> r == generate(EnhancePrompt(raw, task)).value
    ensures generate(EnhancePrompt(raw, task)).Err? ==>
      && StartsWith(r, EnhanceFailedPrefix + generate(EnhancePrompt(raw, task)).error + "\n\nOriginal text:\n")
      && EndsWith(r, raw)
      && |r| == |EnhanceFailedPrefix + generate(EnhancePrompt(raw, task)).error + "\n\nOriginal text:\n"| + |raw|
  {
    match generate(EnhancePrompt(raw, task))
    case Ok(text) => text
    case Err(e) => EnhanceFailedPrefix + e + "\n\nOriginal text:\n" + raw
  }

  // =====================================================================
  // Multi-method extraction

  /** The OCR path also renders pages with PyMuPDF; `ocrPageCount` is what
      opening the document for it gives. */
  datatype Sources = Sources(
    pypdf2: Result<seq<string>>,
    pdfplumber: Result<seq<PlumberPage>>,
    pymupdf: Result<seq<string>>,
    ocrPageCount: Result<nat>,
    generate: string -> Result<string>,
    vision: nat -> Result<string>)

  /** An entry of `results`: the method's label and its text. */
  datatype Candidate = Candidate(backend: string, text: string)

  const DefaultMethods: seq<string> := ["pdfplumber", "pymupdf", "pypdf2"]

  /** The text returned when no method produced anything. It is written in
      two pieces so that the verifier sees its first character cheaply. */
  const FailureSentinel := "Failed to " + "extract content from PDF using all available methods."

  predicate IsKnownMethod(name: string)
  {
    name == "pypdf2" || name == "pdfplumber" || name == "pymupdf"
  }

  /** What one requested method adds to `results`, if anything. PyPDF2's
      failure notice is itself a candidate; the other two add nothing when
      their library fails; unknown names add nothing. */
  function CandidateFor(name: string, src: Sources): (added: seq<Candidate>)
    ensures |added| <= 1
    ensures |added| == 1 <==>
      name == "pypdf2" || (name == "pdfplumber" && src.pdfplumber.Ok?) || (name == "pymupdf" && src.pymupdf.Ok?)
    ensures |added| == 1 ==> IsBackend(added[0].backend)
  {
    if name == "pypdf2" then [Candidate("PyPDF2", PyPdf2Text(src.pypdf2))]
    else if name == "pdfplumber" then
      (match src.pdfplumber
       case Ok(pages) => [Candidate("pdfplumber", PlumberText(pages))]
       case Err(_) => [])
    else if name == "pymupdf" then
      (match src.pymupdf
       case Ok(pages) => [Candidate("PyMuPDF", Join(NumberedSections(pages), "\n"))]
       case Err(_) => [])
    else []
  }

  /** The three labels a result can carry. */
  predicate IsBackend(backend: string)
  {
    backend == "PyPDF2" || backend == "pdfplumber" || backend == "PyMuPDF"
  }

  /** `results` after running `methods` in order: at most one entry per
      method, each labelled with a backend. */
  function Candidates(methods: seq<string>, src: Sources): (cands: seq<Candidate>)
    ensures |cands| <= |methods|
    ensures forall i :: 0 <= i < |cands| ==> IsBackend(cands[i].backend)
  {
    if |methods| == 0 then []
    else Candidates(methods[..|methods| - 1], src) + CandidateFor(methods[|methods| - 1], src)
  }

  function KnownOnly(methods: seq<string>): seq<string>
  {
    if |methods| == 0 then []
    else KnownOnly(methods[..|methods| - 1])
         + (if IsKnownMethod(methods[|methods| - 1]) then [methods[|methods| - 1]] else [])
  }

  /** Unknown method names add nothing: dropping them changes no candidate,
      and there is at most one candidate per requested name. */
  lemma {:induction false} UnknownMethodsIgnored(methods: seq<string>, src: Sources)
    ensures Candidates(KnownOnly(methods), src) == Candidates(methods, src)
    ensures |Candidates(methods, src)| <= |KnownOnly(methods)| <= |methods|
  {
    if |methods| > 0 {
      var init := methods[..|methods| - 1];
      var last := methods[|methods| - 1];
      UnknownMethodsIgnored(init, src);
      assert Candidates(methods, src) == Candidates(init, src) + CandidateFor(last, src);
      assert |CandidateFor(last, src)| <= 1;
      if IsKnownMethod(last) {
        var known := KnownOnly(init) + [last];
        assert KnownOnly(methods) == known;
        assert known[..|known| - 1] == KnownOnly(init);
        assert Candidates(known, src) == Candidates(KnownOnly(init), src) + CandidateFor(last, src);
      } else {
        assert KnownOnly(methods) == KnownOnly(init);
        assert CandidateFor(last, src) == [];
      }
    }
  }

  /** `max(results, key=lambda x: len(x[1]))`: an index of a longest text,
      the first one among equals. */
  function BestIndex(cands: seq<Candidate>): (k: nat)
    requires |cands| > 0
    ensures k < |cands|
    ensures forall j :: 0 <= j < |cands| ==> |cands[j].text| <= |cands[k].text|
    ensures forall j :: 0 <= j < k ==> |cands[j].text| < |cands[k].text|
  {
    if |cands| == 1 then 0
    else
      var k := BestIndex(cands[..|cands| - 1]);
      if |cands[|cands| - 1].text| > |cands[k].text| then |cands| - 1 else k
  }

  function MethodsOrDefault(methods: Option<seq<string>>): seq<string>
  {
    match methods
    case None => DefaultMethods
    case Some(ms) => ms
  }

  /** The task `parse_pdf_multimethod` asks Gemini for. */
  const MedicalTask := "medical"

  const ParsedHeaderPrefix := "# PDF Parsed with "

  /** What `parse_pdf_multimethod` returns: a text under the header of a
      backend, or the sentinel. */
  function MultimethodText(methods: Option<seq<string>>, src: Sources): (md: string)
    ensures md == FailureSentinel || StartsWith(md, ParsedHeaderPrefix)
  {
    var cands := Candidates(MethodsOrDefault(methods), src);
    if |cands| == 0 then FailureSentinel
    else
      var best := cands[BestIndex(cands)];
      var enhanced := EnhanceWithGemini(best.text, MedicalTask, src.generate);
      StartsWithConcat(ParsedHeaderPrefix, best.backend + "\n\n" + enhanced);
      ParsedHeaderPrefix + best.backend + "\n\n" + enhanced
  }

  /** One turn of the loop of `parse_pdf_multimethod`: what running the
      method `name` adds to `results`. */
  method RunMethod(name: string, src: Sources) returns (added: seq<Candidate>)
    ensures added == CandidateFor(name, src)
  {
    added := [];
    if name == "pypdf2" {
      var text := ExtractTextPyPdf2(src.pypdf2);
      added := [Candidate("PyPDF2", text)];
    } else if name == "pdfplumber" {
      match src.pdfplumber {
        case Ok(pages) =>
          var textParts, tables := ExtractWithPdfplumber(pages);
          var text := CombinePdfplumber(textParts, tables);
          added := [Candidate("pdfplumber", text)];
        case Err(_) =>
      }
    } else if name == "pymupdf" {
      match src.pymupdf {
        case Ok(pages) =>
          var parts := ExtractWithPyMuPdf(pages);
          added := [Candidate("PyMuPDF", Join(parts, "\n"))];
        case Err(_) =>
      }
    }
  }

  /** `parse_pdf_multimethod`: run the methods in order, keep the longest
      result, prefix the header, or give the fixed sentinel. */
  method ParsePdfMultimethod(methods: Option<seq<string>>, src: Sources) returns (md: string)
    ensures md == MultimethodText(methods, src)
  {
    var ms := MethodsOrDefault(methods);
    var results: seq<Candidate> := [];
    var i := 0;
    while i < |ms|
      invariant 0 <= i <= |ms|
      invariant results == Candidates(ms[..i], src)
    {
      assert ms[..i + 1][..i] == ms[..i];
      var added := RunMethod(ms[i], src);
      results := results + added;
      i := i + 1;
    }
    assert ms[..i] == ms;
    if |results| == 0 {
      md := FailureSentinel;
    } else {
      var best := results[BestIndex(results)];
      md := ParsedHeaderPrefix + best.backend + "\n\n" + EnhanceWithGemini(best.text, MedicalTask, src.generate);
    }
  }

  /** The result is the fixed sentinel exactly when no method produced a
      candidate. */
  lemma MultimethodSentinel(methods: Option<seq<string>>, src: Sources)
    ensures Candidates(MethodsOrDefault(methods), src) == [] <==> MultimethodText(methods, src) == FailureSentinel
  {
    var cands := Candidates(MethodsOrDefault(methods), src);
    if |cands| > 0 {
      var best := cands[BestIndex(cands)];
      var h := ParsedHeaderPrefix + best.backend + "\n\n";
      var e := EnhanceWithGemini(best.text, MedicalTask, src.generate);
      assert MultimethodText(methods, src) == h + e;
      assert (h + e)[0] == '#';
      assert FailureSentinel[0] == 'F';
      assert h + e != FailureSentinel;
    }
  }

  /** Otherwise the result starts with the header naming the chosen method,
      whose text is at least as long as every other candidate's and strictly
      longer than those of the methods before it. */
  lemma MultimethodHeader(methods: Option<seq<string>>, src: Sources)
    requires Candidates(MethodsOrDefault(methods), src) != []
    ensures var cands := Candidates(MethodsOrDefault(methods), src);
            var k := BestIndex(cands);
            StartsWith(MultimethodText(methods, src), ParsedHeaderPrefix + cands[k].backend + "\n\n")
  {
    var cands := Candidates(MethodsOrDefault(methods), src);
    var best := cands[BestIndex(cands)];
    var h := ParsedHeaderPrefix + best.backend + "\n\n";
    var e := EnhanceWithGemini(best.text, MedicalTask, src.generate);
    assert MultimethodText(methods, src) == h + e;
    assert (h + e)[..|h|] == h;
  }

  /** The default order runs pdfplumber, then PyMuPDF, then PyPDF2. */
  lemma DefaultCandidates(src: Sources)
    ensures Candidates(DefaultMethods, src)
         == CandidateFor("pdfplumber", src) + CandidateFor("pymupdf", src) + CandidateFor("pypdf2", src)
  {
    var ms := DefaultMethods;
    assert ms[..3] == ms;
    assert ms[..3][..2] == ms[..2];
    assert ms[..2][..1] == ms[..1];
    assert ms[..1][..0] == [];
    assert Candidates(ms[..1], src) == CandidateFor("pdfplumber", src);
  }

  /** So pdfplumber is chosen whenever it succeeds and no other method is
      strictly longer. */
  lemma DefaultPicksPdfplumber(src: Sources)
    requires src.pdfplumber.Ok?
    requires |PyPdf2Text(src.pypdf2)| <= |PlumberText(src.pdfplumber.value)|
    requires src.pymupdf.Ok? ==> |Join(NumberedSections(src.pymupdf.value), "\n")| <= |PlumberText(src.pdfplumber.value)|
    ensures var cands := Candidates(DefaultMethods, src);
            |cands| > 0 && cands[BestIndex(cands)].backend == "pdfplumber"
  {
    DefaultCandidates(src);
    var plumber := CandidateFor("pdfplumber", src);
    var mupdf := CandidateFor("pymupdf", src);
    var pypdf2 := CandidateFor("pypdf2", src);
    assert plumber == [Candidate("pdfplumber", PlumberText(src.pdfplumber.value))];
    assert mupdf == if src.pymupdf.Ok? then [Candidate("PyMuPDF", Join(NumberedSections(src.pymupdf.value), "\n"))] else [];
    assert pypdf2 == [Candidate("PyPDF2", PyPdf2Text(src.pypdf2))];
    var cands := plumber + mupdf + pypdf2;
    if src.pymupdf.Ok? {
      assert cands == [plumber[0], mupdf[0], pypdf2[0]];
    } else {
      assert cands == [plumber[0], pypdf2[0]];
    }
    assert forall j :: 0 <= j < |cands| ==> |cands[j].text| <= |cands[0].text|;
    assert BestIndex(cands) == 0;
  }

  // =====================================================================
  // OCR and the fallback chain

  /** `min(len(pdf_document), max_pages)` pages, none when that is negative. */
  function OcrPageLimit(count: nat, maxPages: int): nat
  {
    if maxPages <= 0 then 0 else if count < maxPages then count else maxPages
  }

  /** The sections of the first n pages, or the first page's failure. */
  function OcrParts(vision: nat -> Result<string>, n: nat): Result<seq<string>>
  {
    if n == 0 then Ok([])
    else match OcrParts(vision, n - 1)
      case Err(e) => Err(e)
      case Ok(parts) =>
        match vision(n - 1)
        case Err(e) => Err(e)
        case Ok(text) => Ok(parts + [PageSection(n, text)])
  }

  const OcrFailedPrefix := "OCR extraction failed: "

  /** What `ocr_pdf_pages` returns: nothing when no page is processed, and
      the failure notice of the first page when that page fails. */
  function OcrText(pageCount: Result<nat>, vision: nat -> Result<string>, maxPages: int): (r: string)
    ensures pageCount.Err? ==> r == OcrFailedPrefix + pageCount.error
    ensures pageCount.Ok? && OcrPageLimit(pageCount.value, maxPages) == 0 ==> r == ""
    ensures pageCount.Ok? && OcrPageLimit(pageCount.value, maxPages) > 0 && vision(0).Err? ==>
      r == OcrFailedPrefix + vision(0).error
  {
    match pageCount
    case Err(e) => OcrFailedPrefix + e
    case Ok(count) =>
      var n := OcrPageLimit(count, maxPages);
      FirstPageDecides(vision, n);
      match OcrParts(vision, n)
      case Err(e) => OcrFailedPrefix + e
      case Ok(parts) => Join(parts, "\n")
  }

  /** `ocr_pdf_pages`: a page loop that stops at the first failure. */
  method OcrPdfPages(pageCount: Result<nat>, vision: nat -> Result<string>, maxPages: int) returns (text: string)
    ensures text == OcrText(pageCount, vision, maxPages)
  {
    match pageCount {
      case Err(e) =>
        return OcrFailedPrefix + e;
      case Ok(count) =>
        var n := OcrPageLimit(count, maxPages);
        var parts: seq<string> := [];
        var i := 0;
        while i < n
          invariant 0 <= i <= n
          invariant OcrParts(vision, i) == Ok(parts)
        {
          match vision(i) {
            case Err(e) =>
              OcrFailureStays(vision, i, n);
              return OcrFailedPrefix + e;
            case Ok(reply) =>
              parts := parts + [PageSection(i + 1, reply)];
          }
          i := i + 1;
        }
        text := Join(parts, "\n");
    }
  }

  /** A failing first page fails the whole run with its error. */
  lemma FirstPageDecides(vision: nat -> Result<string>, n: nat)
    ensures n > 0 && vision(0).Err? ==> OcrParts(vision, n) == Err(vision(0).error)
  {
    if n > 0 && vision(0).Err? {
      OcrFailureStays(vision, 0, n);
    }
  }

  /** Once a page fails, every longer run fails with the same error. */
  lemma {:induction false} OcrFailureStays(vision: nat -> Result<string>, i: nat, n: nat)
    requires i < n && OcrParts(vision, i).Ok? && vision(i).Err?
    ensures OcrParts(vision, n) == Err(vision(i).error)
  {
    if n > i + 1 {
      OcrFailureStays(vision, i, n - 1);
    }
  }

  /** When every processed page succeeds, the OCR text is the n page sections
      of the responses, with n = min(page count, max_pages). */
  lemma {:induction false} OcrPartsAllOk(vision: nat -> Result<string>, n: nat)
    requires forall i :: 0 <= i < n ==> vision(i).Ok?
    ensures OcrParts(vision, n) == Ok(seq(n, i requires 0 <= i < n => PageSection(i + 1, vision(i).value)))
  {
    if n > 0 {
      OcrPartsAllOk(vision, n - 1);
      assert seq(n, i requires 0 <= i < n => PageSection(i + 1, vision(i).value))
          == seq(n - 1, i requires 0 <= i < n - 1 => PageSection(i + 1, vision(i).value)) + [PageSection(n, vision(n - 1).value)];
    }
  }

  /** OCR looks at no page beyond the cap: two Gemini oracles that agree on
      the first min(page count, max_pages) pages give the same text. */
  lemma {:induction false} OcrPageCap(pageCount: Result<nat>, v1: nat -> Result<string>, v2: nat -> Result<string>, maxPages: int)
    requires pageCount.Ok? ==>
      forall i :: 0 <= i < OcrPageLimit(pageCount.value, maxPages) ==> v1(i) == v2(i)
    ensures OcrText(pageCount, v1, maxPages) == OcrText(pageCount, v2, maxPages)
  {
    if pageCount.Ok? {
      OcrPartsAgree(v1, v2, OcrPageLimit(pageCount.value, maxPages));
    }
  }

  lemma {:induction false} OcrPartsAgree(v1: nat -> Result<string>, v2: nat -> Result<string>, n: nat)
    requires forall i :: 0 <= i < n ==> v1(i) == v2(i)
    ensures OcrParts(v1, n) == OcrParts(v2, n)
  {
    if n > 0 {
      OcrPartsAgree(v1, v2, n - 1);
    }
  }

  /** Below this length the extraction is taken to be poor. */
  const OcrThreshold := 1000
  /** `parse_pdf_with_fallbacks` OCRs at most this many pages. */
  const FallbackOcrPages := 3

  /** What `parse_pdf_with_fallbacks` returns. */
  function FallbacksText(src: Sources): (r: string)
    ensures |r| > 0
  {
    var result := MultimethodText(None, src);
    assert |result| > 0 by {
      if Candidates(DefaultMethods, src) != [] {
        assert |ParsedHeaderPrefix| > 0;
      }
    }
    if |result| < OcrThreshold then
      var ocr := OcrText(src.ocrPageCount, src.vision, FallbackOcrPages);
      if |ocr| > |result| then ocr else result
    else result
  }

  /** `parse_pdf_with_fallbacks`: the default methods, then OCR of at most
      three pages when the text is short, kept only if strictly longer. */
  method ParsePdfWithFallbacks(src: Sources) returns (result: string)
    ensures result == FallbacksText(src)
  {
    result := ParsePdfMultimethod(None, src);
    if |result| < OcrThreshold {
      var ocrResult := OcrPdfPages(src.ocrPageCount, src.vision, FallbackOcrPages);
      if |ocrResult| > |result| {
        result := ocrResult;
      }
    }
  }

  /** The fallback result is the multi-method text or, when that is shorter
      than 1000 characters, a strictly longer OCR text; it is never shorter
      than the multi-method text. */
  lemma FallbacksOutcome(src: Sources)
    ensures var m := MultimethodText(None, src);
            var r := FallbacksText(src);
            && |r| >= |m|
            && (|m| >= OcrThreshold ==> r == m)
            && (r != m ==> |m| < OcrThreshold && |r| > |m|
                            && r == OcrText(src.ocrPageCount, src.vision, FallbackOcrPages))
  {
  }

  /** A strictly longer OCR text replaces a multi-method text of fewer than
      1000 characters. */
  lemma OcrReplacesShortText(src: Sources)
    requires |MultimethodText(None, src)| < OcrThreshold
    requires |OcrText(src.ocrPageCount, src.vision, FallbackOcrPages)| > |MultimethodText(None, src)|
    ensures FallbacksText(src) == OcrText(src.ocrPageCount, src.vision, FallbackOcrPages)
  {
  }

  /** OCR is not consulted for a long text, and never beyond page three:
      two sources that differ only in the OCR responses for other pages give
      the same result. */
  lemma FallbacksOcrBounded(src: Sources, vision: nat -> Result<string>)
    requires |MultimethodText(None, src)| >= OcrThreshold ||
             (src.ocrPageCount.Ok? ==>
               forall i :: 0 <= i < OcrPageLimit(src.ocrPageCount.value, FallbackOcrPages) ==> src.vision(i) == vision(i))
    ensures FallbacksText(src) == FallbacksText(src.(vision := vision))
  {
    var other := src.(vision := vision);
    CandidatesIgnoreVision(DefaultMethods, src, vision);
    assert MultimethodText(None, other) == MultimethodText(None, src);
    if |MultimethodText(None, src)| < OcrThreshold {
      OcrPageCap(src.ocrPageCount, src.vision, vision, FallbackOcrPages);
    }
  }

  lemma {:induction false} CandidatesIgnoreVision(methods: seq<string>, src: Sources, vision: nat -> Result<string>)
    ensures Candidates(methods, src.(vision := vision)) == Candidates(methods, src)
  {
    if |methods| > 0 {
      CandidatesIgnoreVision(methods[..|methods| - 1], src, vision);
    }
  }
}
