/** The parsing policy of streamlit_app_with_markitdown.py: LlamaParse
    (a remote multimodal parser) with Microsoft MarkItDown (a local
    converter) as the fallback. Both are oracles here: `LlamaRaw` is what
    one LlamaParse call produced, `MarkItDownRaw` what the one MarkItDown
    conversion produced, and `smart_parse` receives the outcome of its k-th
    LlamaParse call as `llama(k)`. */
module MarkItDownApp {
  import opened Wrappers
  import opened TextUtil
  import opened LlamaParseApi

  // =====================================================================
  // Error classification

  /** The `error_type` values of `parse_with_llamaparse`. */
  datatype ErrorKind = Recitation | Quota | Multimodal | Unknown

  /** The error message lowered, then matched against the markers in order;
      the first marker found decides. */
  function Classify(msg: string): (k: ErrorKind)
    ensures k == Recitation <==> Contains(Lower(msg), "recitation")
    ensures k == Quota <==>
      !Contains(Lower(msg), "recitation")
      && (Contains(Lower(msg), "credits") || Contains(Lower(msg), "quota"))
    ensures k == Multimodal <==>
      !Contains(Lower(msg), "recitation") && !Contains(Lower(msg), "credits")
      && !Contains(Lower(msg), "quota") && Contains(Lower(msg), "multimodal")
    ensures k == Unknown <==>
      !Contains(Lower(msg), "recitation") && !Contains(Lower(msg), "credits")
      && !Contains(Lower(msg), "quota") && !Contains(Lower(msg), "multimodal")
  {
    var m := Lower(msg);
    if Contains(m, "recitation") then Recitation
    else if Contains(m, "credits") || Contains(m, "quota") then Quota
    else if Contains(m, "multimodal") then Multimodal
    else Unknown
  }

  /** The test ignores case: an upper-cased message is classified alike. */
  lemma ClassifyIgnoresCase(msg: string)
    ensures Classify(Upper(msg)) == Classify(msg)
  {
    LowerOfUpper(msg);
  }

  /** Precedence: a message naming both recitation and quota is a
      recitation error. */
  lemma RecitationWins(msg: string)
    requires Contains(Lower(msg), "recitation") && Contains(Lower(msg), "quota")
    ensures Classify(msg) == Recitation
  {
  }

  // =====================================================================
  // Outcomes

  /** A result dictionary: `success` True with its content, or `success`
      False with its error text and, for LlamaParse exceptions, an
      `error_type`. `backend` is the dictionary's "method" entry. */
  datatype Outcome =
    | Parsed(content: string, backend: string, pages: Option<nat>, title: Option<string>)
    | Failed(error: string, kind: Option<ErrorKind>, backend: string)

  /** `result.get("error_type", "unknown")`. */
  function KindOrUnknown(o: Outcome): ErrorKind
    requires o.Failed?
  {
    match o.kind
    case Some(k) => k
    case None => Unknown
  }

  // =====================================================================
  // MarkItDown

  /** What `convert_stream` gave: a result (whose `text_content` may be
      None, whose `title` may be None or absent), a falsy result, or an
      exception. */
  datatype MarkItDownRaw =
    | Converted(text: Option<string>, title: Option<string>)
    | NoResult
    | Crashed(message: string)

  const MarkItDownName := "MarkItDown"

  /** `parse_with_markitdown`. */
  function MarkItDownOutcome(raw: MarkItDownRaw): (r: Outcome)
    ensures r.backend == MarkItDownName
    ensures r.Parsed? <==> raw.Converted? && raw.text.Some? && raw.text.value != ""
    ensures r.Parsed? ==> r.content == raw.text.value && r.title == raw.title && r.pages.None?
    ensures r.Failed? ==> r.kind.None?
    ensures raw.Crashed? ==> r.Failed? && r.error == "MarkItDown 錯誤: " + raw.message
    ensures !raw.Crashed? && r.Failed? ==> r.error == "MarkItDown 無法提取內容"
  {
    match raw
    case Crashed(e) => Failed("MarkItDown 錯誤: " + e, None, MarkItDownName)
    case NoResult => Failed("MarkItDown 無法提取內容", None, MarkItDownName)
    case Converted(text, title) =>
      if text.Some? && text.value != "" then Parsed(text.value, MarkItDownName, None, title)
      else Failed("MarkItDown 無法提取內容", None, MarkItDownName)
  }

  // =====================================================================
  // LlamaParse

  const LlamaName := "LlamaParse"

  /** The entry for the page at 0-based index `i`. */
  function PageEntry(i: nat, md: Option<string>): string
  {
    "## Page " + NatToString(i + 1) + "\n\n" + MdOrEmpty(md)
  }

  /** The `content` list after the loop over `pages`. */
  function PageEntries(pages: seq<Option<string>>): seq<string>
  {
    if |pages| == 0 then []
    else PageEntries(pages[..|pages| - 1]) + [PageEntry(|pages| - 1, pages[|pages| - 1])]
  }

  /** One entry per page, in page order, each numbered from 1. */
  lemma {:induction false} PageEntriesAt(pages: seq<Option<string>>)
    ensures |PageEntries(pages)| == |pages|
    ensures forall i :: 0 <= i < |pages| ==> PageEntries(pages)[i] == PageEntry(i, pages[i])
  {
    if |pages| > 0 {
      var init := pages[..|pages| - 1];
      PageEntriesAt(init);
      assert forall i :: 0 <= i < |init| ==> init[i] == pages[i];
    }
  }

  /** The page number in an entry reads back as its 1-based position. */
  lemma PageEntryNumber(i: nat, md: Option<string>)
    ensures var e := PageEntry(i, md);
            && StartsWith(e, "## Page ")
            && DigitsValue(e[8..][..LeadingDigits(e[8..])]) == i + 1
  {
    var ds := NatToString(i + 1);
    var rest := "\n\n" + MdOrEmpty(md);
    var e := PageEntry(i, md);
    assert e == "## Page " + (ds + rest);
    assert e[8..] == ds + rest;
    ReadNumber(ds, rest);
    DigitsValueOfNatToString(i + 1);
  }

  /** The page loop of `parse_with_llamaparse`, then `"\n\n".join(content)`. */
  method AssemblePages(pages: seq<Option<string>>) returns (content: string)
    ensures content == Join(PageEntries(pages), "\n\n")
  {
    var parts: seq<string> := [];
    var i := 0;
    while i < |pages|
      invariant 0 <= i <= |pages|
      invariant parts == PageEntries(pages[..i])
    {
      assert pages[..i + 1][..i] == pages[..i];
      parts := parts + [PageEntry(i, pages[i])];
      i := i + 1;
    }
    assert pages[..i] == pages;
    content := Join(parts, "\n\n");
  }

  /** The KeyError's message holds none of the markers. */
  lemma MissingPagesUnknown()
    ensures Classify(MissingPagesMessage) == Unknown
  {
    var m := Lower(MissingPagesMessage);
    assert m == MissingPagesMessage;
    assert 'r' !in m;
    assert 'c' !in m;
    assert 'q' !in m;
    assert 'm' !in m;
    if Contains(m, "recitation") { ContainsFirst(m, "recitation"); }
    if Contains(m, "credits") { ContainsFirst(m, "credits"); }
    if Contains(m, "quota") { ContainsFirst(m, "quota"); }
    if Contains(m, "multimodal") { ContainsFirst(m, "multimodal"); }
  }

  /** What `parse_with_llamaparse` returns for one call. */
  function LlamaOutcome(raw: LlamaRaw): (r: Outcome)
    ensures r.backend == LlamaName
    ensures r.Parsed? <==> raw.Json? && raw.pages.Some?
    ensures r.Parsed? ==>
      && r.content == Join(PageEntries(raw.pages.value), "\n\n")
      && r.pages == Some(|raw.pages.value|)
      && r.title.None?
    ensures raw.NoJson? ==> r == Failed("LlamaParse 無法提取內容", None, LlamaName)
    ensures raw.Raised? ==> r == Failed(raw.message, Some(Classify(raw.message)), LlamaName)
    ensures raw == Json(None) ==> r.Failed? && r.kind == Some(Unknown)
  {
    match raw
    case Raised(msg) => Failed(msg, Some(Classify(msg)), LlamaName)
    case NoJson => Failed("LlamaParse 無法提取內容", None, LlamaName)
    case Json(None) =>
      MissingPagesUnknown();
      Failed(MissingPagesMessage, Some(Classify(MissingPagesMessage)), LlamaName)
    case Json(Some(pages)) => Parsed(Join(PageEntries(pages), "\n\n"), LlamaName, Some(|pages|), None)
  }

  /** `parse_with_llamaparse`. */
  method ParseWithLlamaParse(raw: LlamaRaw) returns (r: Outcome)
    ensures r == LlamaOutcome(raw)
  {
    match raw {
      case Raised(msg) =>
        r := Failed(msg, Some(Classify(msg)), LlamaName);
      case NoJson =>
        r := Failed("LlamaParse 無法提取內容", None, LlamaName);
      case Json(None) =>
        r := Failed(MissingPagesMessage, Some(Classify(MissingPagesMessage)), LlamaName);
      case Json(Some(pages)) =>
        var content := AssemblePages(pages);
        r := Parsed(content, LlamaName, Some(|pages|), None);
    }
  }

  // =====================================================================
  // smart_parse

  const LocalMode := "MarkItDown 本地解析"
  const LlamaFirstMode := "LlamaParse 優先"

  /** The options `smart_parse` reads: `auto_retry` and `max_retries`
      (None when the dictionary lacks the key; the default is 2). */
  datatype Options = Options(autoRetry: bool, maxRetries: Option<int>)

  function MaxRetries(opts: Options): int
  {
    match opts.maxRetries
    case Some(n) => n
    case None => 2
  }

  /** Recitation and quota errors switch to MarkItDown. */
  predicate SwitchesToLocal(o: Outcome)
  {
    o.Failed? && (o.kind == Some(Recitation) || o.kind == Some(Quota))
  }


  /** The `results` list `smart_parse` builds: every outcome in call
      order. */
  function SmartTrace(mode: string, hasKey: bool, opts: Options, llama: nat -> LlamaRaw, markitdown: MarkItDownRaw)
    : (t: seq<Outcome>)
    ensures 1 <= |t| <= 3
  {
    var first := LlamaOutcome(llama(0));
    var local := MarkItDownOutcome(markitdown);
    if mode == LocalMode then [local]
    else if mode == LlamaFirstMode then
      if !hasKey then [local]
      else if opts.autoRetry && SwitchesToLocal(first) then [first, local]
      else [first]
    else if !hasKey then [local]
    else if first.Parsed? then [first]
    else if SwitchesToLocal(first) || !opts.autoRetry || 1 >= MaxRetries(opts) then [first, local]
    else
      var second := LlamaOutcome(llama(1));
      if second.Parsed? then [first, second] else [first, second, local]
  }

  /** `smart_parse`: the result is the last entry of `results`. */
  method SmartParse(mode: string, hasKey: bool, opts: Options, llama: nat -> LlamaRaw, markitdown: MarkItDownRaw)
    returns (result: Outcome, results: seq<Outcome>)
    ensures results == SmartTrace(mode, hasKey, opts, llama, markitdown)
    ensures result == results[|results| - 1]
  {
    results := [];
    if mode == LocalMode {
      result := MarkItDownOutcome(markitdown);
      results := results + [result];
      return;
    } else if mode == LlamaFirstMode {
      if !hasKey {
        result := MarkItDownOutcome(markitdown);
        results := results + [result];
        return;
      }
      result := ParseWithLlamaParse(llama(0));
      results := results + [result];
      if result.Failed? {
        if opts.autoRetry && (result.kind == Some(Recitation) || result.kind == Some(Quota)) {
          var fallback := MarkItDownOutcome(markitdown);
          results := results + [fallback];
          result := fallback;
          return;
        }
      }
      return;
    } else {
      if hasKey {
        result := ParseWithLlamaParse(llama(0));
        results := results + [result];
        if result.Parsed? {
          return;
        } else {
          var errorType := KindOrUnknown(result);
          if errorType == Recitation {
          } else if errorType == Quota {
          } else if opts.autoRetry && |results| < MaxRetries(opts) {
            var retry := ParseWithLlamaParse(llama(1));
            results := results + [retry];
            if retry.Parsed? {
              result := retry;
              return;
            }
          }
        }
      }
      result := MarkItDownOutcome(markitdown);
      results := results + [result];
    }
  }

  /** In local mode, and without a key in the other modes, MarkItDown is
      called once and nothing else is. */
  lemma SmartTraceLocalOnly(mode: string, hasKey: bool, opts: Options, llama: nat -> LlamaRaw, markitdown: MarkItDownRaw)
    ensures mode == LocalMode || !hasKey <==>
            SmartTrace(mode, hasKey, opts, llama, markitdown) == [MarkItDownOutcome(markitdown)]
  {
    LlamaNameIsNot();
  }

  /** Entries before the last are the LlamaParse outcomes in call order, the
      k-th seeing `llama(k)`; the last is the next LlamaParse outcome or
      MarkItDown's. No call follows a success. */
  lemma SmartTraceOrder(mode: string, hasKey: bool, opts: Options, llama: nat -> LlamaRaw, markitdown: MarkItDownRaw)
    ensures var t := SmartTrace(mode, hasKey, opts, llama, markitdown);
            && (forall i :: 0 <= i < |t| - 1 ==> t[i] == LlamaOutcome(llama(i)) && t[i].Failed?)
            && (t[|t| - 1] == LlamaOutcome(llama(|t| - 1)) || t[|t| - 1] == MarkItDownOutcome(markitdown))
            && (forall i :: 0 <= i < |t| && t[i].backend == LlamaName ==> i < 2)
  {
    LlamaNameIsNot();
  }

  /** At most two LlamaParse calls and at most one MarkItDown call. */
  lemma SmartTraceCallCounts(mode: string, hasKey: bool, opts: Options, llama: nat -> LlamaRaw, markitdown: MarkItDownRaw)
    ensures var t := SmartTrace(mode, hasKey, opts, llama, markitdown);
            CallsTo(LlamaName, t) <= 2 && CallsTo(MarkItDownName, t) <= 1
  {
    var t := SmartTrace(mode, hasKey, opts, llama, markitdown);
    SmartTraceOrder(mode, hasKey, opts, llama, markitdown);
    LlamaNameIsNot();
    CallsBefore(LlamaName, t, 2);
    CallsOnlyLast(MarkItDownName, t);
  }

  /** A second LlamaParse call is made only in smart mode, after a first
      failure that is neither recitation nor quota, with `auto_retry` set
      and `max_retries` above 1. */
  lemma SmartTraceRetry(mode: string, hasKey: bool, opts: Options, llama: nat -> LlamaRaw, markitdown: MarkItDownRaw)
    ensures var t := SmartTrace(mode, hasKey, opts, llama, markitdown);
            var first := LlamaOutcome(llama(0));
            |t| >= 2 && t[1].backend == LlamaName <==>
              && mode != LocalMode && mode != LlamaFirstMode && hasKey
              && first.Failed? && !SwitchesToLocal(first)
              && opts.autoRetry && 1 < MaxRetries(opts)
  {
    LlamaNameIsNot();
  }

  /** In LlamaParse-first mode with a key, LlamaParse is called once and its
      outcome is returned unchanged, unless `auto_retry` is set and it is a
      recitation or quota error, when MarkItDown is called and its outcome
      returned. */
  lemma LlamaFirstKeepsFailure(opts: Options, llama: nat -> LlamaRaw, markitdown: MarkItDownRaw)
    ensures var first := LlamaOutcome(llama(0));
            SmartTrace(LlamaFirstMode, true, opts, llama, markitdown)
            == if opts.autoRetry && SwitchesToLocal(first) then [first, MarkItDownOutcome(markitdown)] else [first]
  {
  }

  /** In smart mode with a key, a LlamaParse failure ends with MarkItDown's
      outcome unless the retry succeeds, which is then returned. */
  lemma SmartModeFallsBack(mode: string, opts: Options, llama: nat -> LlamaRaw, markitdown: MarkItDownRaw)
    requires mode != LocalMode && mode != LlamaFirstMode
    requires LlamaOutcome(llama(0)).Failed?
    ensures var t := SmartTrace(mode, true, opts, llama, markitdown);
            t[|t| - 1] == MarkItDownOutcome(markitdown)
            || (|t| == 2 && t[1] == LlamaOutcome(llama(1)) && t[1].Parsed?)
  {
  }

  /** In smart mode with a key, a first LlamaParse success is returned with
      no further call. */
  lemma SmartModeFirstSuccess(mode: string, opts: Options, llama: nat -> LlamaRaw, markitdown: MarkItDownRaw)
    requires mode != LocalMode && mode != LlamaFirstMode
    requires LlamaOutcome(llama(0)).Parsed?
    ensures SmartTrace(mode, true, opts, llama, markitdown) == [LlamaOutcome(llama(0))]
  {
  }

  /** The two backend names differ. */
  lemma LlamaNameIsNot()
    ensures LlamaName != MarkItDownName
  {
    assert LlamaName[0] == 'L' && MarkItDownName[0] == 'M';
  }

  /** How many entries of `results` came from `backend`. */
  function CallsTo(backend: string, results: seq<Outcome>): nat
  {
    if |results| == 0 then 0
    else CallsTo(backend, results[..|results| - 1]) + (if results[|results| - 1].backend == backend then 1 else 0)
  }

  /** A backend whose entries all stand before index `n` has at most `n`
      entries. */
  lemma {:induction false} CallsBefore(backend: string, results: seq<Outcome>, n: nat)
    requires forall i :: 0 <= i < |results| && results[i].backend == backend ==> i < n
    ensures CallsTo(backend, results) <= n
    ensures CallsTo(backend, results) <= |results|
  {
    if |results| > 0 {
      var init := results[..|results| - 1];
      assert forall i :: 0 <= i < |init| ==> init[i] == results[i];
      CallsBefore(backend, init, n);
    }
  }

  /** A backend that can only stand last has at most one entry. */
  lemma CallsOnlyLast(backend: string, results: seq<Outcome>)
    requires forall i :: 0 <= i < |results| - 1 ==> results[i].backend != backend
    ensures CallsTo(backend, results) <= 1
  {
    if |results| > 0 {
      var init := results[..|results| - 1];
      assert forall i :: 0 <= i < |init| ==> init[i] == results[i];
      CallsBefore(backend, init, 0);
    }
  }
}
