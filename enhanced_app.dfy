/** The parsing policy of streamlit_app_enhanced.py: LlamaParse with a
    bounded retry loop, and the local extractor `parse_pdf_with_fallbacks`
    as the fallback. LlamaParse is an oracle: the outcome of the k-th call
    (counting from 0) is `llama(k)`. */
module EnhancedApp {
  import opened Wrappers
  import opened TextUtil
  import opened LlamaParseApi
  import AlternativeParser

  // =====================================================================
  // parse_with_llama_parse

  /** The "type" values of the result dictionary. */
  datatype ErrorType = Recitation | Quota | Multimodal | Unknown | EmptyResult

  /** A result dictionary: content with its page count, or an error
      message, its type and, for multimodal errors, the original message as
      "details". */
  datatype LlamaResult =
    | Success(content: string, pages: nat)
    | Problem(error: string, errorType: ErrorType, details: Option<string>)

  /** The dictionary built from an exception message: lowered, matched
      against the markers in order, the first found deciding. */
  function ClassifyException(msg: string): (r: LlamaResult)
    ensures r.Problem?
    ensures r.errorType == Recitation <==> Contains(Lower(msg), "recitation")
    ensures r.errorType == Quota <==>
      !Contains(Lower(msg), "recitation")
      && (Contains(Lower(msg), "credits") || Contains(Lower(msg), "quota"))
    ensures r.errorType == Multimodal <==>
      !Contains(Lower(msg), "recitation") && !Contains(Lower(msg), "credits")
      && !Contains(Lower(msg), "quota") && Contains(Lower(msg), "multimodal_error")
    ensures r.errorType != EmptyResult
    ensures r.details.Some? <==> r.errorType == Multimodal
    ensures r.details.Some? ==> r.details.value == msg
    ensures r.errorType == Unknown ==> r.error == "解析錯誤：" + msg
  {
    var m := Lower(msg);
    if Contains(m, "recitation") then Problem("內容政策限制（recitation）", Recitation, None)
    else if Contains(m, "credits") || Contains(m, "quota") then Problem("API 額度不足", Quota, None)
    else if Contains(m, "multimodal_error") then Problem("多模態處理錯誤", Multimodal, Some(msg))
    else Problem("解析錯誤：" + msg, Unknown, None)
  }

  /** The classification ignores case. */
  lemma ClassifyExceptionIgnoresCase(msg: string)
    ensures ClassifyException(Upper(msg)).errorType == ClassifyException(msg).errorType
  {
    LowerOfUpper(msg);
  }

  /** The `content` list: each page's markdown, with no header of its own. */
  function MdEntries(pages: seq<Option<string>>): seq<string>
  {
    if |pages| == 0 then []
    else MdEntries(pages[..|pages| - 1]) + [MdOrEmpty(pages[|pages| - 1])]
  }

  /** One entry per page, in page order. */
  lemma {:induction false} MdEntriesAt(pages: seq<Option<string>>)
    ensures |MdEntries(pages)| == |pages|
    ensures forall i :: 0 <= i < |pages| ==> MdEntries(pages)[i] == MdOrEmpty(pages[i])
  {
    if |pages| > 0 {
      var init := pages[..|pages| - 1];
      MdEntriesAt(init);
      assert forall i :: 0 <= i < |init| ==> init[i] == pages[i];
    }
  }

  /** The joined content adds no markup: every '#' in it comes from a
      page's own markdown. */
  lemma NoPageHeaders(pages: seq<Option<string>>)
    ensures CountChar('#', Join(MdEntries(pages), "\n\n")) == SumCounts('#', MdEntries(pages))
  {
    CountJoin('#', MdEntries(pages), "\n\n");
    assert CountChar('#', "\n\n") == 0;
  }

  /** The page loop of `parse_with_llama_parse`, then `"\n\n".join(content)`. */
  method AssembleMarkdown(pages: seq<Option<string>>) returns (content: string)
    ensures content == Join(MdEntries(pages), "\n\n")
  {
    var parts: seq<string> := [];
    var i := 0;
    while i < |pages|
      invariant 0 <= i <= |pages|
      invariant parts == MdEntries(pages[..i])
    {
      assert pages[..i + 1][..i] == pages[..i];
      parts := parts + [MdOrEmpty(pages[i])];
      i := i + 1;
    }
    assert pages[..i] == pages;
    content := Join(parts, "\n\n");
  }

  /** The dictionary `parse_with_llama_parse` returns for one call. */
  function LlamaResultOf(raw: LlamaRaw): (r: LlamaResult)
    ensures r.Success? <==> raw.Json? && raw.pages.Some?
    ensures r.Success? ==> r.content == Join(MdEntries(raw.pages.value), "\n\n") && r.pages == |raw.pages.value|
    ensures raw.NoJson? ==> r == Problem("無法從 PDF 中解析出內容", EmptyResult, None)
    ensures raw.Raised? ==> r == ClassifyException(raw.message)
    ensures raw == Json(None) ==> r == ClassifyException(MissingPagesMessage)
  {
    match raw
    case Raised(msg) => ClassifyException(msg)
    case NoJson => Problem("無法從 PDF 中解析出內容", EmptyResult, None)
    case Json(None) => ClassifyException(MissingPagesMessage)
    case Json(Some(pages)) => Success(Join(MdEntries(pages), "\n\n"), |pages|)
  }

  /** The `page_range` option: set only when `chunk_mode` is on and
      `end_page` is given and non-zero. */
  function PageRange(chunkMode: bool, startPage: int, endPage: Option<int>): (r: Option<string>)
    ensures r.Some? <==> chunkMode && endPage.Some? && endPage.value != 0
  {
    if chunkMode && endPage.Some? && endPage.value != 0 then
      Some(IntToString(startPage) + "-" + IntToString(endPage.value))
    else None
  }

  /** The range text reads back as its two page numbers. */
  lemma PageRangeReadsBack(startPage: nat, endPage: nat)
    requires endPage != 0
    ensures var r := PageRange(true, startPage, Some(endPage)).value;
            var k := LeadingDigits(r);
            && k < |r| && r[k] == '-'
            && DigitsValue(r[..k]) == startPage
            && AllDigits(r[k + 1..]) && DigitsValue(r[k + 1..]) == endPage
  {
    var a := NatToString(startPage);
    var b := NatToString(endPage);
    var r := PageRange(true, startPage, Some(endPage)).value;
    assert r == a + ("-" + b);
    ReadNumber(a, "-" + b);
    LeadingDigitsOfPrefix(a, "-" + b);
    assert r[|a| + 1..] == b;
    DigitsValueOfNatToString(startPage);
    DigitsValueOfNatToString(endPage);
  }

  /** `parse_with_llama_parse`: the dictionary and the `page_range` the
      parser was created with. */
  method ParseWithLlamaParse(chunkMode: bool, startPage: int, endPage: Option<int>, raw: LlamaRaw)
    returns (r: LlamaResult, pageRange: Option<string>)
    ensures pageRange == PageRange(chunkMode, startPage, endPage)
    ensures r == LlamaResultOf(raw)
  {
    pageRange := None;
    if chunkMode && endPage.Some? && endPage.value != 0 {
      pageRange := Some(IntToString(startPage) + "-" + IntToString(endPage.value));
    }
    match raw {
      case Raised(msg) =>
        r := ClassifyException(msg);
      case NoJson =>
        r := Problem("無法從 PDF 中解析出內容", EmptyResult, None);
      case Json(None) =>
        r := ClassifyException(MissingPagesMessage);
      case Json(Some(pages)) =>
        var content := AssembleMarkdown(pages);
        r := Success(content, |pages|);
    }
  }

  // =====================================================================
  // handle_recitation_error

  /** The length of a match of `Page (\d+):` at the start of `s`, or 0. */
  function MatchLength(s: string): (n: nat)
    ensures n <= |s|
    ensures n > 0 ==> n >= 7 && StartsWith(s, "Page ") && s[n - 1] == ':'
  {
    if |s| >= 7 && s[..5] == "Page " then
      var k := LeadingDigits(s[5..]);
      if k > 0 && 5 + k < |s| && s[5 + k] == ':' then 6 + k else 0
    else 0
  }

  /** `[int(p) for p in re.findall(r'Page (\d+):', details)]`: the scan
      moves on past each match, and one character at a time elsewhere. */
  function FailedPages(s: string): (pages: seq<nat>)
    ensures 7 * |pages| <= |s|
    decreases |s|
  {
    if |s| == 0 then []
    else
      var n := MatchLength(s);
      if n > 0 then
        assert AllDigits(s[5..][..n - 6]);
        [DigitsValue(s[5..][..n - 6])] + FailedPages(s[n..])
      else FailedPages(s[1..])
  }

  /** A report line for one failed page. */
  function PageErrorLine(page: nat, reason: string): string
  {
    "Page " + NatToString(page) + ":" + reason
  }

  /** An error report listing `pages`, each followed by `reason`. */
  function PageErrorReport(pages: seq<nat>, reason: string): string
  {
    if |pages| == 0 then "" else PageErrorLine(pages[0], reason) + PageErrorReport(pages[1..], reason)
  }

  /** Text without a capital 'P' holds no match, whatever follows it. */
  lemma {:induction false} SkipsPlainText(t: string, s: string)
    requires 'P' !in t
    ensures FailedPages(t + s) == FailedPages(s)
  {
    if |t| > 0 {
      assert (t + s)[0] == t[0];
      assert MatchLength(t + s) == 0;
      assert (t + s)[1..] == t[1..] + s;
      SkipsPlainText(t[1..], s);
    } else {
      assert t + s == s;
    }
  }

  /** "Page ", a run of digits and a colon make one match, read as the
      number the digits spell. */
  lemma MatchOfDigits(ds: string, t: string)
    requires |ds| > 0 && AllDigits(ds)
    ensures FailedPages("Page " + ds + ":" + t) == [DigitsValue(ds)] + FailedPages(t)
  {
    var x := "Page " + ds + ":" + t;
    var y := ds + (":" + t);
    assert x[5..] == y;
    ReadNumber(ds, ":" + t);
    assert y[..LeadingDigits(y)] == ds;
    assert x[5 + |ds|] == ':';
    assert MatchLength(x) == 6 + |ds|;
    assert x[5..][..|ds|] == ds;
    assert x[6 + |ds|..] == t;
  }

  /** A report line at the start yields its page number, then the scan goes
      on with the line's reason. */
  lemma OneMatch(page: nat, reason: string, s: string)
    ensures FailedPages(PageErrorLine(page, reason) + s) == [page] + FailedPages(reason + s)
  {
    var ds := NatToString(page);
    assert PageErrorLine(page, reason) + s == "Page " + ds + ":" + (reason + s);
    MatchOfDigits(ds, reason + s);
    DigitsValueOfNatToString(page);
  }

  /** The scan reads back, in order, every page a report lists. */
  lemma {:induction false} FailedPagesOfReport(pages: seq<nat>, reason: string)
    requires 'P' !in reason
    ensures FailedPages(PageErrorReport(pages, reason)) == pages
  {
    if |pages| > 0 {
      var rest := PageErrorReport(pages[1..], reason);
      FailedPagesOfReport(pages[1..], reason);
      SkipsPlainText(reason, rest);
      OneMatch(pages[0], reason, rest);
    }
  }

  /** `handle_recitation_error`: the failed pages are found, but no
      alternative text is produced. */
  method HandleRecitationError(details: string) returns (alternative: Option<string>, failedPages: seq<nat>)
    ensures alternative == None
    ensures failedPages == FailedPages(details)
  {
    failedPages := FailedPages(details);
    alternative := None;
  }

  /** The multimodal branch of `smart_parse_pdf`: when the details mention
      "Page errors", `handle_recitation_error` is asked for an alternative,
      which it never gives. */
  method PageErrorsAlternative(details: Option<string>) returns (alternative: Option<string>)
    ensures alternative == None
  {
    alternative := None;
    var text := match details case Some(d) => d case None => "";
    if Contains(text, "Page errors") {
      var failedPages;
      alternative, failedPages := HandleRecitationError(text);
    }
  }

  // =====================================================================
  // smart_parse_pdf

  const LocalMode := "本地解析"
  const LlamaFirstMode := "LlamaParse優先"
  const SmartMode := "智能模式"

  /** What `smart_parse_pdf` returns when it obtained no content. */
  const NoContent := "無法解析文件"

  /** The options `smart_parse_pdf` reads: `max_retries` (None when the
      dictionary lacks the key; the default is 3) and `chunk_pages`. */
  datatype PdfOptions = PdfOptions(maxRetries: Option<int>, chunkPages: bool)

  function MaxRetries(opts: PdfOptions): int
  {
    match opts.maxRetries
    case Some(n) => n
    case None => 3
  }

  /** What a run of `smart_parse_pdf` did: how many LlamaParse calls it
      made, how many calls of `parse_pdf_with_fallbacks`, and the value of
      `result` at the end. */
  datatype Run = Run(remote: nat, localCalls: nat, result: Option<string>)

  /** Recitation and quota errors go straight to the local fallback. */
  predicate GoesLocal(r: LlamaResult)
  {
    r.Problem? && (r.errorType == Recitation || r.errorType == Quota)
  }

  /** The loop from the attempt with `retry_count == k` on, when `local` is
      what the local fallback returns. */
  function Attempts(k: nat, maxRetries: int, llama: nat -> LlamaRaw, local: string): (run: Run)
    ensures run.remote == 0 <==> k >= maxRetries
    ensures run.result == None <==> k >= maxRetries
    ensures run.localCalls <= 1
    ensures run.localCalls == 1 ==> run.result == Some(local)
    decreases maxRetries - k
  {
    if k >= maxRetries then Run(0, 0, None)
    else
      var r := LlamaResultOf(llama(k));
      if r.Success? then Run(1, 0, Some(r.content))
      else if GoesLocal(r) || k + 1 >= maxRetries then Run(1, 1, Some(local))
      else
        var rest := Attempts(k + 1, maxRetries, llama, local);
        Run(1 + rest.remote, rest.localCalls, rest.result)
  }

  /** The calls `smart_parse_pdf` makes and its `result`. */
  function SmartPdfRun(mode: string, hasKey: bool, opts: PdfOptions, llama: nat -> LlamaRaw, local: string): (run: Run)
    ensures run.localCalls <= 1
    ensures run.localCalls == 1 ==> run.result == Some(local)
    ensures run.remote > 0 ==> hasKey && mode != LocalMode && (mode == LlamaFirstMode || mode == SmartMode)
  {
    if mode == LocalMode || !hasKey then Run(0, 1, Some(local))
    else if mode == LlamaFirstMode || mode == SmartMode then Attempts(0, MaxRetries(opts), llama, local)
    else Run(0, 0, None)
  }

  /** `result or "無法解析文件"`. */
  function OrNoContent(result: Option<string>): string
  {
    match result
    case Some(s) => if s != "" then s else NoContent
    case None => NoContent
  }

  /** The `while retry_count < max_retries` loop of `smart_parse_pdf`: the
      calls it makes, the `result` it leaves, and the `page_range` of each
      LlamaParse call in order. */
  method RetryLoop(maxRetries: int, chunk: bool, llama: nat -> LlamaRaw, local: string)
    returns (run: Run, ranges: seq<Option<string>>)
    ensures run == Attempts(0, maxRetries, llama, local)
    ensures |ranges| == run.remote
    ensures forall i :: 0 <= i < |ranges| ==> ranges[i] == None
  {
    ghost var total := Attempts(0, maxRetries, llama, local);
    var remote: nat := 0;
    var localCalls: nat := 0;
    var result: Option<string> := None;
    var retryCount: nat := 0;
    ranges := [];
    while retryCount < maxRetries
      invariant result == None && localCalls == 0 && remote == retryCount == |ranges|
      invariant forall i :: 0 <= i < |ranges| ==> ranges[i] == None
      invariant remote + Attempts(retryCount, maxRetries, llama, local).remote == total.remote
      invariant Attempts(retryCount, maxRetries, llama, local).localCalls == total.localCalls
      invariant Attempts(retryCount, maxRetries, llama, local).result == total.result
      decreases maxRetries - retryCount
    {
      var parseResult, pageRange := ParseWithLlamaParse(chunk, 0, None, llama(retryCount));
      remote := remote + 1;
      ranges := ranges + [pageRange];
      match parseResult {
        case Success(content, _) =>
          result := Some(content);
          break;
        case Problem(_, errorType, details) =>
          if errorType == Recitation || errorType == Quota {
            localCalls := localCalls + 1;
            result := Some(local);
            break;
          }
          if errorType == Multimodal {
            var alternative := PageErrorsAlternative(details);
            match alternative {
              case Some(a) =>
                if a != "" {
                  result := alternative;
                  break;
                }
              case None =>
            }
          }
          retryCount := retryCount + 1;
          if retryCount >= maxRetries {
            localCalls := localCalls + 1;
            result := Some(local);
            break;
          }
      }
    }
    run := Run(remote, localCalls, result);
  }

  /** `smart_parse_pdf`: its return value, what it called, and the
      `page_range` of each LlamaParse call. `local` is what
      `parse_pdf_with_fallbacks` returns for the file, which the local
      extractor models as `AlternativeParser.FallbacksText`. */
  method SmartParsePdf(mode: string, hasKey: bool, opts: PdfOptions, llama: nat -> LlamaRaw, local: string)
    returns (output: string, run: Run, ranges: seq<Option<string>>)
    ensures run == SmartPdfRun(mode, hasKey, opts, llama, local)
    ensures output == OrNoContent(run.result)
    ensures |ranges| == run.remote && forall i :: 0 <= i < |ranges| ==> ranges[i] == None
  {
    var maxRetries := MaxRetries(opts);
    run := Run(0, 0, None);
    ranges := [];
    if mode == LocalMode || !hasKey {
      run := Run(0, 1, Some(local));
    } else if mode == LlamaFirstMode || mode == SmartMode {
      run, ranges := RetryLoop(maxRetries, opts.chunkPages, llama, local);
    }
    output := OrNoContent(run.result);
  }

  // ---------------------------------------------------------------------
  // What the retry loop promises

  /** A failure after which the loop tries LlamaParse again, if attempts
      remain: neither a success nor a recitation or quota error. */
  predicate Retryable(r: LlamaResult)
  {
    r.Problem? && !GoesLocal(r)
  }

  /** The loop makes at least one and at most `maxRetries - k` LlamaParse
      calls when attempts remain, and the fallback at most once. */
  lemma {:induction false} AttemptsCount(k: nat, maxRetries: int, llama: nat -> LlamaRaw, local: string)
    requires k < maxRetries
    ensures var run := Attempts(k, maxRetries, llama, local);
            1 <= run.remote <= maxRetries - k && run.localCalls <= 1
    decreases maxRetries - k
  {
    var r := LlamaResultOf(llama(k));
    if !r.Success? && !GoesLocal(r) && k + 1 < maxRetries {
      var rest := Attempts(k + 1, maxRetries, llama, local);
      assert Attempts(k, maxRetries, llama, local) == Run(1 + rest.remote, rest.localCalls, rest.result);
      AttemptsCount(k + 1, maxRetries, llama, local);
    }
  }

  /** Every LlamaParse call but the last fails in a retryable way. */
  lemma {:induction false} AttemptsRetryBefore(k: nat, maxRetries: int, llama: nat -> LlamaRaw, local: string)
    ensures var run := Attempts(k, maxRetries, llama, local);
            forall j :: k <= j < k + run.remote - 1 ==> Retryable(LlamaResultOf(llama(j)))
    decreases maxRetries - k
  {
    if k < maxRetries {
      var r := LlamaResultOf(llama(k));
      if !r.Success? && !GoesLocal(r) && k + 1 < maxRetries {
        var rest := Attempts(k + 1, maxRetries, llama, local);
        assert Attempts(k, maxRetries, llama, local) == Run(1 + rest.remote, rest.localCalls, rest.result);
        AttemptsRetryBefore(k + 1, maxRetries, llama, local);
        assert Retryable(r);
      }
    }
  }

  /** The last call ends the loop: with its content when it succeeded and
      no fallback; otherwise with one call of the local fallback, on a
      recitation or quota error or once the attempts run out. */
  lemma {:induction false} AttemptsLast(k: nat, maxRetries: int, llama: nat -> LlamaRaw, local: string)
    requires k < maxRetries
    ensures var run := Attempts(k, maxRetries, llama, local);
            var last := LlamaResultOf(llama(k + run.remote - 1));
            && (last.Success? <==> run.localCalls == 0)
            && (last.Success? ==> run.result == Some(last.content))
            && (!last.Success? ==>
                  run.localCalls == 1 && run.result == Some(local)
                  && (GoesLocal(last) || k + run.remote == maxRetries))
    decreases maxRetries - k
  {
    var r := LlamaResultOf(llama(k));
    if !r.Success? && !GoesLocal(r) && k + 1 < maxRetries {
      var rest := Attempts(k + 1, maxRetries, llama, local);
      assert Attempts(k, maxRetries, llama, local) == Run(1 + rest.remote, rest.localCalls, rest.result);
      AttemptsCount(k + 1, maxRetries, llama, local);
      AttemptsLast(k + 1, maxRetries, llama, local);
      assert k + 1 + rest.remote - 1 == k + (1 + rest.remote) - 1;
    }
  }

  /** With no attempts left the loop calls nothing and leaves no result. */
  lemma NoAttempts(k: nat, maxRetries: int, llama: nat -> LlamaRaw, local: string)
    requires maxRetries <= k
    ensures Attempts(k, maxRetries, llama, local) == Run(0, 0, None)
  {
  }

  /** A run of retryable failures followed, at attempt `j`, by a recitation
      or quota error switches to the local fallback at once: `j + 1`
      LlamaParse calls, one local call, its text as the result. */
  lemma {:induction false} SwitchOnPolicyError(k: nat, j: nat, maxRetries: int, llama: nat -> LlamaRaw, local: string)
    requires k <= j < maxRetries
    requires forall i :: k <= i < j ==> Retryable(LlamaResultOf(llama(i)))
    requires GoesLocal(LlamaResultOf(llama(j)))
    ensures Attempts(k, maxRetries, llama, local) == Run(j + 1 - k, 1, Some(local))
    decreases j - k
  {
    if k < j {
      assert Retryable(LlamaResultOf(llama(k)));
      SwitchOnPolicyError(k + 1, j, maxRetries, llama, local);
    }
  }

  /** When every attempt fails in a retryable way, all `maxRetries` calls
      are made and the loop then falls back to the local text. */
  lemma {:induction false} ExhaustedRetries(k: nat, maxRetries: int, llama: nat -> LlamaRaw, local: string)
    requires k < maxRetries
    requires forall i :: k <= i < maxRetries ==> Retryable(LlamaResultOf(llama(i)))
    ensures Attempts(k, maxRetries, llama, local) == Run(maxRetries - k, 1, Some(local))
    decreases maxRetries - k
  {
    assert Retryable(LlamaResultOf(llama(k)));
    if k + 1 < maxRetries {
      ExhaustedRetries(k + 1, maxRetries, llama, local);
    }
  }

  /** First success wins: a success at attempt `j` after retryable failures
      ends the loop with that content and no local call. */
  lemma {:induction false} FirstSuccessWins(k: nat, j: nat, maxRetries: int, llama: nat -> LlamaRaw, local: string)
    requires k <= j < maxRetries
    requires forall i :: k <= i < j ==> Retryable(LlamaResultOf(llama(i)))
    requires LlamaResultOf(llama(j)).Success?
    ensures Attempts(k, maxRetries, llama, local) == Run(j + 1 - k, 0, Some(LlamaResultOf(llama(j)).content))
    decreases j - k
  {
    if k < j {
      assert Retryable(LlamaResultOf(llama(k)));
      FirstSuccessWins(k + 1, j, maxRetries, llama, local);
    }
  }

  /** `smart_parse_pdf` leaves `result` at None exactly when a key is given
      and the mode is neither local nor one that loops, or loops zero
      times. */
  lemma SmartPdfRunNone(mode: string, hasKey: bool, opts: PdfOptions, llama: nat -> LlamaRaw, local: string)
    ensures SmartPdfRun(mode, hasKey, opts, llama, local).result == None <==>
      hasKey && mode != LocalMode
      && ((mode != LlamaFirstMode && mode != SmartMode) || MaxRetries(opts) <= 0)
  {
    if hasKey && mode != LocalMode && (mode == LlamaFirstMode || mode == SmartMode) && MaxRetries(opts) > 0 {
      AttemptsLast(0, MaxRetries(opts), llama, local);
    }
  }

  /** Every call `smart_parse_pdf` makes: at most one local fallback, at
      most `max_retries` LlamaParse calls, and never both none when a
      result is left. */
  lemma SmartPdfRunCalls(mode: string, hasKey: bool, opts: PdfOptions, llama: nat -> LlamaRaw, local: string)
    ensures var run := SmartPdfRun(mode, hasKey, opts, llama, local);
            && run.localCalls <= 1
            && run.remote <= (if MaxRetries(opts) > 0 then MaxRetries(opts) else 0)
            && (run.result != None <==> run.remote + run.localCalls > 0)
            && (run.localCalls == 1 ==> run.result == Some(local))
  {
    var n := MaxRetries(opts);
    if hasKey && mode != LocalMode && (mode == LlamaFirstMode || mode == SmartMode) {
      if n > 0 {
        AttemptsCount(0, n, llama, local);
        AttemptsLast(0, n, llama, local);
      }
    }
  }

  /** Only the local mode, or a missing LlamaParse key, takes the local text
      without calling LlamaParse first. */
  lemma LocalModeOnly(mode: string, hasKey: bool, opts: PdfOptions, llama: nat -> LlamaRaw, local: string)
    ensures var run := SmartPdfRun(mode, hasKey, opts, llama, local);
            run.remote == 0 && run.localCalls == 1 <==> mode == LocalMode || !hasKey
  {
    var n := MaxRetries(opts);
    if hasKey && mode != LocalMode && (mode == LlamaFirstMode || mode == SmartMode) && n > 0 {
      AttemptsCount(0, n, llama, local);
    }
  }

  /** With the local fallback of `pdf_parser_alternative`, whose text is
      never empty, a run that reached the fallback returns its text, and
      "無法解析文件" is returned whenever no result was left. */
  lemma FallbackTextReturned(mode: string, hasKey: bool, opts: PdfOptions, llama: nat -> LlamaRaw,
                             src: AlternativeParser.Sources)
    ensures var local := AlternativeParser.FallbacksText(src);
            var run := SmartPdfRun(mode, hasKey, opts, llama, local);
            && (run.localCalls == 1 ==> OrNoContent(run.result) == local)
            && (run.result == None ==> OrNoContent(run.result) == NoContent)
  {
    var local := AlternativeParser.FallbacksText(src);
    SmartPdfRunCalls(mode, hasKey, opts, llama, local);
  }
}
