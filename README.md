# pdf2md: a verified model of the extraction and fallback logic

This project models, in Dafny, the decision and formatting logic of pdf2md. pdf2md converts PDF
documents, mainly medical and scientific articles, to Markdown through a cascade of backends:

- LlamaParse, a cloud parser driven by a Gemini multimodal model;
- a local extractor that runs alongside PyPDF2, pdfplumber and PyMuPDF, and can be
  post-processed by Gemini;
- Microsoft MarkItDown, a local converter.

The PDF libraries, LlamaParse, Gemini and MarkItDown are not modelled. What they return is an
input to the model:

- `AlternativeParser.Sources` holds each library's page texts, or the text of the exception it
  raised. It also holds the page count the OCR path sees, and two functions that stand for
  Gemini: `generate` maps a prompt to its response, and `vision` maps a page index to the OCR
  response for that page.
- `LlamaParseApi.LlamaRaw` is what one `get_json_result` call gives: an exception message, an
  empty result, or the first JSON object's `pages` list. The k-th LlamaParse call of a request
  (counting from 0) sees `llama(k)`.
- `MarkItDownApp.MarkItDownRaw` is what `convert_stream` gives.

The files:

- `wrappers.dfy`: `Option` and `Result`.
- `text_util.dfy`: the string operations the Python code gets from the language itself:
  `sep.join`, decimal rendering in f-strings and `int()`, ASCII `lower()` and `upper()`, the `in`
  substring test, and character counts.
- `llama_parse_api.dfy`: the LlamaParse response shape that both Streamlit apps read.
- `alternative_parser.dfy`: `pdf_parser_alternative.py`:
  - the table serialiser;
  - the page loops of the three libraries;
  - the Gemini prompt, with its truncation and the failure notice;
  - the multi-method run and the choice of the longest result;
  - OCR of the first pages;
  - the `parse_pdf_with_fallbacks` chain.

  Loops that build lists are methods with `while` loops. Each is proved equal to a function of
  its input: a recursion on a prefix of the input, or a sequence comprehension over it. The
  properties are lemmas about those functions.
- `markitdown_app.dfy`: `streamlit_app_with_markitdown.py`:
  - the error classifier;
  - the MarkItDown success rule;
  - the LlamaParse page joiner;
  - the three-mode `smart_parse`.

  `SmartParse` returns the `results` list it builds. The lemmas say which backend is called,
  how often, in which order, and which entry is returned.
- `enhanced_app.dfy`: `streamlit_app_enhanced.py`:
  - its own classifier, with the `empty_result` kind and the kept `details`;
  - the page joiner without page headers;
  - the `page_range` option;
  - the `Page (\d+):` scan of `handle_recitation_error`;
  - the `smart_parse_pdf` retry loop.

  `RetryLoop` is the `while retry_count < max_retries` loop. It returns how many LlamaParse
  calls and local-fallback calls it made, the `result` it left, and the `page_range` of each
  call. It is proved equal to the recursive `Attempts`.
- `classifier_comparison.dfy`: the two classifiers compared. They disagree on exactly one kind
  of message.

Three points of the code's behaviour deserve attention:

- The enhanced app matches `"multimodal_error"`, while the MarkItDown app matches `"multimodal"`.
- In the enhanced app, the "LlamaParse優先" mode runs the same loop as the smart mode. After the
  retries are used up it falls back to the local extractor.
- In the MarkItDown app, the "LlamaParse 優先" mode never retries. Smart mode retries at most
  once: the test `len(results) < max_retries` is made once, when `results` has one entry, so a
  `max_retries` above 2 adds no further attempts.

## Model

| member | source | states |
|---|---|---|
| AlternativeParser.TableMarkdown | pdf_parser_alternative.py:115-131 | for two or more rows, the text starts with the header line, "\n" and the separator at the header's width |
| AlternativeParser.TableToMarkdown | pdf_parser_alternative.py:115-131 | a table of fewer than two rows gives ""; otherwise the header line, the separator and one line per data row, joined by "\n" |
| AlternativeParser.TableMarkdownEmpty | pdf_parser_alternative.py:117-131 | the Markdown is empty exactly when the table has fewer than two rows |
| AlternativeParser.TableLineCount | pdf_parser_alternative.py:120-131 | when no cell holds a line break, n >= 2 rows give n + 1 lines, and so exactly n line breaks |
| AlternativeParser.SeparatorShape | pdf_parser_alternative.py:125 | the separator for n columns has 4n+1 characters: '\|' at every position divisible by 4 and '-' elsewhere |
| AlternativeParser.RepeatShape | pdf_parser_alternative.py:125 | "---\|" repeated n times has length 4n, with '\|' at every fourth position |
| AlternativeParser.RowLineByCells | pdf_parser_alternative.py:124 | a row line is '\|' followed, cell by cell, by " ", the cell's text and " \|", empty cells included |
| AlternativeParser.JoinedCells | pdf_parser_alternative.py:124 | a row line is " " followed by the cells joined by " \| " and then " \|", cell after cell |
| AlternativeParser.CellBarsNotEscaped | pdf_parser_alternative.py:124-129 | cells are not escaped: for all texts a and b, a cell holding a + " \| " + b renders exactly like the two cells a and b |
| AlternativeParser.PageMarkers | pdf_parser_alternative.py:40-44 | when no page text holds '#', the joined page sections hold exactly the 2n '#' of their n "## Page" headers |
| AlternativeParser.SectionMarkers | pdf_parser_alternative.py:42 | a page section adds exactly two '#' to a text without any |
| AlternativeParser.PyPdf2Text | pdf_parser_alternative.py:32-46 | the text starts with the first page's section; a failure gives the notice ending in the exception text |
| AlternativeParser.ExtractTextPyPdf2 | pdf_parser_alternative.py:32-46 | the page loop gives the numbered page sections joined by "\n", or the failure notice with the exception text |
| AlternativeParser.ExtractWithPyMuPdf | pdf_parser_alternative.py:86-91 | one numbered section for every page, empty pages included, in page order |
| AlternativeParser.ExtractWithPdfplumber | pdf_parser_alternative.py:55-72 | the page loop with its inner table loop yields the text parts and the non-empty tables of all pages, in order |
| AlternativeParser.PlumberTextPartOfPage | pdf_parser_alternative.py:57-61 | every page with non-empty text has its section, under its own 1-based number, among the text parts |
| AlternativeParser.PlumberTextPartHasPage | pdf_parser_alternative.py:57-61 | every text part is the section of some page with non-empty text |
| AlternativeParser.CombinePdfplumber | pdf_parser_alternative.py:205-213 | the combined text is the page parts followed by one table section per table with non-empty Markdown, all joined by "\n" |
| AlternativeParser.PlumberTablesLast | pdf_parser_alternative.py:205-213 | the table sections come after all the page-text parts, separated from them by one "\n" |
| AlternativeParser.UnknownTaskFormats | pdf_parser_alternative.py:176 | a task other than "summarize" and "medical" gets the "format" template and the same prompt |
| AlternativeParser.FillShape | pdf_parser_alternative.py:176 | the prompt is the template head, then the first min(\|raw\|, 10000) characters of the text, then the common tail |
| AlternativeParser.FillIgnoresRest | pdf_parser_alternative.py:176 | nothing after the first 10000 characters reaches Gemini |
| AlternativeParser.EnhanceWithGemini | pdf_parser_alternative.py:175-180 | Gemini's response on success; on failure exactly the notice with the error, then "\n\nOriginal text:\n", then the whole raw text, with nothing between them |
| AlternativeParser.CandidateFor | pdf_parser_alternative.py:196-224 | a method adds at most one result, labelled with a backend; it adds one exactly for PyPDF2, or for pdfplumber or PyMuPDF when that library succeeds |
| AlternativeParser.Candidates | pdf_parser_alternative.py:193-224 | after the loop there are at most as many results as requested methods, each labelled with a backend |
| AlternativeParser.UnknownMethodsIgnored | pdf_parser_alternative.py:195-224 | unknown method names add no candidate, and each requested name adds at most one |
| AlternativeParser.BestIndex | pdf_parser_alternative.py:227-228 | the chosen text is at least as long as every candidate and strictly longer than every earlier one, so the first of equals wins |
| AlternativeParser.MultimethodText | pdf_parser_alternative.py:226-237 | the result is the sentinel or starts with "# PDF Parsed with " |
| AlternativeParser.RunMethod | pdf_parser_alternative.py:196-224 | one turn of the method loop adds the PyPDF2 text (even its failure notice), the pdfplumber or PyMuPDF text when that library succeeds, or nothing |
| AlternativeParser.ParsePdfMultimethod | pdf_parser_alternative.py:182-237 | the loop over the methods, then the longest result under its header with Gemini's medical enhancement, or the sentinel |
| AlternativeParser.MultimethodSentinel | pdf_parser_alternative.py:227-237 | the result is the fixed sentinel exactly when no method produced a candidate |
| AlternativeParser.MultimethodHeader | pdf_parser_alternative.py:227-233 | otherwise it starts with "# PDF Parsed with " + the chosen method + "\n\n" |
| AlternativeParser.DefaultCandidates | pdf_parser_alternative.py:190-191 | the default order runs pdfplumber, then PyMuPDF, then PyPDF2 |
| AlternativeParser.DefaultPicksPdfplumber | pdf_parser_alternative.py:190-228 | with the defaults, a successful pdfplumber is chosen unless another method is strictly longer |
| AlternativeParser.OcrText | pdf_parser_alternative.py:247-284 | the exception text when the document cannot be opened; "" when no page is processed; the notice with the first page's error when that page fails |
| AlternativeParser.OcrPdfPages | pdf_parser_alternative.py:239-284 | the page loop gives the sections of min(page count, max_pages) OCR responses joined by "\n", or the failure notice of the first error |
| AlternativeParser.OcrFailureStays | pdf_parser_alternative.py:265-284 | once a page fails, every longer run fails with that page's error |
| AlternativeParser.OcrPartsAllOk | pdf_parser_alternative.py:252-281 | when every processed page succeeds, the parts are the numbered sections of the responses |
| AlternativeParser.OcrPageCap | pdf_parser_alternative.py:252 | OCR looks at no page beyond min(page count, max_pages) |
| AlternativeParser.FallbacksText | pdf_parser_alternative.py:287-311 | the fallback chain never returns an empty text |
| AlternativeParser.ParsePdfWithFallbacks | pdf_parser_alternative.py:287-311 | the default methods, then OCR of at most three pages when the result is short |
| AlternativeParser.FallbacksOutcome | pdf_parser_alternative.py:305-311 | the result is never shorter than the multi-method text; it differs only when that was shorter than 1000 and OCR was strictly longer, and is then the OCR text |
| AlternativeParser.OcrReplacesShortText | pdf_parser_alternative.py:305-309 | a strictly longer OCR text replaces a multi-method text of fewer than 1000 characters |
| AlternativeParser.FallbacksOcrBounded | pdf_parser_alternative.py:305-309 | OCR is not consulted for a text of 1000 or more characters and never beyond page three |
| MarkItDownApp.Classify | streamlit_app_with_markitdown.py:236-245 | each kind holds exactly when its marker is in the lowered message and no earlier marker is, so every message gets exactly one kind |
| MarkItDownApp.ClassifyIgnoresCase | streamlit_app_with_markitdown.py:240-245 | an upper-cased message is classified alike |
| MarkItDownApp.RecitationWins | streamlit_app_with_markitdown.py:240-243 | every message naming both recitation and quota, in any case, is a recitation error |
| MarkItDownApp.MarkItDownOutcome | streamlit_app_with_markitdown.py:140-177 | success exactly when a result with non-empty text came back, with that text and title; otherwise the two error texts, with no error type |
| MarkItDownApp.PageEntriesAt | streamlit_app_with_markitdown.py:225-227 | one entry per page in page order, the i-th being "## Page i+1" and the page's md, or "" when missing |
| MarkItDownApp.PageEntryNumber | streamlit_app_with_markitdown.py:227 | the number in an entry's header reads back as its 1-based position |
| MarkItDownApp.AssemblePages | streamlit_app_with_markitdown.py:225-231 | the loop's entries joined by "\n\n" |
| MarkItDownApp.MissingPagesUnknown | streamlit_app_with_markitdown.py:222 | the KeyError for a missing "pages" key is classified unknown |
| MarkItDownApp.LlamaOutcome | streamlit_app_with_markitdown.py:179-252 | success exactly when a "pages" list came back, with the joined entries and the page count; an empty result fails with no error type; an exception fails with its classified kind |
| MarkItDownApp.ParseWithLlamaParse | streamlit_app_with_markitdown.py:179-252 | the method computes that outcome |
| MarkItDownApp.SmartTrace | streamlit_app_with_markitdown.py:269-337 | the results list holds one to three outcomes |
| MarkItDownApp.SmartParse | streamlit_app_with_markitdown.py:254-337 | the method builds that results list and returns its last entry |
| MarkItDownApp.SmartTraceLocalOnly | streamlit_app_with_markitdown.py:272-304 | MarkItDown alone is called, once, exactly in local mode or without a key |
| MarkItDownApp.SmartTraceOrder | streamlit_app_with_markitdown.py:286-337 | entries before the last are failed LlamaParse outcomes in call order; the last is the next LlamaParse outcome or MarkItDown's; LlamaParse is called at most twice |
| MarkItDownApp.SmartTraceCallCounts | streamlit_app_with_markitdown.py:304-337 | at most two LlamaParse calls and at most one MarkItDown call |
| MarkItDownApp.SmartTraceRetry | streamlit_app_with_markitdown.py:313-327 | a second LlamaParse call happens exactly in smart mode with a key, after a first failure that is neither recitation nor quota, with auto_retry set and max_retries above 1 |
| MarkItDownApp.LlamaFirstKeepsFailure | streamlit_app_with_markitdown.py:286-299 | in LlamaParse-first mode with a key, the results are the LlamaParse outcome alone, or that outcome then MarkItDown's exactly when auto_retry is set and it is a recitation or quota error |
| MarkItDownApp.SmartModeFallsBack | streamlit_app_with_markitdown.py:304-337 | in smart mode with a key, after a first LlamaParse failure the result is MarkItDown's outcome, unless a retry is made and succeeds, which is then the result |
| MarkItDownApp.SmartModeFirstSuccess | streamlit_app_with_markitdown.py:304-311 | in smart mode with a key, a first LlamaParse success is the only call and the result |
| EnhancedApp.ClassifyException | streamlit_app_enhanced.py:188-199 | first match wins over recitation, credits or quota, then multimodal_error; details are kept exactly for multimodal; unknown errors carry the message |
| EnhancedApp.ClassifyExceptionIgnoresCase | streamlit_app_enhanced.py:192-196 | the error type does not depend on letter case |
| EnhancedApp.MdEntriesAt | streamlit_app_enhanced.py:178-180 | one entry per page in page order, the page's md or "" |
| EnhancedApp.NoPageHeaders | streamlit_app_enhanced.py:178-184 | the joined content adds no '#' to those of the pages' md: this app writes no page headers |
| EnhancedApp.AssembleMarkdown | streamlit_app_enhanced.py:178-184 | the loop's entries joined by "\n\n" |
| EnhancedApp.LlamaResultOf | streamlit_app_enhanced.py:169-199 | success exactly when a "pages" list came back, with the joined md and the page count; an empty result is empty_result; an exception is classified |
| EnhancedApp.PageRange | streamlit_app_enhanced.py:154-158 | a range is passed exactly when chunk mode is on and end_page is neither None nor 0 |
| EnhancedApp.PageRangeReadsBack | streamlit_app_enhanced.py:157 | the range text reads back as start_page, '-', end_page |
| EnhancedApp.ParseWithLlamaParse | streamlit_app_enhanced.py:124-199 | the method computes that result and that range |
| EnhancedApp.FailedPages | streamlit_app_enhanced.py:214-215 | the scan finds at most one page number per seven characters of the text, since each match spans at least seven |
| EnhancedApp.MatchLength | streamlit_app_enhanced.py:214 | a match starts with "Page " and ends with ':' |
| EnhancedApp.SkipsPlainText | streamlit_app_enhanced.py:214 | text without a capital P yields no page number |
| EnhancedApp.MatchOfDigits | streamlit_app_enhanced.py:214-215 | "Page ", digits and ':' yield the number the digits spell, and the scan resumes after the colon |
| EnhancedApp.OneMatch | streamlit_app_enhanced.py:214-215 | a report line yields its page number |
| EnhancedApp.FailedPagesOfReport | streamlit_app_enhanced.py:214-215 | the scan of a report listing pages p1..pn, each with a reason without 'P', gives exactly p1..pn in order |
| EnhancedApp.HandleRecitationError | streamlit_app_enhanced.py:201-221 | the failed pages are the scan's numbers, and the result is always None |
| EnhancedApp.PageErrorsAlternative | streamlit_app_enhanced.py:283-284 | the alternative for a multimodal error is always None |
| EnhancedApp.Attempts | streamlit_app_enhanced.py:249-303 | from attempt k on, the loop calls LlamaParse and leaves a result exactly when attempts remain, calls the local fallback at most once, and then leaves its text as the result |
| EnhancedApp.SmartPdfRun | streamlit_app_enhanced.py:239-305 | at most one local call, with its text as the result; LlamaParse is called only with a key and in one of the two looping modes |
| EnhancedApp.RetryLoop | streamlit_app_enhanced.py:249-303 | the loop makes the calls and leaves the result that Attempts gives; every LlamaParse call passes no page range |
| EnhancedApp.SmartParsePdf | streamlit_app_enhanced.py:223-305 | the calls made and the result follow the mode; the return value is the result, or "無法解析文件" when it is missing or empty; no call passes a page range |
| EnhancedApp.AttemptsCount | streamlit_app_enhanced.py:249-303 | with attempts left, the loop makes between 1 and max_retries LlamaParse calls and at most one local call |
| EnhancedApp.AttemptsRetryBefore | streamlit_app_enhanced.py:281-299 | every LlamaParse call but the last failed with a retryable error: neither success, recitation nor quota |
| EnhancedApp.AttemptsLast | streamlit_app_enhanced.py:259-303 | the local fallback is not called exactly when the last call succeeded, whose content is then the result; otherwise it is called once, after a recitation or quota error or at the last attempt |
| EnhancedApp.NoAttempts | streamlit_app_enhanced.py:249 | with max_retries not above the counter, nothing is called and no result is left |
| EnhancedApp.SwitchOnPolicyError | streamlit_app_enhanced.py:271-279 | a recitation or quota error at attempt j, after retryable failures, ends the loop with j+1 calls and one local call, whose text is the result |
| EnhancedApp.ExhaustedRetries | streamlit_app_enhanced.py:289-303 | when every attempt fails in a retryable way, all max_retries calls are made, then one local call |
| EnhancedApp.FirstSuccessWins | streamlit_app_enhanced.py:259-262 | a success at attempt j after retryable failures ends the loop with j+1 calls, no local call, and that content |
| EnhancedApp.SmartPdfRunNone | streamlit_app_enhanced.py:239-305 | no result is left exactly when a key is given and the mode is unknown, or it loops with max_retries <= 0 |
| EnhancedApp.SmartPdfRunCalls | streamlit_app_enhanced.py:244-303 | at most one local call, at most max(0, max_retries) LlamaParse calls, a result exactly when something was called, and a local call's text as the result |
| EnhancedApp.LocalModeOnly | streamlit_app_enhanced.py:244-246 | the local text is taken without any LlamaParse call exactly in local mode or without a key |
| EnhancedApp.FallbackTextReturned | streamlit_app_enhanced.py:273-305 | with the local extractor's non-empty text, a run that reached the fallback returns that text, and a run with no result returns "無法解析文件" |
| ClassifierComparison.ErrorMarkerIsMultimodal | streamlit_app_enhanced.py:196 | a message holding "multimodal_error" holds "multimodal" |
| ClassifierComparison.ClassifiersDisagree | streamlit_app_enhanced.py:192-199 | the two classifiers disagree exactly on a message that names none of recitation, credits and quota and holds "multimodal" without "multimodal_error" |
| ClassifierComparison.DisagreementShape | streamlit_app_with_markitdown.py:240-245 | where they disagree, the MarkItDown app says multimodal and the enhanced app unknown |

## Left out

- The PDF libraries, LlamaParse, Gemini and MarkItDown are oracles. Their outputs are inputs to the model.
- The image path of `extract_with_pymupdf` is left out: it is Pixmap rendering and base64 encoding, and `parse_pdf_multimethod` never asks for it.
- Rendering OCR page images to temporary files, and deleting them, is left out. `ocrPageCount` stands for what opening the document gives.
- The `print` calls, `st.*` messages, `time.sleep` back-off delays and the Streamlit UI are left out.
- The `except Exception` around each method in `parse_pdf_multimethod` is not modelled. Nothing the model computes there can raise.
- The bare `except` around `enhance_with_gemini` in `parse_pdf_multimethod` is not modelled. That function already catches everything it can raise.
- Exceptions `smart_parse` and `smart_parse_pdf` would let escape are not modelled. The file I/O of `parse_with_markitdown` is inside its own `try`, so its errors appear as `Crashed`.
- `LlamaParseApi.MdOrEmpty` reads a page whose "md" entry is present but null the same as a page without one. In that case the Python code would write "None" in the MarkItDown app and raise a TypeError in the enhanced app.
- `TextUtil.Lower` applies `str.lower()` to ASCII letters only. The markers are ASCII.
- `EnhancedApp.FailedPages`: the regex `\d` matches ASCII digits only. Python's `\d` also matches other Unicode decimal digits.
- The `model_choice` and `gemini_api_key` parameters only configure LlamaParse, Gemini and `parse_pdf_with_fallbacks`, so they are part of the oracles and are left out. In `smart_parse` and `smart_parse_pdf`, the LlamaParse key is a flag that says whether one was given.
- `EnhancedApp.SmartParsePdf` receives what `parse_pdf_with_fallbacks` returns as the value `local`. The run with the modelled extractor is stated by `EnhancedApp.FallbackTextReturned` with `AlternativeParser.FallbacksText`.
- `EnhancedApp.RetryLoop` reports the number of calls to each backend, not the interleaved list of calls. The order is stated by the `Attempts` lemmas: remote calls at attempts 0, 1, ... in turn, and the local call last.
- `EnhancedApp.HandleRecitationError` emits no warning, which is UI output. It returns None, as the code does.
- `streamlit_app.py`, `streamlit_app_fixed.py` and `medical_journal_parser.py` are not part of this model. They are UI scripts and a thin LlamaParse wrapper with file writes.
