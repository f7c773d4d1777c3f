/** What one call of LlamaParse's `get_json_result` gives back, as both
    Streamlit front ends read it. LlamaParse itself is an oracle. */
module LlamaParseApi {
  import opened Wrappers

  /** An exception with its message, an empty JSON result, or the first
      JSON object's "pages" list (None when that key is missing). A page is
      its "md" entry, None when the page has none. */
  datatype LlamaRaw =
    | Raised(message: string)
    | NoJson
    | Json(pages: Option<seq<Option<string>>>)

  /** The message of the KeyError raised when the JSON object has no "pages". */
  const MissingPagesMessage := "'pages'"

  /** `page.get('md', '')`. */
  function MdOrEmpty(md: Option<string>): string
  {
    match md
    case Some(s) => s
    case None => ""
  }
}
