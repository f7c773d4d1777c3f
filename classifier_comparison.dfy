/** The two LlamaParse error classifiers side by side: the one of the
    MarkItDown app looks for "multimodal", the one of the enhanced app for
    "multimodal_error". */
module ClassifierComparison {
  import opened TextUtil
  import MarkItDownApp
  import EnhancedApp

  /** The enhanced app's name for each kind of the MarkItDown app. */
  function AsErrorType(k: MarkItDownApp.ErrorKind): EnhancedApp.ErrorType
  {
    match k
    case Recitation => EnhancedApp.Recitation
    case Quota => EnhancedApp.Quota
    case Multimodal => EnhancedApp.Multimodal
    case Unknown => EnhancedApp.Unknown
  }

  /** A message the enhanced app calls multimodal is one the MarkItDown app
      calls multimodal too. */
  lemma ErrorMarkerIsMultimodal(msg: string)
    requires Contains(Lower(msg), "multimodal_error")
    ensures Contains(Lower(msg), "multimodal")
  {
    assert "multimodal_error" == "multimodal" + "_error";
    ContainsPrefixOf(Lower(msg), "multimodal", "_error");
  }

  /** The classifiers disagree exactly on a message that names none of
      "recitation", "credits" and "quota" and holds "multimodal" but not
      "multimodal_error": the MarkItDown app calls it multimodal, the
      enhanced app unknown. */
  lemma ClassifiersDisagree(msg: string)
    ensures var m := Lower(msg);
            AsErrorType(MarkItDownApp.Classify(msg)) != EnhancedApp.ClassifyException(msg).errorType
            <==>
            !Contains(m, "recitation") && !Contains(m, "credits") && !Contains(m, "quota")
            && Contains(m, "multimodal") && !Contains(m, "multimodal_error")
  {
    if Contains(Lower(msg), "multimodal_error") {
      ErrorMarkerIsMultimodal(msg);
    }
  }

  /** Where they disagree, the MarkItDown app says multimodal and the
      enhanced app unknown. */
  lemma DisagreementShape(msg: string)
    requires AsErrorType(MarkItDownApp.Classify(msg)) != EnhancedApp.ClassifyException(msg).errorType
    ensures MarkItDownApp.Classify(msg) == MarkItDownApp.Multimodal
    ensures EnhancedApp.ClassifyException(msg).errorType == EnhancedApp.Unknown
  {
    ClassifiersDisagree(msg);
  }
}
