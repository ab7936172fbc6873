/**
 * The step catalog: the closed set of step kinds and, for each, the label
 * shown to the user and the instruction a new step starts with
 * (`StepType` and `STEP_OPTIONS` in app/page.tsx).
 */
module Catalog {

  /** The four step kinds; no other kind exists. */
  datatype StepKind = CleanText | Summarize | ExtractPoints | TagCategory

  /** One catalog entry: the kind it is filed under, its label and its default prompt. */
  datatype StepDefinition = StepDefinition(kind: StepKind, labelText: string, defaultPrompt: string)

  /** The tag a kind is written as in the step type union: a non-empty lower-case identifier. */
  function KindName(k: StepKind): (n: string)
    ensures n != [] && forall i :: 0 <= i < |n| ==> 'a' <= n[i] <= 'z' || n[i] == '_'
  {
    match k
    case CleanText => "clean_text"
    case Summarize => "summarize"
    case ExtractPoints => "extract_points"
    case TagCategory => "tag_category"
  }

  /** The catalog entry for a kind; total, since every kind has an entry. */
  function Lookup(k: StepKind): (d: StepDefinition)
    ensures d.kind == k
    ensures d.labelText != [] && d.defaultPrompt != []
  {
    match k
    case CleanText =>
      StepDefinition(k, "Clean Text", "Remove extra whitespace, fix common typos, and normalize punctuation.")
    case Summarize =>
      StepDefinition(k, "Summarize", "Provide a concise summary of the text.")
    case ExtractPoints =>
      StepDefinition(k, "Extract Points", "Extract 3-5 key bullet points from the text.")
    case TagCategory =>
      StepDefinition(k, "Tag Category", "Suggest 3 relevant tags or categories for this content.")
  }

  /** Different kinds have different tags. */
  lemma KindNamesDistinct(k1: StepKind, k2: StepKind)
    ensures KindName(k1) == KindName(k2) <==> k1 == k2
  {
    // the four tags start with four different letters
    if k1 != k2 { assert KindName(k1)[0] != KindName(k2)[0]; }
  }

  /** Different kinds have different labels, so a saved label names its kind. */
  lemma LabelsDistinct(k1: StepKind, k2: StepKind)
    ensures Lookup(k1).labelText == Lookup(k2).labelText <==> k1 == k2
  {
    // the four labels start with four different letters
    if k1 != k2 { assert Lookup(k1).labelText[0] != Lookup(k2).labelText[0]; }
  }

  /** Different kinds have different default prompts. */
  lemma PromptsDistinct(k1: StepKind, k2: StepKind)
    ensures Lookup(k1).defaultPrompt == Lookup(k2).defaultPrompt <==> k1 == k2
  {
    // the four prompts have four different lengths
    assert |Lookup(CleanText).defaultPrompt| == 69 && |Lookup(Summarize).defaultPrompt| == 38;
    assert |Lookup(ExtractPoints).defaultPrompt| == 44 && |Lookup(TagCategory).defaultPrompt| == 55;
  }
}
