/**
 * The paragraph records the scripts exchange as JSON (`all_paragraphs`,
 * `sample_paragraphs`) and the `ParagraphData` dataclass that three of them
 * parse those records into.
 */
module Paragraphs {
  import opened Wrappers
  import opened Json
  import opened PyStr

  /**
   * One paragraph object of the JSON interchange file. `text` is always a
   * string: an absent key reads as "" (what `get('text', '')` gives).
   */
  datatype JsonParagraph = JsonParagraph(
    index: Field<int>,
    text: string,
    listNumber: Field<string>,
    inferredNumber: Field<string>,
    level: Field<int>,
    cleanedContent: Field<string>)

  /** The `ParagraphData` dataclass of the reconstructors and the preview generator. */
  datatype ParagraphData = ParagraphData(
    index: Option<int>,
    listNumber: Option<string>,
    text: string,
    level: Option<int>,
    inferredNumber: Option<string>,
    cleanedContent: Option<string>)

  /** `parse_paragraphs_from_json`, for one paragraph object. */
  function ParseParagraph(p: JsonParagraph): (d: ParagraphData)
    ensures d.text == p.text
    ensures d.listNumber == GetOr(p.listNumber, "")
    ensures d.level == Get(p.level) && d.inferredNumber == Get(p.inferredNumber)
    ensures d.cleanedContent == Get(p.cleanedContent)
  {
    ParagraphData(
      index := GetOr(p.index, 0),
      listNumber := GetOr(p.listNumber, ""),
      text := p.text,
      level := Get(p.level),
      inferredNumber := Get(p.inferredNumber),
      cleanedContent := Get(p.cleanedContent))
  }

  /** `bool(list_number or inferred_number)`: the paragraph carries a numbering token. */
  predicate HasNumbering(p: ParagraphData) {
    Truthy(p.listNumber) || Truthy(p.inferredNumber)
  }

  /** A paragraph with some non-whitespace text (`para.text.strip()` is truthy); the others are skipped. */
  predicate NonBlank(p: ParagraphData) {
    Strip(p.text) != ""
  }

  /** The text shown for a paragraph: the cleaned content when non-empty, else the raw text. */
  function ContentOf(p: ParagraphData): (r: string)
    ensures Truthy(p.cleanedContent) ==> r == p.cleanedContent.value
    ensures !Truthy(p.cleanedContent) ==> r == p.text
  {
    if Truthy(p.cleanedContent) then p.cleanedContent.value else p.text
  }
}
