/**
 * The text preview generator: each paragraph becomes one line of plain text,
 * numbered paragraphs indented two spaces per level and prefixed with their
 * numbering token, and the non-empty lines are joined with newlines.
 */
module TextPreviewGenerator {
  import opened Wrappers
  import opened Json
  import opened PyStr
  import opened Paragraphs
  import opened Seqs

  /** `f"{s}"` for a string that may be None. */
  function Shown(s: Option<string>): string {
    match s
    case Some(v) => v
    case None => "None"
  }

  /** The numbering token of a numbered paragraph: `list_number` when non-empty, else `inferred_number`. */
  function NumberingOf(p: ParagraphData): Option<string> {
    if Truthy(p.listNumber) then p.listNumber else p.inferredNumber
  }

  /** The level used for indentation: a missing level counts as 0. */
  function LevelOf(p: ParagraphData): int {
    p.level.GetOr(0)
  }

  /** `"  " * level` */
  function Indent(level: int): string {
    Repeat("  ", level)
  }

  /** `format_paragraph_text` */
  function FormatParagraphText(p: ParagraphData): (r: string)
    ensures r == "" <==> !NonBlank(p)
  {
    if !NonBlank(p) then ""
    else if HasNumbering(p) then Indent(LevelOf(p)) + Shown(NumberingOf(p)) + " " + ContentOf(p)
    else
      assert p.text != "";
      p.text
  }

  /** A numbered paragraph always has a non-empty token: `inferred_number` is only used when `list_number` is empty. */
  lemma NumberingIsTruthy(p: ParagraphData)
    requires HasNumbering(p)
    ensures Truthy(NumberingOf(p))
    ensures Truthy(p.listNumber) ==> NumberingOf(p) == p.listNumber
    ensures !Truthy(p.listNumber) ==> NumberingOf(p) == p.inferredNumber
  {
  }

  /**
   * A numbered, non-blank paragraph formats to exactly 2·level spaces (none
   * for a level below 1), then its numbering token, one space and its
   * content; when the token does not start with a space, the line starts with
   * exactly 2·level spaces.
   */
  lemma {:induction false} NumberedLayout(p: ParagraphData)
    requires NonBlank(p) && HasNumbering(p)
    ensures var r := FormatParagraphText(p); var n := NumberingOf(p).value;
      var w := if LevelOf(p) <= 0 then 0 else 2 * LevelOf(p);
      |r| == w + |n| + 1 + |ContentOf(p)|
      && (forall i :: 0 <= i < w ==> r[i] == ' ')
      && r[w..w + |n|] == n
      && r[w + |n|] == ' '
      && r[w + |n| + 1..] == ContentOf(p)
      && (n[0] != ' ' ==> r[w] != ' ')
    ensures Truthy(p.cleanedContent) ==> FormatParagraphText(p)[|FormatParagraphText(p)| - |p.cleanedContent.value|..] == p.cleanedContent.value
    ensures !Truthy(p.cleanedContent) ==> FormatParagraphText(p)[|FormatParagraphText(p)| - |p.text|..] == p.text
  {
    NumberingIsTruthy(p);
    RepeatTwoSpaces(LevelOf(p));
    var n := NumberingOf(p).value;
    var indent := Indent(LevelOf(p));
    var r := FormatParagraphText(p);
    assert r == indent + n + " " + ContentOf(p);
    var w := |indent|;
    assert r[w..w + |n|] == n;
    assert r[w + |n| + 1..] == ContentOf(p);
  }

  /** A non-blank paragraph without numbering is shown as its text, surrounding whitespace included. */
  lemma PlainIsText(p: ParagraphData)
    requires NonBlank(p) && !HasNumbering(p)
    ensures FormatParagraphText(p) == p.text
  {
  }

  /**
   * The line loop of `generate_preview`: one line per non-blank paragraph, in
   * input order, each the paragraph's formatted text.
   */
  method PreviewLines(paragraphs: seq<ParagraphData>) returns (previewLines: seq<string>)
    ensures previewLines == Map(FormatParagraphText, Filter(paragraphs, NonBlank))
  {
    previewLines := [];
    for i := 0 to |paragraphs|
      invariant previewLines == Map(FormatParagraphText, Filter(paragraphs[..i], NonBlank))
    {
      FilterPrefixStep(paragraphs, i, NonBlank);
      var formattedText := FormatParagraphText(paragraphs[i]);
      if formattedText != "" {
        MapSnoc(FormatParagraphText, Filter(paragraphs[..i], NonBlank), paragraphs[i]);
        previewLines := previewLines + [formattedText];
      }
    }
    assert paragraphs[..|paragraphs|] == paragraphs;
  }

  /**
   * The preview holds exactly the non-empty formatted lines: one per
   * non-blank paragraph, the k-th from the k-th non-blank paragraph, never
   * more lines than paragraphs and none of them empty.
   */
  lemma PreviewLinesMeaning(paragraphs: seq<ParagraphData>)
    ensures var lines := Map(FormatParagraphText, Filter(paragraphs, NonBlank));
      var kept := KeptIndices(paragraphs, NonBlank);
      |lines| == Count(paragraphs, NonBlank) == |kept| <= |paragraphs|
      && (forall k :: 0 <= k < |lines| ==> lines[k] != "")
      && forall k :: 0 <= k < |lines| ==>
           kept[k] < |paragraphs| && lines[k] == FormatParagraphText(paragraphs[kept[k]])
  {
    MapFilterAt(FormatParagraphText, paragraphs, NonBlank);
  }

  /**
   * The text written to the preview file for the objects of `all_paragraphs`
   * (an absent key reads as no paragraphs): `'\n'.join(preview_lines)`.
   */
  method GeneratePreview(allParagraphs: seq<JsonParagraph>) returns (preview: string)
    ensures preview == Join(Map(FormatParagraphText, Filter(Map(ParseParagraph, allParagraphs), NonBlank)), "\n")
  {
    var paragraphs := Map(ParseParagraph, allParagraphs);
    var previewLines := PreviewLines(paragraphs);
    preview := Join(previewLines, "\n");
  }
}
