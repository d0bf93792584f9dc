/**
 * The template-based rebuilder writes `document.xml` and `numbering.xml` as
 * text: each paragraph becomes an f-string fragment with its text inserted
 * verbatim, and the numbering part is a constant. The fragments and the level
 * table layout are shared with the fixed template rebuilder.
 */
module TemplateBasedRebuilder {
  import opened Wrappers
  import opened Json
  import opened PyStr
  import opened PyInt
  import opened Paragraphs
  import opened Patterns
  import opened Seqs

  // ---------------------------------------------------------------------
  // Paragraph fragments
  // ---------------------------------------------------------------------

  const ParagraphOpen := "<w:p xmlns:w=\"http://schemas.openxmlformats.org/wordprocessingml/2006/main\">\n    <w:"
  const NumberedHead := ParagraphOpen + "p" + "Pr>\n        <w:numPr>\n            <w:numId w:val=\"1\"/>\n            <w:ilvl w:val=\""
  const NumberedMid := "\"" + "/>\n        </w:numPr>\n    </w:pPr>\n    <w:r>\n        <w:t>"
  const RegularHead := ParagraphOpen + "r" + ">\n        <w:t>"
  const TextTail := "</w:t>\n    </w:r>\n</w:p>"

  /** `create_numbered_paragraph_xml(text, level)`: numId 1, ilvl = level, the text unescaped. */
  function NumberedParagraphXml(text: string, level: string): string {
    NumberedHead + level + NumberedMid + text + TextTail
  }

  /** `create_regular_paragraph_xml(text)`: a run with the text and no paragraph properties. */
  function RegularParagraphXml(text: string): string {
    RegularHead + text + TextTail
  }

  predicate NotQuote(c: char) { c != '"' }

  predicate NoQuote(s: string) {
    forall i :: 0 <= i < |s| ==> s[i] != '"'
  }

  /** What stands between a known head and a known tail, when the text has both. */
  function Between(s: string, head: string, tail: string): Option<string> {
    if |s| < |head| + |tail| || s[..|head|] != head || s[|s| - |tail|..] != tail then None
    else Some(s[|head|..|s| - |tail|])
  }

  /** Cutting a known head and tail off a text gives back what stood between them. */
  lemma BetweenWrap(head: string, body: string, tail: string)
    ensures Between(head + body + tail, head, tail) == Some(body)
  {
    var s := head + body + tail;
    assert s[..|head|] == head;
    assert s[|s| - |tail|..] == tail;
    assert s[|head|..|s| - |tail|] == body;
  }

  /** The inside of a numbered fragment: the level up to the first quote, then the text. */
  function SplitLevel(mid: string): Option<(string, string)> {
    var q := Leading(mid, NotQuote);
    match Between(mid[q..], NumberedMid, "")
    case Some(text) => Some((mid[..q], text))
    case None => None
  }

  /**
   * Reading a numbered fragment back: the level is what stands between the
   * `w:ilvl` attribute quote and the next quote, the text what stands between
   * `<w:t>` and the closing tags.
   */
  function ParseNumbered(frag: string): Option<(string, string)> {
    match Between(frag, NumberedHead, TextTail)
    case Some(mid) => SplitLevel(mid)
    case None => None
  }

  /** Reading a regular fragment back: its text. */
  function ParseRegular(frag: string): Option<string> {
    Between(frag, RegularHead, TextTail)
  }

  /** The first quote of a quote-free text followed by a quote is right after that text. */
  lemma SplitAtQuote(level: string, rest: string)
    requires NoQuote(level) && |rest| > 0 && rest[0] == '"'
    ensures var s := level + rest; Leading(s, NotQuote) == |level| && s[..|level|] == level && s[|level|..] == rest
  {
    var s := level + rest;
    assert s[|level|] == '"';
    assert forall i :: 0 <= i < |level| ==> s[i] == level[i];
    assert s[..|level|] == level;
    assert s[|level|..] == rest;
  }

  /** A numbered fragment gives back its level and its text, provided the level holds no quote. */
  lemma NumberedRoundTrip(text: string, level: string)
    requires NoQuote(level)
    ensures ParseNumbered(NumberedParagraphXml(text, level)) == Some((level, text))
  {
    var mid := level + NumberedMid + text;
    Regroup(NumberedHead, level, NumberedMid, text, TextTail);
    BetweenWrap(NumberedHead, mid, TextTail);
    SplitLevelRoundTrip(text, level);
  }

  /** Five pieces joined, read as a head, a middle of three and a tail. */
  lemma Regroup(a: string, b: string, c: string, d: string, e: string)
    ensures a + b + c + d + e == a + (b + c + d) + e
  {
  }

  /** The inside of a numbered fragment splits back into its level and its text. */
  lemma SplitLevelRoundTrip(text: string, level: string)
    requires NoQuote(level)
    ensures SplitLevel(level + NumberedMid + text) == Some((level, text))
  {
    var rest := NumberedMid + text;
    assert level + NumberedMid + text == level + rest;
    assert NumberedMid[0] == '"';
    SplitAtQuote(level, rest);
    BetweenWrap(NumberedMid, text, "");
    assert NumberedMid + text + "" == rest;
  }

  /** A regular fragment gives back its text. */
  lemma RegularRoundTrip(text: string)
    ensures ParseRegular(RegularParagraphXml(text)) == Some(text)
  {
    BetweenWrap(RegularHead, text, TextTail);
  }

  /** The two kinds of fragment part after the opening tag: `<w:pPr>` against `<w:r>`. */
  lemma HeadsDiffer()
    ensures |ParagraphOpen| < |NumberedHead| && |ParagraphOpen| < |RegularHead|
    ensures NumberedHead[|ParagraphOpen|] == 'p' && RegularHead[|ParagraphOpen|] == 'r'
  {
  }

  /** A regular fragment is never read as numbered, and a numbered one never as regular. */
  lemma FragmentsDistinct(text: string, level: string)
    ensures ParseNumbered(RegularParagraphXml(text)).None?
    ensures ParseRegular(NumberedParagraphXml(text, level)).None?
  {
    HeadsDiffer();
    var p := |ParagraphOpen|;
    var reg := RegularParagraphXml(text);
    assert reg[p] == 'r';
    if |reg| >= |NumberedHead| + |TextTail| {
      assert reg[..|NumberedHead|][p] == 'r';
    }
    var num := NumberedParagraphXml(text, level);
    assert num[p] == 'p';
    if |num| >= |RegularHead| + |TextTail| {
      assert num[..|RegularHead|][p] == 'p';
    }
  }

  // ---------------------------------------------------------------------
  // create_document_xml
  // ---------------------------------------------------------------------

  const DocumentHead := "<?xml version=\"1.0\" encoding=\"UTF-8\" standalone=\"yes\"?>\n<w:document xmlns:w=\"http://schemas.openxmlformats.org/wordprocessingml/2006/main\">\n    <w:body>\n        "
  const DocumentTail := "\n    </w:body>\n</w:document>"

  /** The document text around a body. */
  function DocumentXml(body: string): string {
    DocumentHead + body + DocumentTail
  }

  /** Reading the body back out of the document text. */
  function ParseDocument(xml: string): Option<string> {
    Between(xml, DocumentHead, DocumentTail)
  }

  lemma DocumentRoundTrip(body: string)
    ensures ParseDocument(DocumentXml(body)) == Some(body)
  {
    BetweenWrap(DocumentHead, body, DocumentTail);
  }

  /** `bool(p.get('list_number') or p.get('inferred_number'))` */
  predicate JsonHasNumbering(p: JsonParagraph) {
    Truthy(Get(p.listNumber)) || Truthy(Get(p.inferredNumber))
  }

  /** The paragraph's text is not blank once stripped. */
  predicate NonBlankJson(p: JsonParagraph) {
    Strip(p.text) != ""
  }

  /** `f'{p.get(key, default)}'` for a string field: `null` prints as "None". */
  function ShownOr(f: Field<string>, default: string): string {
    match f
    case Absent => default
    case Null => "None"
    case Present(v) => v
  }

  /** `f'{p.get("level", 0)}'` */
  function LevelShown(f: Field<int>): (r: string)
    ensures NoQuote(r)
  {
    match f
    case Absent => "0"
    case Null => "None"
    case Present(v) => IntToString(v)
  }

  /** The content of a numbered fragment: `cleaned_content`, by default the stripped text. */
  function NumberedContent(p: JsonParagraph): string {
    ShownOr(p.cleanedContent, Strip(p.text))
  }

  /** The fragment one paragraph contributes. */
  function Fragment(p: JsonParagraph): string {
    if JsonHasNumbering(p) then NumberedParagraphXml(NumberedContent(p), LevelShown(p.level))
    else RegularParagraphXml(Strip(p.text))
  }

  /** The body: the fragments of the non-blank paragraphs, in input order. */
  function Body(paragraphs: seq<JsonParagraph>): string {
    Flatten(Map(Fragment, Filter(paragraphs, NonBlankJson)))
  }

  /** The body of a prefix one paragraph longer. */
  lemma BodyStep(paragraphs: seq<JsonParagraph>, i: nat)
    requires i < |paragraphs|
    ensures Body(paragraphs[..i + 1]) == Body(paragraphs[..i]) + (if NonBlankJson(paragraphs[i]) then Fragment(paragraphs[i]) else "")
  {
    var kept := Filter(paragraphs[..i], NonBlankJson);
    FilterPrefixStep(paragraphs, i, NonBlankJson);
    if NonBlankJson(paragraphs[i]) {
      MapSnoc(Fragment, kept, paragraphs[i]);
      FlattenSnoc(Map(Fragment, kept), Fragment(paragraphs[i]));
    } else {
      assert Filter(paragraphs[..i + 1], NonBlankJson) == kept;
    }
  }

  /**
   * `create_document_xml`: one fragment appended per non-blank paragraph, then
   * the body wrapped in the document text.
   */
  method CreateDocumentXml(paragraphs: seq<JsonParagraph>) returns (xml: string)
    ensures xml == DocumentXml(Body(paragraphs))
  {
    var bodyContent := "";
    for i := 0 to |paragraphs|
      invariant bodyContent == Body(paragraphs[..i])
    {
      var para := paragraphs[i];
      BodyStep(paragraphs, i);
      var text := Strip(para.text);
      if text == "" {
        continue;
      }
      var fragment;
      if Truthy(Get(para.listNumber)) || Truthy(Get(para.inferredNumber)) {
        var content := ShownOr(para.cleanedContent, text);
        var level := LevelShown(para.level);
        fragment := NumberedParagraphXml(content, level);
      } else {
        fragment := RegularParagraphXml(text);
      }
      bodyContent := bodyContent + fragment;
    }
    assert paragraphs[..|paragraphs|] == paragraphs;
    xml := DocumentXml(bodyContent);
  }

  /**
   * The fragment of a paragraph reads back as numbered, with its level and its
   * content, exactly when the paragraph carries a numbering token, and as
   * regular, with its stripped text, otherwise.
   */
  lemma FragmentMeaning(p: JsonParagraph)
    ensures JsonHasNumbering(p) ==> ParseNumbered(Fragment(p)) == Some((LevelShown(p.level), NumberedContent(p)))
    ensures JsonHasNumbering(p) ==> ParseRegular(Fragment(p)).None?
    ensures !JsonHasNumbering(p) ==> ParseRegular(Fragment(p)) == Some(Strip(p.text))
    ensures !JsonHasNumbering(p) ==> ParseNumbered(Fragment(p)).None?
  {
    if JsonHasNumbering(p) {
      NumberedRoundTrip(NumberedContent(p), LevelShown(p.level));
      FragmentsDistinct(NumberedContent(p), LevelShown(p.level));
    } else {
      RegularRoundTrip(Strip(p.text));
      FragmentsDistinct(Strip(p.text), "");
    }
  }

  /**
   * The body holds exactly one fragment per non-blank paragraph, in input
   * order: the k-th piece is the fragment of the k-th kept paragraph.
   */
  lemma BodyPieces(paragraphs: seq<JsonParagraph>)
    ensures var pieces := Map(Fragment, Filter(paragraphs, NonBlankJson)); var kept := KeptIndices(paragraphs, NonBlankJson);
      Body(paragraphs) == Flatten(pieces)
      && |pieces| == Count(paragraphs, NonBlankJson) == |kept|
      && forall k :: 0 <= k < |pieces| ==> kept[k] < |paragraphs| && NonBlankJson(paragraphs[kept[k]]) && pieces[k] == Fragment(paragraphs[kept[k]])
  {
    MapFilterAt(Fragment, paragraphs, NonBlankJson);
    FilterPicks(paragraphs, NonBlankJson);
  }

  // ---------------------------------------------------------------------
  // create_numbering_xml
  // ---------------------------------------------------------------------

  /** One `w:lvl` of a constant numbering table. */
  datatype LevelDef = LevelDef(ilvl: nat, numFmt: string, lvlText: string, left: nat, hanging: nat)

  /** The text of one `w:lvl` element, as the constant tables lay it out. */
  function LevelXml(d: LevelDef): string {
    "        <w:lvl w:ilvl=\"" + NatToString(d.ilvl) + "\">\n"
    + "            <w:numFmt w:val=\"" + d.numFmt + "\"/>\n"
    + "            <w:lvlText w:val=\"" + d.lvlText + "\"/>\n"
    + "            <w:lvlJc w:val=\"left\"/>\n"
    + "            <w:pPr>\n"
    + "                <w:ind w:left=\"" + NatToString(d.left) + "\" w:hanging=\"" + NatToString(d.hanging) + "\"/>\n"
    + "            </w:pPr>\n"
    + "        </w:lvl>\n"
  }

  const NumberingHead := "<?xml version=\"1.0\" encoding=\"UTF-8\" standalone=\"yes\"?>\n<w:numbering xmlns:w=\"http://schemas.openxmlformats.org/wordprocessingml/2006/main\">\n    <w:abstractNum w:abstractNumId=\"0\">\n"
  const NumberingTail := "    </w:abstractNum>\n    <w:num w:numId=\"1\">\n        <w:abstractNumId w:val=\"0\"/>\n    </w:num>\n</w:numbering>"

  /** A constant numbering part: one abstract numbering holding the levels, and num 1 pointing at it. */
  function NumberingXml(levels: seq<LevelDef>): string {
    NumberingHead + Flatten(Map(LevelXml, levels)) + NumberingTail
  }

  /** The level at position i: ilvl i, 720 twips of indent per level from 720, hanging 360. */
  function StandardLevel(i: nat, numFmt: string, lvlText: string): LevelDef {
    LevelDef(i, numFmt, lvlText, 720 * (i + 1), 360)
  }

  /** The five levels of the template-based rebuilder. */
  const TemplateLevels: seq<LevelDef> := [
    StandardLevel(0, "decimal", "%1."),
    StandardLevel(1, "decimal", "%1.%2."),
    StandardLevel(2, "lowerLetter", "%3."),
    StandardLevel(3, "lowerLetter", "%4."),
    StandardLevel(4, "lowerLetter", "%5.")
  ]

  /** `create_numbering_xml` of the template-based rebuilder. */
  function TemplateNumberingXml(): string {
    NumberingXml(TemplateLevels)
  }

  /**
   * The template-based table: five levels, the i-th at ilvl i with left indent
   * 720·(i+1) and hanging 360, formatted decimal, decimal, then lower letters.
   */
  lemma TemplateLevelsShape()
    ensures |TemplateLevels| == 5
    ensures forall i :: 0 <= i < 5 ==>
      TemplateLevels[i].ilvl == i && TemplateLevels[i].left == 720 * (i + 1) && TemplateLevels[i].hanging == 360
    ensures forall i :: 0 <= i < 5 ==> TemplateLevels[i].numFmt == (if i < 2 then "decimal" else "lowerLetter")
  {
  }
}
