/**
 * What the two list analyzers share: the OOXML numbering formats, the
 * first-match format table, the content cleaner and the block record built
 * from a JSON paragraph.
 */
module ListBlocks {
  import opened Wrappers
  import opened PyStr
  import opened Json
  import opened Patterns
  import opened Paragraphs

  /** The `ListFormat` enumeration; `Value` is the OOXML `numFmt` string. */
  datatype ListFormat = Decimal | UpperLetter | LowerLetter | UpperRoman | LowerRoman | Bullet | NoFormat
  {
    function Value(): string {
      match this
      case Decimal => "decimal"
      case UpperLetter => "upperLetter"
      case LowerLetter => "lowerLetter"
      case UpperRoman => "upperRoman"
      case LowerRoman => "lowerRoman"
      case Bullet => "bullet"
      case NoFormat => "none"
    }
  }

  /** The format table, in its iteration order. */
  const Formats: seq<(ListFormat, seq<Pattern>)> := [
    (Decimal, [NumDotP, NumDotNumP, NumDotNumDotNumP]),
    (UpperLetter, [UpperDotP, UpperDotNumP]),
    (LowerLetter, [LowerDotP, LowerDotNumP]),
    (UpperRoman, [UpperRomanDotP]),
    (LowerRoman, [LowerRomanDotP])
  ]

  /** `_detect_numbering_format`: None for "", else the first format with a matching pattern. */
  function DetectNumberingFormat(numbering: string): (r: Option<ListFormat>)
    ensures numbering == "" ==> r.None?
    ensures r.Some? ==> r.value in [Decimal, UpperLetter, LowerLetter, UpperRoman, LowerRoman]
  {
    if numbering == "" then None
    else
      var r := FirstMatch(Formats, numbering);
      assert r.Some? ==> exists j :: 0 <= j < |Formats| && Formats[j].0 == r.value;
      r
  }

  /**
   * The format read off the token's leading shape: a reference reading of the
   * table in which the longer patterns of each format are dropped, because each
   * of them only matches where the format's first pattern already does.
   */
  function FormatOfShape(s: string): Option<ListFormat> {
    if s == "" then None
    else if NumDot(s) then Some(Decimal)
    else if CharDot(s, IsUpper) then Some(UpperLetter)
    else if CharDot(s, IsLower) then Some(LowerLetter)
    else if AltDot(s, UpperRomans) then Some(UpperRoman)
    else if AltDot(s, LowerRomans) then Some(LowerRoman)
    else None
  }

  lemma DecimalRowMeaning(s: string)
    ensures AnyMatches(Formats[0].1, s) <==> NumDot(s)
  {
    if NumDot(s) { assert Matches(Formats[0].1[0], s); }
  }

  lemma LetterRowMeaning(s: string)
    ensures AnyMatches(Formats[1].1, s) <==> CharDot(s, IsUpper)
    ensures AnyMatches(Formats[2].1, s) <==> CharDot(s, IsLower)
  {
    if CharDot(s, IsUpper) { assert Matches(Formats[1].1[0], s); }
    if CharDot(s, IsLower) { assert Matches(Formats[2].1[0], s); }
  }

  lemma UpperRomanRowMeaning(s: string)
    ensures AnyMatches(Formats[3].1, s) <==> AltDot(s, UpperRomans)
  {
    assert Formats[3].1 == [UpperRomanDotP];
    AnyMatchesSingle(UpperRomanDotP, s);
  }

  lemma LowerRomanRowMeaning(s: string)
    ensures AnyMatches(Formats[4].1, s) <==> AltDot(s, LowerRomans)
  {
    assert Formats[4].1 == [LowerRomanDotP];
    AnyMatchesSingle(LowerRomanDotP, s);
  }

  /** The table lookup is the shape reading: first match wins in table order. */
  lemma DetectIsFormatOfShape(s: string)
    ensures DetectNumberingFormat(s) == FormatOfShape(s)
  {
    if s != "" {
      DecimalRowMeaning(s);
      LetterRowMeaning(s);
      UpperRomanRowMeaning(s);
      LowerRomanRowMeaning(s);
      var t1 := Formats[1..];
      var t2 := t1[1..];
      var t3 := t2[1..];
      var t4 := t3[1..];
      assert t1[0] == Formats[1] && t2[0] == Formats[2] && t3[0] == Formats[3] && t4[0] == Formats[4];
      assert t4[1..] == [];
      FirstMatchStep(Formats, s);
      FirstMatchStep(t1, s);
      FirstMatchStep(t2, s);
      FirstMatchStep(t3, s);
      FirstMatchStep(t4, s);
    }
  }

  /** Matching is by prefix: "1.01" is decimal. */
  lemma DetectDecimalExample()
    ensures DetectNumberingFormat("1.01") == Some(Decimal)
  {
    DetectIsFormatOfShape("1.01");
    assert Leading("1.01", IsDigit) == 1 by {
      assert Leading("1.01"[1..], IsDigit) == 0;
    }
  }

  /** The letter rows come before the roman rows: "I." is a letter... */
  lemma DetectUpperLetterExample()
    ensures DetectNumberingFormat("I.") == Some(UpperLetter)
  {
    UpperLetterShape();
    DetectIsFormatOfShape("I.");
  }

  lemma UpperLetterShape()
    ensures FormatOfShape("I.") == Some(UpperLetter)
  {
    assert Leading("I.", IsDigit) == 0;
    assert CharDot("I.", IsUpper);
  }

  /** ...while "II." is a roman numeral. */
  lemma DetectUpperRomanExample()
    ensures DetectNumberingFormat("II.") == Some(UpperRoman)
  {
    UpperRomanShape();
    DetectIsFormatOfShape("II.");
  }

  lemma UpperRomanShape()
    ensures FormatOfShape("II.") == Some(UpperRoman)
  {
    assert Leading("II.", IsDigit) == 0;
    assert !CharDot("II.", IsUpper);
    assert !CharDot("II.", IsLower);
    assert StartsWith("II.", UpperRomans[1] + ".");
    assert AltDot("II.", UpperRomans[1..]);
  }

  /** Likewise "i." is a letter... */
  lemma DetectLowerLetterExample()
    ensures DetectNumberingFormat("i.") == Some(LowerLetter)
  {
    LowerLetterShape();
    DetectIsFormatOfShape("i.");
  }

  lemma LowerLetterShape()
    ensures FormatOfShape("i.") == Some(LowerLetter)
  {
    assert Leading("i.", IsDigit) == 0;
    assert !CharDot("i.", IsUpper);
    assert CharDot("i.", IsLower);
  }

  /** ...and "ii." a roman numeral. */
  lemma DetectLowerRomanExample()
    ensures DetectNumberingFormat("ii.") == Some(LowerRoman)
  {
    LowerRomanShape();
    DetectIsFormatOfShape("ii.");
  }

  lemma LowerRomanShape()
    ensures FormatOfShape("ii.") == Some(LowerRoman)
  {
    assert Leading("ii.", IsDigit) == 0;
    assert !CharDot("ii.", IsUpper);
    assert !CharDot("ii.", IsLower);
    AltDotFirstChar("ii.", UpperRomans);
    assert StartsWith("ii.", LowerRomans[1] + ".");
    assert AltDot("ii.", LowerRomans[1..]);
  }

  /**
   * `re.sub('^' + re.escape(tok) + r'\s*\t?\s*', '', text)`: at the start of
   * the text only, the literal token and all the whitespace after it. (The
   * greedy `\s*` already takes any tab, so `\t?\s*` adds nothing.)
   */
  function RemoveLeadingToken(text: string, tok: string): string {
    if StartsWith(text, tok) then LStrip(text[|tok|..]) else text
  }

  /**
   * `_clean_content`: remove the list number if it is non-empty, else the
   * inferred number, from the start of the text, then strip.
   */
  function CleanContent(text: string, listNumber: Option<string>, inferredNumber: Option<string>): (r: string)
    ensures Strip(r) == r
  {
    var r :=
      if Truthy(listNumber) then Strip(RemoveLeadingToken(text, listNumber.value))
      else if Truthy(inferredNumber) then Strip(RemoveLeadingToken(text, inferredNumber.value))
      else Strip(text);
    StripIdempotent(if Truthy(listNumber) then RemoveLeadingToken(text, listNumber.value)
      else if Truthy(inferredNumber) then RemoveLeadingToken(text, inferredNumber.value) else text);
    r
  }

  /**
   * Cleaning undoes "token, whitespace, content": the token chosen (the list
   * number when non-empty, else the inferred number) and the gap after it are
   * removed, and stripped content comes back unchanged.
   */
  lemma CleanContentRemovesToken(tok: string, gap: string, content: string, listNumber: Option<string>, inferredNumber: Option<string>)
    requires Or(listNumber, inferredNumber) == Some(tok) && tok != ""
    requires AllSpace(gap) && Strip(content) == content
    ensures CleanContent(tok + gap + content, listNumber, inferredNumber) == content
  {
    var text := tok + gap + content;
    assert text[..|tok|] == tok;
    assert text[|tok|..] == gap + content;
    LStripSpacePrefix(gap, content);
    StripAfterLStrip(content);
  }

  /** Text that does not start with the chosen token is only stripped. */
  lemma CleanContentWithoutToken(text: string, listNumber: Option<string>, inferredNumber: Option<string>)
    requires var t := Or(listNumber, inferredNumber); !Truthy(t) || !StartsWith(text, t.value)
    ensures CleanContent(text, listNumber, inferredNumber) == Strip(text)
  {
  }

  /**
   * The block record (`EnhancedBlock`, `FlexibleBlock`) as far as the analyzers
   * compute it; `numberingPattern` is `list_number or inferred_number`.
   */
  datatype Block = Block(
    index: Option<int>,
    text: string,
    cleanedContent: string,
    level: Option<int>,
    numFmt: Option<ListFormat>,
    listId: Option<int>,
    numberingPattern: Option<string>,
    inferredNumber: Option<string>,
    isListItem: bool)

  /** The block built for one JSON paragraph, with the given initial level. */
  function MakeBlock(p: JsonParagraph, level: Option<int>): (b: Block)
    ensures b.isListItem <==> Truthy(GetOr(p.listNumber, "")) || Truthy(Get(p.inferredNumber))
    ensures b.isListItem <==> Truthy(b.numberingPattern)
    ensures b.text == p.text && b.level == level && b.listId.None?
  {
    var listNumber := GetOr(p.listNumber, "");
    var inferred := Get(p.inferredNumber);
    Block(
      index := GetOr(p.index, 0),
      text := p.text,
      cleanedContent := CleanContent(p.text, listNumber, inferred),
      level := level,
      numFmt := DetectNumberingFormat(OrEmpty(Or(listNumber, inferred))),
      listId := None,
      numberingPattern := Or(listNumber, inferred),
      inferredNumber := inferred,
      isListItem := Truthy(listNumber) || Truthy(inferred))
  }

  /** The `is_list_item` flags of a block list. */
  function ListFlags(bs: seq<Block>): (r: seq<bool>)
    ensures |r| == |bs| && forall i :: 0 <= i < |bs| ==> r[i] == bs[i].isListItem
  {
    seq(|bs|, i requires 0 <= i < |bs| => bs[i].isListItem)
  }
}
