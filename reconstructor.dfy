/**
 * The numbering analysis and the element builders that the complete and the
 * Word-compatible reconstructors share line for line: the numbering style of a
 * token, the per-level configuration table, the `numbering.xml` tree and the
 * `document.xml` tree. The two scripts differ only in which namespace
 * declarations the document root carries, so that list is a parameter here.
 */
module XmlReconstructor {
  import opened Wrappers
  import opened Json
  import opened PyStr
  import opened PyInt
  import opened Patterns
  import opened Paragraphs
  import opened Xml
  import opened Seqs

  const WordMainNs := "http://schemas.openxmlformats.org/wordprocessingml/2006/main"
  const W14Ns := "http://schemas.microsoft.com/office/word/2010/wordml"
  const W15Ns := "http://schemas.microsoft.com/office/word/2012/wordml"
  const McNs := "http://schemas.openxmlformats.org/markup-compatibility/2006"
  const RelNs := "http://schemas.openxmlformats.org/officeDocument/2006/relationships"

  /** The ten prefixes of the complete reconstructor's `namespaces` dict, in insertion order. */
  const CompleteNamespaces: seq<(string, string)> := [
    ("w", WordMainNs), ("w14", W14Ns), ("w15", W15Ns), ("mc", McNs), ("r", RelNs),
    ("cp", "http://schemas.openxmlformats.org/package/2006/metadata/core-properties"),
    ("dc", "http://purl.org/dc/elements/1.1/"),
    ("dcterms", "http://purl.org/dc/terms/"),
    ("dcmitype", "http://purl.org/dc/dcmitype/"),
    ("xsi", "http://www.w3.org/2001/XMLSchema-instance")
  ]

  // ---------------------------------------------------------------------
  // determine_numbering_style
  // ---------------------------------------------------------------------

  /** The OOXML `numFmt` value for a numbering token; whole-token matches only. */
  function DetermineNumberingStyle(numbering: string): (r: string)
    ensures numbering == "" ==> r == "decimal"
    ensures r in {"decimal", "upperLetter", "lowerLetter", "upperRoman"}
  {
    if numbering == "" then "decimal"
    else if Matches(NumDotNumEndP, numbering) then "decimal"
    else if Matches(NumDotEndP, numbering) then "decimal"
    else if Matches(UpperDotEndP, numbering) then "upperLetter"
    else if Matches(LowerDotEndP, numbering) then "lowerLetter"
    else if Matches(UpperIvxDotEndP, numbering) then "upperRoman"
    else "decimal"
  }

  /**
   * What each style means for the token: a letter style iff the token is one
   * letter and a dot (and nothing more, up to Python's final-newline `$`);
   * upper Roman iff it is a run of I, V and X and a dot but not a single
   * letter, so "I." and "V." come out as letters; decimal otherwise.
   */
  lemma StyleMeaning(s: string)
    ensures DetermineNumberingStyle(s) == "upperLetter" <==> CharDot(s, IsUpper) && AtEnd(s, 2)
    ensures DetermineNumberingStyle(s) == "lowerLetter" <==> CharDot(s, IsLower) && AtEnd(s, 2)
    ensures DetermineNumberingStyle(s) == "upperRoman" <==>
      RunDot(s, IsUpperIvx) && AtEnd(s, Leading(s, IsUpperIvx) + 1) && !(CharDot(s, IsUpper) && AtEnd(s, 2))
  {
    if |s| > 0 && !IsDigit(s[0]) {
      NotDecimalShape(s);
    }
  }

  /** A token that does not start with a digit matches neither decimal pattern. */
  lemma NotDecimalShape(s: string)
    requires |s| > 0 && !IsDigit(s[0])
    ensures !Matches(NumDotNumEndP, s) && !Matches(NumDotEndP, s)
  {
    assert Leading(s, IsDigit) == 0;
  }

  /** Single letters and a dot are letter styles, "I." included; a final newline is tolerated. */
  lemma LetterStyleExamples()
    ensures DetermineNumberingStyle("A.") == "upperLetter"
    ensures DetermineNumberingStyle("I.") == "upperLetter"
    ensures DetermineNumberingStyle("b.") == "lowerLetter"
    ensures DetermineNumberingStyle("A.\n") == "upperLetter"
  {
    StyleMeaning("A.");
    StyleMeaning("I.");
    StyleMeaning("b.");
    StyleMeaning("A.\n");
  }

  /** A longer run of I, V and X is upper Roman. */
  lemma RomanStyleExample()
    ensures DetermineNumberingStyle("IV.") == "upperRoman"
  {
    var iv := "IV.";
    assert Leading(iv, IsUpperIvx) == 2 by {
      assert iv[1..] == "V." && iv[2..] == ".";
    }
    StyleMeaning(iv);
  }

  /** Lower-case Roman numerals and parenthesised letters fall through to decimal. */
  lemma FallThroughExamples()
    ensures DetermineNumberingStyle("ii.") == "decimal"
    ensures DetermineNumberingStyle("(a)") == "decimal"
  {
    StyleMeaning("ii.");
    StyleMeaning("(a)");
    assert Leading("ii.", IsUpperIvx) == 0;
    assert Leading("(a)", IsUpperIvx) == 0;
  }

  /** Decimal tokens, with and without a second number. */
  lemma DecimalStyleExamples()
    ensures DetermineNumberingStyle("1.01") == "decimal"
    ensures DetermineNumberingStyle("12.") == "decimal"
  {
    var t := "1.01";
    assert Leading(t, IsDigit) == 1 by { assert t[1..] == ".01"; }
    assert AfterNumDot(t) == "01" by { assert t[2..] == "01"; }
    assert Leading("01", IsDigit) == 2 by { assert "01"[1..] == "1"; assert "1"[1..] == ""; }
    assert Matches(NumDotNumEndP, t);
    var n := "12.";
    assert Leading(n, IsDigit) == 2 by { assert n[1..] == "2." && n[2..] == "."; }
    assert Matches(NumDotEndP, n);
  }

  // ---------------------------------------------------------------------
  // analyze_numbering_patterns
  // ---------------------------------------------------------------------

  /** One level's configuration dict; a field is None when the key is absent. */
  datatype LevelConfig = LevelConfig(style: Option<string>, format: Option<string>, alignment: Option<string>)

  /** The token a paragraph contributes to the level table: it needs a level and a non-empty token. */
  function LevelToken(p: ParagraphData): (r: Option<string>)
    ensures r.Some? <==> p.level.Some? && HasNumbering(p)
    ensures r.Some? ==> r.value != "" && r == Or(p.listNumber, p.inferredNumber)
  {
    if p.level.Some? && Truthy(Or(p.listNumber, p.inferredNumber)) then Or(p.listNumber, p.inferredNumber) else None
  }

  /** The configuration recorded for a token. */
  function ConfigFor(token: string): LevelConfig {
    LevelConfig(Some(DetermineNumberingStyle(token)), Some(token), Some("left"))
  }

  /** The `level_patterns` dict after the paragraphs have been scanned in order. */
  function LevelPatterns(ps: seq<ParagraphData>): map<int, LevelConfig>
    decreases |ps|
  {
    if ps == [] then map[]
    else
      var m := LevelPatterns(ps[..|ps| - 1]);
      var p := ps[|ps| - 1];
      if LevelToken(p).Some? then m[p.level.value := ConfigFor(LevelToken(p).value)] else m
  }

  /** Paragraph j contributes a token for level l. */
  predicate Contributes(ps: seq<ParagraphData>, j: int, l: int) {
    0 <= j < |ps| && LevelToken(ps[j]).Some? && ps[j].level == Some(l)
  }

  /** The table has an entry for exactly the levels some paragraph contributes a token to. */
  lemma {:induction false} LevelPatternsKeys(ps: seq<ParagraphData>, l: int)
    ensures l in LevelPatterns(ps) <==> exists j :: Contributes(ps, j, l)
    decreases |ps|
  {
    if ps != [] {
      var init := ps[..|ps| - 1];
      LevelPatternsKeys(init, l);
      forall j | 0 <= j < |init| ensures Contributes(init, j, l) == Contributes(ps, j, l) {
        assert init[j] == ps[j];
      }
      if !Contributes(ps, |ps| - 1, l) {
        assert (l in LevelPatterns(ps)) == (l in LevelPatterns(init));
        if exists j :: Contributes(ps, j, l) {
          var j :| Contributes(ps, j, l);
          assert Contributes(init, j, l);
        }
      }
    }
  }

  /**
   * The entry for a level is the configuration of the token of the last
   * paragraph that contributes to it.
   */
  lemma {:induction false} LevelPatternsLastWins(ps: seq<ParagraphData>, l: int, j: int)
    requires Contributes(ps, j, l)
    requires forall j' :: j < j' < |ps| ==> !Contributes(ps, j', l)
    ensures l in LevelPatterns(ps) && LevelPatterns(ps)[l] == ConfigFor(LevelToken(ps[j]).value)
    decreases |ps|
  {
    var init := ps[..|ps| - 1];
    if j < |ps| - 1 {
      assert init[j] == ps[j];
      forall j' | j < j' < |init| ensures !Contributes(init, j', l) {
        assert init[j'] == ps[j'];
        assert !Contributes(ps, j', l);
      }
      LevelPatternsLastWins(init, l, j);
      assert !Contributes(ps, |ps| - 1, l);
    }
  }

  /** Every entry of the table is the configuration of a non-empty token. */
  lemma {:induction false} LevelPatternsConfigs(ps: seq<ParagraphData>)
    ensures forall l :: l in LevelPatterns(ps) ==>
      var c := LevelPatterns(ps)[l];
      c.format.Some? && c.format.value != "" && c == ConfigFor(c.format.value)
    decreases |ps|
  {
    if ps != [] {
      LevelPatternsConfigs(ps[..|ps| - 1]);
    }
  }

  /**
   * `analyze_numbering_patterns`: one configuration per level that some
   * paragraph gives a token, in ascending level order, each the last such
   * paragraph's; every entry records the raw token as its format and the
   * token's style.
   */
  method AnalyzeNumberingPatterns(paragraphs: seq<ParagraphData>) returns (levelsConfig: seq<LevelConfig>)
    ensures var table := LevelPatterns(paragraphs); var levels := SortedInts(table.Keys);
      |levelsConfig| == |table.Keys|
      && forall k :: 0 <= k < |levelsConfig| ==> levels[k] in table && levelsConfig[k] == table[levels[k]]
    ensures forall k :: 0 <= k < |levelsConfig| ==>
      levelsConfig[k].format.Some? && levelsConfig[k] == ConfigFor(levelsConfig[k].format.value)
  {
    var levelPatterns: map<int, LevelConfig> := map[];
    for i := 0 to |paragraphs|
      invariant levelPatterns == LevelPatterns(paragraphs[..i])
    {
      var para := paragraphs[i];
      assert paragraphs[..i + 1][..i] == paragraphs[..i];
      if para.level.Some? {
        var numbering := Or(para.listNumber, para.inferredNumber);
        if Truthy(numbering) {
          var style := DetermineNumberingStyle(numbering.value);
          levelPatterns := levelPatterns[para.level.value := LevelConfig(Some(style), Some(numbering.value), Some("left"))];
        }
      }
    }
    assert paragraphs[..|paragraphs|] == paragraphs;
    levelsConfig := InLevelOrder(levelPatterns);
    LevelPatternsConfigs(paragraphs);
  }

  /** The `for level in sorted(level_patterns.keys())` loop: the table's values by ascending level. */
  method InLevelOrder(levelPatterns: map<int, LevelConfig>) returns (levelsConfig: seq<LevelConfig>)
    ensures var levels := SortedInts(levelPatterns.Keys);
      |levelsConfig| == |levelPatterns.Keys|
      && forall k :: 0 <= k < |levelsConfig| ==> levels[k] in levelPatterns && levelsConfig[k] == levelPatterns[levels[k]]
  {
    var levels := SortedInts(levelPatterns.Keys);
    levelsConfig := [];
    for k := 0 to |levels|
      invariant |levelsConfig| == k
      invariant forall j :: 0 <= j < k ==> levelsConfig[j] == levelPatterns[levels[j]]
    {
      levelsConfig := levelsConfig + [levelPatterns[levels[k]]];
    }
  }

  // ---------------------------------------------------------------------
  // create_numbering_xml
  // ---------------------------------------------------------------------

  /** The indentation (`w:left`, `w:hanging`) of a level element. */
  function Indent(e: Element): Option<(Option<string>, Option<string>)> {
    match FindChild(e, "w:pPr")
    case Some(pPr) =>
      (match FindChild(pPr, "w:ind")
       case Some(ind) => Some((Attr(ind, "w:left"), Attr(ind, "w:hanging")))
       case None => None)
    case None => None
  }

  /**
   * The `w:lvl` element for the configuration at position idx: its ilvl is the
   * position (not the source level), its indent 720 twips per position with a
   * 360 hanging indent, it starts at 1, and the style and format fall back to
   * "decimal" and "%<idx+1>." when the configuration lacks them.
   */
  function LevelElement(idx: nat, config: LevelConfig): (e: Element)
    ensures e.tag == "w:lvl" && Attr(e, "w:ilvl") == Some(NatToString(idx))
    ensures ChildVal(e, "w:numFmt") == Some(config.style.GetOr("decimal"))
    ensures ChildVal(e, "w:lvlText") == Some(config.format.GetOr("%" + NatToString(idx + 1) + "."))
    ensures ChildVal(e, "w:lvlJc") == Some("left") && ChildVal(e, "w:start") == Some("1")
    ensures Indent(e) == Some((Some(NatToString(idx * 720)), Some("360")))
  {
    var ind := Leaf("w:ind", [("w:left", NatToString(idx * 720)), ("w:hanging", "360")]);
    var pPr := Element("w:pPr", [], [ind], None);
    var children := [
      Leaf("w:numFmt", [("w:val", config.style.GetOr("decimal"))]),
      Leaf("w:lvlText", [("w:val", config.format.GetOr("%" + NatToString(idx + 1) + "."))]),
      Leaf("w:lvlJc", [("w:val", "left")]),
      pPr,
      Leaf("w:start", [("w:val", "1")])];
    FirstWithTagAt(children, 0, "w:numFmt");
    FirstWithTagAt(children, 1, "w:lvlText");
    FirstWithTagAt(children, 2, "w:lvlJc");
    FirstWithTagAt(children, 3, "w:pPr");
    FirstWithTagAt(children, 4, "w:start");
    FirstWithTagAt([ind], 0, "w:ind");
    assert ind.attrs[..1] == [("w:left", NatToString(idx * 720))];
    assert LookupLast(ind.attrs[..1], "w:left") == Some(NatToString(idx * 720));
    Element("w:lvl", [("w:ilvl", NatToString(idx))], children, None)
  }

  /** One more level element keeps the elements built so far. */
  lemma LevelsSnoc(levels: seq<Element>, lvl: Element, levelsConfig: seq<LevelConfig>, n: nat)
    requires n < |levelsConfig| && |levels| == n && lvl == LevelElement(n, levelsConfig[n])
    requires forall i :: 0 <= i < n ==> levels[i] == LevelElement(i, levelsConfig[i])
    ensures forall i :: 0 <= i < n + 1 ==> (levels + [lvl])[i] == LevelElement(i, levelsConfig[i])
  {
  }

  /**
   * The body of the level loop of `_create_numbering_xml`: the `w:lvl` element
   * of one configuration, specified by `LevelElement`.
   */
  method CreateLevel(levelIdx: nat, config: LevelConfig) returns (lvl: Element)
    ensures lvl == LevelElement(levelIdx, config)
  {
    var numFmt := Leaf("w:numFmt", [("w:val", config.style.GetOr("decimal"))]);
    var lvlText := Leaf("w:lvlText", [("w:val", config.format.GetOr("%" + NatToString(levelIdx + 1) + "."))]);
    var lvlJc := Leaf("w:lvlJc", [("w:val", "left")]);
    var ind := Leaf("w:ind", [("w:left", NatToString(levelIdx * 720)), ("w:hanging", "360")]);
    var pPr := Element("w:pPr", [], [ind], None);
    var start := Leaf("w:start", [("w:val", "1")]);
    lvl := Element("w:lvl", [("w:ilvl", NatToString(levelIdx))], [numFmt, lvlText, lvlJc, pPr, start], None);
  }

  /**
   * `create_numbering_xml`: one abstract numbering (id 0) holding a level per
   * configuration in order, then exactly one concrete numbering, numId 1,
   * pointing at abstract numbering 0.
   */
  method CreateNumberingXml(levelsConfig: seq<LevelConfig>) returns (numbering: Element)
    ensures numbering.tag == "w:numbering" && Attr(numbering, "xmlns:w") == Some(WordMainNs)
    ensures |numbering.children| == 2
    ensures var abs := numbering.children[0];
      abs.tag == "w:abstractNum" && Attr(abs, "w:abstractNumId") == Some("0")
      && |abs.children| == |levelsConfig|
      && forall i :: 0 <= i < |levelsConfig| ==> abs.children[i] == LevelElement(i, levelsConfig[i])
    ensures var num := numbering.children[1];
      num.tag == "w:num" && Attr(num, "w:numId") == Some("1") && ChildVal(num, "w:abstractNumId") == Some("0")
  {
    var levels: seq<Element> := [];
    for levelIdx := 0 to |levelsConfig|
      invariant |levels| == levelIdx
      invariant forall i :: 0 <= i < levelIdx ==> levels[i] == LevelElement(i, levelsConfig[i])
    {
      var lvl := CreateLevel(levelIdx, levelsConfig[levelIdx]);
      LevelsSnoc(levels, lvl, levelsConfig, levelIdx);
      levels := levels + [lvl];
    }
    var abstractNum := Element("w:abstractNum", [("w:abstractNumId", "0")], levels, None);
    var num := Element("w:num", [("w:numId", "1")], [Leaf("w:abstractNumId", [("w:val", "0")])], None);
    numbering := Element("w:numbering", [("xmlns:w", WordMainNs)], [abstractNum, num], None);
  }

  // ---------------------------------------------------------------------
  // create_document_xml
  // ---------------------------------------------------------------------

  /** The `w:numPr` element of a `w:p`, if it has one. */
  function NumPr(e: Element): Option<Element> {
    match FindChild(e, "w:pPr")
    case Some(pPr) => FindChild(pPr, "w:numPr")
    case None => None
  }

  /** The text of the `w:t` inside the `w:r` of a `w:p`. */
  function RunText(e: Element): Option<string> {
    match FindChild(e, "w:r")
    case Some(r) =>
      (match FindChild(r, "w:t")
       case Some(t) => t.text
       case None => None)
    case None => None
  }

  /**
   * The `w:p` element of one paragraph: numbering properties (numId 1, ilvl
   * the paragraph's level or 0) exactly when the paragraph has a token, and a
   * run with the cleaned content or the raw text.
   */
  function ParagraphElement(p: ParagraphData): Element {
    var numPr := Element("w:numPr", [], [
      Leaf("w:numId", [("w:val", "1")]),
      Leaf("w:ilvl", [("w:val", IntToString(p.level.GetOr(0)))])], None);
    var pPr := Element("w:pPr", [], if HasNumbering(p) then [numPr] else [], None);
    var t := Element("w:t", [("xml:space", "preserve")], [], Some(ContentOf(p)));
    var r := Element("w:r", [], [Leaf("w:rPr", []), t], None);
    Element("w:p", [], [pPr, r], None)
  }

  /** What a paragraph element says, read back through the element accessors. */
  lemma ParagraphElementMeaning(p: ParagraphData)
    ensures var e := ParagraphElement(p);
      e.tag == "w:p" && FindChild(e, "w:pPr").Some?
      && (NumPr(e).Some? <==> HasNumbering(p))
      && (HasNumbering(p) ==>
            ChildVal(NumPr(e).value, "w:numId") == Some("1")
            && ChildVal(NumPr(e).value, "w:ilvl") == Some(IntToString(p.level.GetOr(0))))
      && (Truthy(p.cleanedContent) ==> RunText(e) == Some(p.cleanedContent.value))
      && (!Truthy(p.cleanedContent) ==> RunText(e) == Some(p.text))
  {
    var e := ParagraphElement(p);
    var pPr := e.children[0];
    var r := e.children[1];
    FirstWithTagAt(e.children, 0, "w:pPr");
    FirstWithTagAt(e.children, 1, "w:r");
    FirstWithTagAt(r.children, 1, "w:t");
    if HasNumbering(p) {
      var numPr := pPr.children[0];
      FirstWithTagAt(pPr.children, 0, "w:numPr");
      FirstWithTagAt(numPr.children, 0, "w:numId");
      FirstWithTagAt(numPr.children, 1, "w:ilvl");
    }
  }

  /** The filtered body read back at the kept positions. */
  lemma BodyFollowsInput(paragraphs: seq<ParagraphData>, body: seq<Element>)
    requires body == Map(ParagraphElement, Filter(paragraphs, NonBlank))
    ensures var kept := KeptIndices(paragraphs, NonBlank);
      |body| == Count(paragraphs, NonBlank) == |kept|
      && forall k :: 0 <= k < |body| ==> kept[k] < |paragraphs| && body[k] == ParagraphElement(paragraphs[kept[k]])
  {
    MapFilterAt(ParagraphElement, paragraphs, NonBlank);
  }

  /** The `xmlns:<prefix>` attributes for a list of (prefix, uri) declarations. */
  function NamespaceAttrs(namespaces: seq<(string, string)>): (r: seq<(string, string)>)
    ensures |r| == |namespaces|
    ensures forall i :: 0 <= i < |r| ==> r[i] == ("xmlns:" + namespaces[i].0, namespaces[i].1)
  {
    seq(|namespaces|, i requires 0 <= i < |namespaces| => ("xmlns:" + namespaces[i].0, namespaces[i].1))
  }

  /** The `mc:Ignorable` child of the document root. */
  const IgnorableElement: Element := Leaf("mc:Ignorable", [("w14:val", W14Ns), ("w15:val", W15Ns)])

  /**
   * `create_document_xml`: the root declares the given namespaces, then holds
   * the `mc:Ignorable` element and the body; the body has one `w:p` per
   * non-blank paragraph, and the k-th of them is built from the k-th
   * non-blank paragraph (`Seqs.FilterPicks` says those positions are
   * increasing and cover every non-blank paragraph).
   */
  method CreateDocumentXml(namespaces: seq<(string, string)>, paragraphs: seq<ParagraphData>) returns (document: Element)
    ensures document.tag == "w:document" && document.attrs == NamespaceAttrs(namespaces)
    ensures |document.children| == 2 && document.children[0] == IgnorableElement
    ensures var body := document.children[1]; var kept := KeptIndices(paragraphs, NonBlank);
      body.tag == "w:body"
      && |body.children| == Count(paragraphs, NonBlank) == |kept|
      && forall k :: 0 <= k < |body.children| ==>
           kept[k] < |paragraphs| && body.children[k] == ParagraphElement(paragraphs[kept[k]])
  {
    var attrs: seq<(string, string)> := [];
    for i := 0 to |namespaces|
      invariant attrs == NamespaceAttrs(namespaces[..i])
    {
      attrs := attrs + [("xmlns:" + namespaces[i].0, namespaces[i].1)];
    }
    assert namespaces[..|namespaces|] == namespaces;
    var mc := Leaf("mc:Ignorable", [("w14:val", W14Ns), ("w15:val", W15Ns)]);
    var body: seq<Element> := [];
    ghost var kept: seq<ParagraphData> := [];
    for i := 0 to |paragraphs|
      invariant kept == Filter(paragraphs[..i], NonBlank)
      invariant body == Map(ParagraphElement, kept)
    {
      var para := paragraphs[i];
      FilterPrefixStep(paragraphs, i, NonBlank);
      if Strip(para.text) == "" {
        continue;
      }
      var hasNumbering := Truthy(Or(para.listNumber, para.inferredNumber));
      var numPr := Element("w:numPr", [], [
        Leaf("w:numId", [("w:val", "1")]),
        Leaf("w:ilvl", [("w:val", IntToString(if para.level.Some? then para.level.value else 0))])], None);
      var pPr := Element("w:pPr", [], if hasNumbering then [numPr] else [], None);
      var text := if Truthy(para.cleanedContent) then para.cleanedContent.value else para.text;
      var t := Element("w:t", [("xml:space", "preserve")], [], Some(text));
      var r := Element("w:r", [], [Leaf("w:rPr", []), t], None);
      var p := Element("w:p", [], [pPr, r], None);
      assert p == ParagraphElement(para);
      MapSnoc(ParagraphElement, kept, para);
      body := body + [p];
      kept := kept + [para];
    }
    assert paragraphs[..|paragraphs|] == paragraphs;
    BodyFollowsInput(paragraphs, body);
    document := Element("w:document", attrs, [mc, Element("w:body", [], body, None)], None);
  }

  /**
   * `create_document_xml` of the complete reconstructor: the shared document
   * tree, its root declaring every prefix of `namespaces` in order, so the
   * first five declarations are those of the Word-compatible root.
   */
  method CreateCompleteDocumentXml(paragraphs: seq<ParagraphData>) returns (document: Element)
    ensures document.tag == "w:document" && |document.attrs| == 10
    ensures forall i :: 0 <= i < 10 ==> document.attrs[i].0 == "xmlns:" + CompleteNamespaces[i].0 && document.attrs[i].1 == CompleteNamespaces[i].1
    ensures document.attrs[0] == ("xmlns:w", WordMainNs)
    ensures |document.children| == 2 && document.children[0] == IgnorableElement
    ensures var body := document.children[1]; var kept := KeptIndices(paragraphs, NonBlank);
      body.tag == "w:body"
      && |body.children| == Count(paragraphs, NonBlank) == |kept|
      && forall k :: 0 <= k < |body.children| ==>
           kept[k] < |paragraphs| && body.children[k] == ParagraphElement(paragraphs[kept[k]])
  {
    document := CreateDocumentXml(CompleteNamespaces, paragraphs);
    assert "xmlns:" + "w" == "xmlns:w";
  }
}
