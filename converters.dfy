/**
 * The flexible-to-working and flexible-to-simple converters (the two scripts
 * run the same code): every block of a flexible analysis becomes one
 * paragraph record of the format the rebuilders read, and a summary counts
 * the list items and collects the levels.
 */
module FlexibleConverters {
  import opened Wrappers
  import opened Json
  import opened Seqs

  /** One object of `flexible_blocks`, as far as the converter reads it. */
  datatype FlexibleBlock = FlexibleBlock(
    index: Field<int>,
    numberingPattern: Field<string>,
    inferredNumber: Field<string>,
    cleanedContent: Field<string>,
    text: Field<string>,
    level: Field<int>)

  /** One record of the output's `all_paragraphs`; `null` values are None. */
  datatype WorkingParagraph = WorkingParagraph(
    index: Option<int>,
    listNumber: string,
    inferredNumber: Option<string>,
    text: Option<string>,
    combined: Option<string>,
    level: Option<int>,
    deductionMethod: Option<string>)

  /** `block.get('numbering_pattern', '') or ''`: the pattern when it is a non-empty string, else ''. */
  function ListNumberOf(b: FlexibleBlock): (r: string)
    ensures b.numberingPattern.Present? && b.numberingPattern.value != "" ==> r == b.numberingPattern.value
    ensures !(b.numberingPattern.Present? && b.numberingPattern.value != "") ==> r == ""
  {
    OrEmpty(GetOr(b.numberingPattern, ""))
  }

  /**
   * `block.get('cleaned_content', block.get('text', ''))`: the cleaned content
   * whenever the key is there, even when it is `null`; the text otherwise.
   */
  function TextOf(b: FlexibleBlock): (r: Option<string>)
    ensures !b.cleanedContent.Absent? ==> r == Get(b.cleanedContent)
    ensures b.cleanedContent.Absent? ==> r == GetOr(b.text, "")
  {
    match b.cleanedContent
    case Absent => GetOr(b.text, "")
    case _ => Get(b.cleanedContent)
  }

  /** The record a block becomes, once its `index` key is known to be there. */
  function WorkingParagraphOf(b: FlexibleBlock): WorkingParagraph {
    WorkingParagraph(
      index := Get(b.index),
      listNumber := ListNumberOf(b),
      inferredNumber := Get(b.inferredNumber),
      text := TextOf(b),
      combined := GetOr(b.text, ""),
      level := Get(b.level),
      deductionMethod := None)
  }

  /** `block['index']` raises `KeyError` for a block without that key. */
  predicate LacksIndex(b: FlexibleBlock) {
    b.index.Absent?
  }

  /**
   * The block loop: one record per block, in order, or the `KeyError` of the
   * first block without an index.
   */
  method ConvertBlocks(flexibleBlocks: seq<FlexibleBlock>) returns (r: Result<seq<WorkingParagraph>, string>)
    ensures r.Failure? <==> Any(flexibleBlocks, LacksIndex)
    ensures r.Success? ==> r.value == Map(WorkingParagraphOf, flexibleBlocks)
  {
    var workingParagraphs := [];
    for i := 0 to |flexibleBlocks|
      invariant workingParagraphs == Map(WorkingParagraphOf, flexibleBlocks[..i])
      invariant !Any(flexibleBlocks[..i], LacksIndex)
    {
      assert flexibleBlocks[..i + 1] == flexibleBlocks[..i] + [flexibleBlocks[i]];
      AnySnoc(flexibleBlocks[..i + 1], LacksIndex);
      var block := flexibleBlocks[i];
      if block.index.Absent? {
        AnyPrefix(flexibleBlocks, i + 1, LacksIndex);
        return Failure("KeyError: 'index'");
      }
      var workingPara := WorkingParagraph(
        index := Get(block.index),
        listNumber := OrEmpty(GetOr(block.numberingPattern, "")),
        inferredNumber := Get(block.inferredNumber),
        text := TextOf(block),
        combined := GetOr(block.text, ""),
        level := Get(block.level),
        deductionMethod := None);
      MapSnoc(WorkingParagraphOf, flexibleBlocks[..i], block);
      workingParagraphs := workingParagraphs + [workingPara];
    }
    assert flexibleBlocks[..|flexibleBlocks|] == flexibleBlocks;
    r := Success(workingParagraphs);
  }

  /** A prefix with a matching element makes the whole sequence have one. */
  lemma AnyPrefix<T>(s: seq<T>, j: nat, p: T -> bool)
    requires j <= |s| && Any(s[..j], p)
    ensures Any(s, p)
  {
    var i :| 0 <= i < j && p(s[..j][i]);
    assert s[i] == s[..j][i];
  }

  /** A record counts as a list item when its `list_number` is not empty. */
  predicate IsListItem(p: WorkingParagraph) {
    p.listNumber != ""
  }

  /** A block whose numbering pattern is a non-empty string. */
  predicate HasPattern(b: FlexibleBlock) {
    b.numberingPattern.Present? && b.numberingPattern.value != ""
  }

  /** `set(p['level'] for p in paragraphs if p['level'] is not None)` */
  function LevelsFound(paragraphs: seq<WorkingParagraph>): set<int> {
    set p | p in paragraphs && p.level.Some? :: p.level.value
  }

  /**
   * The summary: the list items are exactly the blocks with a numbering
   * pattern, and the levels found are exactly the levels some block has.
   */
  lemma {:induction false} SummaryMeaning(flexibleBlocks: seq<FlexibleBlock>)
    ensures Count(Map(WorkingParagraphOf, flexibleBlocks), IsListItem) == Count(flexibleBlocks, HasPattern)
    ensures forall x :: x in LevelsFound(Map(WorkingParagraphOf, flexibleBlocks)) <==>
      exists i :: 0 <= i < |flexibleBlocks| && flexibleBlocks[i].level == Present(x)
    decreases |flexibleBlocks|
  {
    var out := Map(WorkingParagraphOf, flexibleBlocks);
    if flexibleBlocks != [] {
      var init := flexibleBlocks[..|flexibleBlocks| - 1];
      SummaryMeaning(init);
      assert out[..|out| - 1] == Map(WorkingParagraphOf, init);
    }
    forall x
      ensures x in LevelsFound(out) <==> exists i :: 0 <= i < |flexibleBlocks| && flexibleBlocks[i].level == Present(x)
    {
      if x in LevelsFound(out) {
        var p :| p in out && p.level == Some(x);
        var i :| 0 <= i < |out| && out[i] == p;
        assert flexibleBlocks[i].level == Present(x);
      }
      if exists i :: 0 <= i < |flexibleBlocks| && flexibleBlocks[i].level == Present(x) {
        var i :| 0 <= i < |flexibleBlocks| && flexibleBlocks[i].level == Present(x);
        assert out[i] in out;
      }
    }
  }

  /** Every record copies its block's index, level and inferred number, and never carries a deduction method. */
  lemma RecordMeaning(flexibleBlocks: seq<FlexibleBlock>, i: nat)
    requires i < |flexibleBlocks| && !LacksIndex(flexibleBlocks[i])
    ensures var p := Map(WorkingParagraphOf, flexibleBlocks)[i]; var b := flexibleBlocks[i];
      b.index == (match p.index case Some(v) => Present(v) case None => Null)
      && p.level == Get(b.level) && p.inferredNumber == Get(b.inferredNumber)
      && p.deductionMethod.None?
      && (IsListItem(p) <==> HasPattern(b))
      && p.listNumber == (if HasPattern(b) then b.numberingPattern.value else "")
      && (b.cleanedContent.Absent? ==> p.text == GetOr(b.text, ""))
      && (!b.cleanedContent.Absent? ==> p.text == Get(b.cleanedContent))
      && p.combined == GetOr(b.text, "")
  {
  }
}
