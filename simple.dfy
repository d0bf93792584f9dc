/**
 * The simple content extractor: the non-blank paragraphs of a converted Word
 * document become content blocks, numbered by position, carrying whatever
 * numbering level and id the paragraph had, and typed by position only (the
 * first two blocks are the section number and title, the last closes the
 * section).
 */
module SimpleContentExtractor {
  import opened Wrappers
  import opened Json
  import opened PyStr
  import opened Seqs

  /** The `numbering` object of a paragraph, as far as it is read. */
  datatype NumberingInfo = NumberingInfo(level: Field<int>, id: Field<int>)

  /** One paragraph object of the converter's JSON: `text` reads as "" when absent. */
  datatype SourceParagraph = SourceParagraph(text: string, numbering: Field<NumberingInfo>)

  datatype BlockType = SectionNumber | SectionTitle | Content | EndOfSection

  /** The `ContentBlock` dataclass. */
  datatype ContentBlock = ContentBlock(
    text: string,
    levelNumber: Option<int>,
    numberingId: Option<int>,
    blockType: BlockType,
    index: int)

  predicate HasText(p: SourceParagraph) {
    Strip(p.text) != ""
  }

  /**
   * `numbering_info.get('level') if numbering_info else None`, where a missing
   * or `null` numbering object reads as the empty dict or None: either way
   * there is no level.
   */
  function LevelNumberOf(p: SourceParagraph): (r: Option<int>)
    ensures r.Some? <==> p.numbering.Present? && p.numbering.value.level.Present?
  {
    match p.numbering
    case Present(info) => Get(info.level)
    case _ => None
  }

  /** The id, read the same way as the level. */
  function NumberingIdOf(p: SourceParagraph): (r: Option<int>)
    ensures r.Some? <==> p.numbering.Present? && p.numbering.value.id.Present?
  {
    match p.numbering
    case Present(info) => Get(info.id)
    case _ => None
  }

  /** The block a kept paragraph becomes when `index` blocks were kept before it. */
  function NewBlock(p: SourceParagraph, index: int): ContentBlock {
    ContentBlock(Strip(p.text), LevelNumberOf(p), NumberingIdOf(p), Content, index)
  }

  /** The blocks of the kept paragraphs, indexed by position. */
  function NewBlocks(kept: seq<SourceParagraph>): (r: seq<ContentBlock>)
    ensures |r| == |kept|
  {
    seq(|kept|, i requires 0 <= i < |kept| => NewBlock(kept[i], i))
  }

  lemma NewBlocksSnoc(kept: seq<SourceParagraph>, p: SourceParagraph)
    ensures NewBlocks(kept + [p]) == NewBlocks(kept) + [NewBlock(p, |kept|)]
  {
  }

  /** The type the positional classification gives block i of n. */
  function TypeAt(n: nat, i: nat): BlockType {
    if i == 0 then SectionNumber
    else if i == 1 then SectionTitle
    else if i == n - 1 then EndOfSection
    else Content
  }

  /** The blocks after classification: with fewer than three blocks nothing changes. */
  function Classified(blocks: seq<ContentBlock>): (r: seq<ContentBlock>)
    ensures |r| == |blocks|
  {
    if |blocks| < 3 then blocks
    else seq(|blocks|, i requires 0 <= i < |blocks| => blocks[i].(blockType := TypeAt(|blocks|, i)))
  }

  /** The paragraph loop: one new block per paragraph with some text. */
  method CollectBlocks(paragraphs: seq<SourceParagraph>) returns (contentBlocks: seq<ContentBlock>)
    ensures contentBlocks == NewBlocks(Filter(paragraphs, HasText))
  {
    contentBlocks := [];
    for i := 0 to |paragraphs|
      invariant contentBlocks == NewBlocks(Filter(paragraphs[..i], HasText))
    {
      FilterPrefixStep(paragraphs, i, HasText);
      var text := Strip(paragraphs[i].text);
      if text != "" {
        var levelNumber := None;
        var numberingId := None;
        if paragraphs[i].numbering.Present? {
          levelNumber := Get(paragraphs[i].numbering.value.level);
          numberingId := Get(paragraphs[i].numbering.value.id);
        }
        var block := ContentBlock(text, levelNumber, numberingId, Content, |contentBlocks|);
        NewBlocksSnoc(Filter(paragraphs[..i], HasText), paragraphs[i]);
        contentBlocks := contentBlocks + [block];
      }
    }
    assert paragraphs[..|paragraphs|] == paragraphs;
  }

  /** The positional classification, done in place on the block list. */
  method ClassifyBlocks(contentBlocks: array<ContentBlock>)
    modifies contentBlocks
    ensures contentBlocks[..] == Classified(old(contentBlocks[..]))
  {
    var n := contentBlocks.Length;
    if n >= 3 {
      contentBlocks[0] := contentBlocks[0].(blockType := SectionNumber);
      contentBlocks[1] := contentBlocks[1].(blockType := SectionTitle);
      contentBlocks[n - 1] := contentBlocks[n - 1].(blockType := EndOfSection);
      for i := 2 to n - 1
        invariant forall j :: 0 <= j < n && (j < i || j == n - 1) ==>
          contentBlocks[j] == old(contentBlocks[j]).(blockType := TypeAt(n, j))
        invariant forall j :: i <= j < n - 1 ==> contentBlocks[j] == old(contentBlocks[j])
      {
        contentBlocks[i] := contentBlocks[i].(blockType := Content);
      }
    }
  }

  /** The positional type of every block of a classified list. */
  lemma ClassifiedTypes(blocks: seq<ContentBlock>, i: nat)
    requires i < |blocks|
    ensures var r := Classified(blocks)[i];
      r.text == blocks[i].text && r.levelNumber == blocks[i].levelNumber
      && r.numberingId == blocks[i].numberingId && r.index == blocks[i].index
      && (|blocks| >= 3 ==> r.blockType == (if i == 0 then SectionNumber else if i == 1 then SectionTitle
                                            else if i == |blocks| - 1 then EndOfSection else Content))
      && (|blocks| < 3 ==> r.blockType == blocks[i].blockType)
  {
  }

  /**
   * The extracted blocks: one per paragraph with some text, in order; block k
   * has index k, the stripped text of the k-th such paragraph and its level
   * and id; the types are positional from three blocks on and all "content"
   * below that.
   */
  lemma ExtractedMeaning(paragraphs: seq<SourceParagraph>)
    ensures var blocks := Classified(NewBlocks(Filter(paragraphs, HasText)));
      var kept := KeptIndices(paragraphs, HasText);
      |blocks| == Count(paragraphs, HasText) == |kept|
      && forall k :: 0 <= k < |blocks| ==>
           kept[k] < |paragraphs|
           && blocks[k].index == k
           && blocks[k].text == Strip(paragraphs[kept[k]].text) && blocks[k].text != ""
           && blocks[k].levelNumber == LevelNumberOf(paragraphs[kept[k]])
           && blocks[k].numberingId == NumberingIdOf(paragraphs[kept[k]])
           && blocks[k].blockType == (if |blocks| < 3 then Content else TypeAt(|blocks|, k))
  {
    var kept := Filter(paragraphs, HasText);
    FilterPicks(paragraphs, HasText);
    CountIsFilterLength(paragraphs, HasText);
    var blocks := Classified(NewBlocks(kept));
    forall k | 0 <= k < |blocks|
      ensures blocks[k].index == k && blocks[k].text == Strip(kept[k].text)
      ensures blocks[k].levelNumber == LevelNumberOf(kept[k]) && blocks[k].numberingId == NumberingIdOf(kept[k])
      ensures blocks[k].blockType == (if |blocks| < 3 then Content else TypeAt(|blocks|, k))
    {
      ClassifiedTypes(NewBlocks(kept), k);
    }
  }

  predicate IsContent(b: ContentBlock) { b.blockType == Content }
  predicate HasLevel(b: ContentBlock) { b.levelNumber.Some? }
  predicate HasNoLevel(b: ContentBlock) { b.levelNumber.None? }

  /** The `document_info` object of the saved file. */
  datatype DocumentInfo = DocumentInfo(totalBlocks: nat, contentBlocks: nat, blocksWithLevels: nat, blocksWithoutLevels: nat)

  /** The extractor object: `self.blocks` is set by each extraction. */
  class Extractor {
    var blocks: seq<ContentBlock>

    constructor()
      ensures blocks == []
    {
      blocks := [];
    }

    /** `extract_content_blocks`, given the converter's paragraph list. */
    method ExtractContentBlocks(paragraphs: seq<SourceParagraph>) returns (contentBlocks: seq<ContentBlock>)
      modifies this
      ensures contentBlocks == Classified(NewBlocks(Filter(paragraphs, HasText)))
      ensures blocks == contentBlocks
    {
      var collected := CollectBlocks(paragraphs);
      var a := new ContentBlock[|collected|](i requires 0 <= i < |collected| => collected[i]);
      assert a[..] == collected;
      ClassifyBlocks(a);
      blocks := a[..];
      contentBlocks := blocks;
    }

    /**
     * The counts `save_blocks_to_json` writes, or nothing when there are no
     * blocks; the blocks with and without a level add up to the total.
     */
    function Info(): (r: Option<DocumentInfo>)
      reads this
      ensures r.None? <==> blocks == []
      ensures r.Some? ==> (r.value.totalBlocks == |blocks|
        && r.value.blocksWithLevels + r.value.blocksWithoutLevels == r.value.totalBlocks
        && r.value.contentBlocks <= r.value.totalBlocks)
    {
      if blocks == [] then None
      else
        CountComplement(blocks, HasLevel, HasNoLevel);
        CountIsFilterLength(blocks, IsContent);
        Some(DocumentInfo(|blocks|, Count(blocks, IsContent), Count(blocks, HasLevel), Count(blocks, HasNoLevel)))
    }
  }

  /** A paragraph that is kept and carries a numbering level. */
  predicate HasTextAndLevel(p: SourceParagraph) {
    HasText(p) && LevelNumberOf(p).Some?
  }

  /**
   * The counts `save_blocks_to_json` writes after an extraction of n
   * paragraphs with text: nothing when n is 0; otherwise n blocks, of which
   * n - 3 are content blocks from three on and all n below three, and as many
   * with a level as there are kept paragraphs with a numbering level.
   */
  lemma InfoAfterExtraction(e: Extractor, paragraphs: seq<SourceParagraph>)
    requires e.blocks == Classified(NewBlocks(Filter(paragraphs, HasText)))
    ensures var n := Count(paragraphs, HasText);
      (e.Info().None? <==> n == 0)
      && (n > 0 ==>
            e.Info().value.totalBlocks == n
            && e.Info().value.contentBlocks == (if n >= 3 then n - 3 else n)
            && e.Info().value.blocksWithLevels == Count(paragraphs, HasTextAndLevel)
            && e.Info().value.blocksWithoutLevels == n - Count(paragraphs, HasTextAndLevel))
  {
    var kept := Filter(paragraphs, HasText);
    var built := NewBlocks(kept);
    var blocks := e.blocks;
    CountIsFilterLength(paragraphs, HasText);
    var n := |kept|;
    if n > 0 {
      var info := e.Info().value;
      CountIsFilterLength(blocks, IsContent);
      if n >= 3 {
        ContentCountClassified(built);
      } else {
        FilterAll(blocks, IsContent);
      }
      forall i | 0 <= i < n ensures HasLevel(blocks[i]) <==> LevelNumberOf(kept[i]).Some? {
        ClassifiedTypes(built, i);
      }
      CountPointwise(blocks, kept, HasLevel, (p: SourceParagraph) => LevelNumberOf(p).Some?);
      CountFiltered(paragraphs, HasText, (p: SourceParagraph) => LevelNumberOf(p).Some?, HasTextAndLevel);
      CountComplement(blocks, HasLevel, HasNoLevel);
    }
  }

  /** From three blocks on, all but the first two and the last are content blocks. */
  lemma ContentCountClassified(blocks: seq<ContentBlock>)
    requires |blocks| >= 3
    ensures Count(Classified(blocks), IsContent) == |blocks| - 3
  {
    var r := Classified(blocks);
    forall i | 0 <= i < |r| ensures IsContent(r[i]) <==> 2 <= i < |r| - 1 {
      assert r[i].blockType == TypeAt(|r|, i);
    }
    CountMiddle(r);
  }

  /** A list whose content blocks are exactly those between the second and the last has n - 3 of them. */
  lemma {:induction false} CountMiddle(r: seq<ContentBlock>)
    requires |r| >= 3 && forall i :: 0 <= i < |r| ==> (IsContent(r[i]) <==> 2 <= i < |r| - 1)
    ensures Count(r, IsContent) == |r| - 3
  {
    var n := |r|;
    // Counting prefix by prefix: positions 0, 1 and n - 1 are not content.
    CountPrefixStep(r, 0, IsContent);
    CountPrefixStep(r, 1, IsContent);
    assert r[..0] == [];
    var i := 2;
    while i < n - 1
      invariant 2 <= i <= n - 1
      invariant Count(r[..i], IsContent) == i - 2
    {
      CountPrefixStep(r, i, IsContent);
      i := i + 1;
    }
    CountPrefixStep(r, n - 1, IsContent);
    assert r[..n] == r;
  }
}
