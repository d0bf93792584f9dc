/**
 * The flexible list analyzer: levels from the relation between a token and
 * the previous token of the same list, and groups split where the level
 * jumps by more than one.
 */
module FlexibleListAnalyzer {
  import opened Wrappers
  import opened PyStr
  import opened Json
  import opened Patterns
  import opened Paragraphs
  import opened ListBlocks
  import opened ListRuns

  /** The names `_extract_base_pattern` returns. */
  datatype BasePattern = DecimalBase | UpperLetterBase | LowerLetterBase | UpperRomanBase | LowerRomanBase | UnknownBase
  {
    function Name(): string {
      match this
      case DecimalBase => "decimal"
      case UpperLetterBase => "upper_letter"
      case LowerLetterBase => "lower_letter"
      case UpperRomanBase => "upper_roman"
      case LowerRomanBase => "lower_roman"
      case UnknownBase => "unknown"
    }
  }

  /** `_extract_base_pattern`: the first of the five shapes the token starts with. */
  function ExtractBasePattern(numbering: string): BasePattern {
    if NumDot(numbering) then DecimalBase
    else if CharDot(numbering, IsUpper) then UpperLetterBase
    else if CharDot(numbering, IsLower) then LowerLetterBase
    else if AltDot(numbering, UpperRomans) then UpperRomanBase
    else if AltDot(numbering, LowerRomans) then LowerRomanBase
    else UnknownBase
  }

  /** The format of a base pattern. */
  function BaseFormat(b: BasePattern): Option<ListFormat> {
    match b
    case DecimalBase => Some(Decimal)
    case UpperLetterBase => Some(UpperLetter)
    case LowerLetterBase => Some(LowerLetter)
    case UpperRomanBase => Some(UpperRoman)
    case LowerRomanBase => Some(LowerRoman)
    case UnknownBase => None
  }

  /**
   * The base pattern and the detected format agree: both take the first of the
   * same five shapes, so "I." is an upper letter here too, and a token is
   * unknown exactly when no format is detected.
   */
  lemma BasePatternIsFormat(numbering: string)
    requires numbering != ""
    ensures BaseFormat(ExtractBasePattern(numbering)) == DetectNumberingFormat(numbering)
    ensures ExtractBasePattern(numbering) == UnknownBase <==> DetectNumberingFormat(numbering).None?
  {
    DetectIsFormatOfShape(numbering);
    BaseFormatIsShape(numbering);
  }

  lemma BaseFormatIsShape(numbering: string)
    requires numbering != ""
    ensures BaseFormat(ExtractBasePattern(numbering)) == FormatOfShape(numbering)
  {
    if NumDot(numbering) {
    } else if CharDot(numbering, IsUpper) {
    } else if CharDot(numbering, IsLower) {
    } else if AltDot(numbering, UpperRomans) {
    } else if AltDot(numbering, LowerRomans) {
    }
  }

  /** The (previous, current) pattern pairs of `_is_sublevel_pattern`, in order. */
  const SublevelPairs: seq<(Pattern, Pattern)> := [
    (NumDotP, NumDotNumP),
    (NumDotNumP, NumDotNumDotNumP),
    (NumDotP, UpperDotP),
    (UpperDotP, NumDotP),
    (NumDotP, LowerDotP),
    (UpperDotP, LowerDotP),
    (UpperDotP, SmallRomanDotP),
    (NumDotP, SmallRomanDotP)
  ]

  /** The loop of `_is_sublevel_pattern` over pairs. */
  predicate SomePairMatches(pairs: seq<(Pattern, Pattern)>, current: string, previous: string)
    decreases |pairs|
  {
    |pairs| > 0 && ((Matches(pairs[0].0, previous) && Matches(pairs[0].1, current)) || SomePairMatches(pairs[1..], current, previous))
  }

  /** `_is_sublevel_pattern`: some pair's patterns match the previous and the current token. */
  predicate IsSublevelPattern(current: string, previous: string) {
    SomePairMatches(SublevelPairs, current, previous)
  }

  lemma {:induction false} SomePairMatchesMeaning(pairs: seq<(Pattern, Pattern)>, current: string, previous: string)
    ensures SomePairMatches(pairs, current, previous) <==>
      exists j :: 0 <= j < |pairs| && Matches(pairs[j].0, previous) && Matches(pairs[j].1, current)
    decreases |pairs|
  {
    if |pairs| > 0 {
      SomePairMatchesMeaning(pairs[1..], current, previous);
      if SomePairMatches(pairs[1..], current, previous) {
        var j :| 0 <= j < |pairs| - 1 && Matches(pairs[1..][j].0, previous) && Matches(pairs[1..][j].1, current);
        assert pairs[j + 1] == pairs[1..][j];
      }
      if exists j :: 0 <= j < |pairs| && Matches(pairs[j].0, previous) && Matches(pairs[j].1, current) {
        var j :| 0 <= j < |pairs| && Matches(pairs[j].0, previous) && Matches(pairs[j].1, current);
        if j > 0 { assert pairs[1..][j - 1] == pairs[j]; }
      }
    }
  }

  /**
   * The pairs are prefix matches: after "1.01" the token "1.02" is a sublevel
   * (`^\d+\.` matches "1.01" and `^\d+\.\d+` matches "1.02").
   */
  lemma DecimalSublevelExample()
    ensures IsSublevelPattern("1.02", "1.01")
    ensures AnalyzeNumberingRelationship("1.02", "1.01") == Sublevel
  {
    assert Leading("1.01", IsDigit) == 1 by { assert Leading("1.01"[1..], IsDigit) == 0; }
    assert Leading("1.02", IsDigit) == 1 by { assert Leading("1.02"[1..], IsDigit) == 0; }
    assert SublevelPairs[0] == (NumDotP, NumDotNumP);
    assert Matches(NumDotP, "1.01") && Matches(NumDotNumP, "1.02");
  }

  /** After "A." the token "1." is a sublevel. */
  lemma LetterSublevelExample()
    ensures IsSublevelPattern("1.", "A.")
    ensures AnalyzeNumberingRelationship("1.", "A.") == Sublevel
  {
    assert Leading("1.", IsDigit) == 1 by { assert Leading("1."[1..], IsDigit) == 0; }
    assert SublevelPairs[3] == (UpperDotP, NumDotP);
    assert Matches(UpperDotP, "A.") && Matches(NumDotP, "1.");
    SomePairMatchesMeaning(SublevelPairs, "1.", "A.");
  }

  /** The results of `_analyze_numbering_relationship`. */
  datatype Relationship = Sublevel | Sibling | Parent | NewList

  /**
   * `_analyze_numbering_relationship`: new_list when either token is empty,
   * else sublevel if a pair matches, else sibling for the same base pattern,
   * else parent for a different one.
   */
  function AnalyzeNumberingRelationship(current: string, previous: string): (r: Relationship)
    ensures r == NewList <==> current == "" || previous == ""
    ensures current != "" && previous != "" ==> (r == Sublevel <==> IsSublevelPattern(current, previous))
    ensures current != "" && previous != "" && !IsSublevelPattern(current, previous) ==>
      (r == Sibling <==> ExtractBasePattern(current) == ExtractBasePattern(previous))
      && (r == Parent <==> ExtractBasePattern(current) != ExtractBasePattern(previous))
  {
    if current == "" || previous == "" then NewList
    else if IsSublevelPattern(current, previous) then Sublevel
    else if ExtractBasePattern(current) == ExtractBasePattern(previous) then Sibling
    else if ExtractBasePattern(current) != ExtractBasePattern(previous) then Parent
    else NewList
  }

  /** The level each relationship gives relative to the previous level. */
  function LevelFor(r: Relationship, prevLevel: int): int {
    match r
    case Sublevel => prevLevel + 1
    case Sibling => prevLevel
    case Parent => if prevLevel - 1 > 0 then prevLevel - 1 else 0
    case NewList => 0
  }

  /**
   * How the relation of a token to the previous one is judged; the analyzer
   * itself uses `AnalyzeNumberingRelationship`, and the level pass below is
   * stated for any such judgement.
   */
  type Analysis = (string, string) -> Relationship

  /**
   * The loop of `_infer_level_from_context` over the stack from its most
   * recent entry; every relationship returns, so the fallback to the current
   * level is only reached on an empty stack.
   */
  function ScanStack(analyze: Analysis, numbering: string, entries: seq<(string, int)>, currentLevel: int): int
    decreases |entries|
  {
    if entries == [] then currentLevel
    else
      var (prevNumbering, prevLevel) := entries[|entries| - 1];
      match analyze(numbering, prevNumbering)
      case Sublevel => prevLevel + 1
      case Sibling => prevLevel
      case Parent => if 0 > prevLevel - 1 then 0 else prevLevel - 1
      case NewList => 0
  }

  /** `_infer_level_from_context` */
  function InferLevelFromContext(analyze: Analysis, numberingPattern: Option<string>, ctx: ListContext): int {
    var numbering := OrEmpty(numberingPattern);
    if ctx.numberingStack == [] then 0
    else ScanStack(analyze, numbering, ctx.numberingStack, ctx.currentLevel)
  }

  /**
   * Only the most recent stack entry is consulted, and the level is 0 on an
   * empty stack; with non-negative levels on the stack the result is
   * non-negative.
   */
  lemma InferLevelUsesLastEntry(analyze: Analysis, numberingPattern: Option<string>, ctx: ListContext)
    ensures ctx.numberingStack == [] ==> InferLevelFromContext(analyze, numberingPattern, ctx) == 0
    ensures ctx.numberingStack != [] ==>
      var (prevNumbering, prevLevel) := ctx.numberingStack[|ctx.numberingStack| - 1];
      InferLevelFromContext(analyze, numberingPattern, ctx)
        == LevelFor(analyze(OrEmpty(numberingPattern), prevNumbering), prevLevel)
    ensures (forall e :: e in ctx.numberingStack ==> e.1 >= 0) ==> InferLevelFromContext(analyze, numberingPattern, ctx) >= 0
  {
    if ctx.numberingStack != [] {
      assert ctx.numberingStack[|ctx.numberingStack| - 1] in ctx.numberingStack;
    }
  }

  /** The `ListContext` the level pass threads through the blocks. */
  datatype ListContext = ListContext(currentLevel: int, numberingStack: seq<(string, int)>, formatStack: seq<ListFormat>)

  const InitialContext := ListContext(0, [], [])

  // ---------------------------------------------------------------------
  // Blocks

  function FlexibleAll(ps: seq<JsonParagraph>): (bs: seq<Block>)
    ensures |bs| == |ps|
  {
    if ps == [] then [] else FlexibleAll(ps[..|ps| - 1]) + [MakeBlock(ps[|ps| - 1], None)]
  }

  lemma {:induction false} FlexibleAllAt(ps: seq<JsonParagraph>, i: int)
    requires 0 <= i < |ps|
    ensures FlexibleAll(ps)[i] == MakeBlock(ps[i], None)
  {
    if i < |ps| - 1 {
      FlexibleAllAt(ps[..|ps| - 1], i);
    }
  }

  /** `_create_flexible_blocks`: one block per paragraph, in order. */
  method CreateFlexibleBlocks(ps: seq<JsonParagraph>) returns (bs: seq<Block>)
    ensures bs == FlexibleAll(ps)
  {
    bs := [];
    for i := 0 to |ps|
      invariant bs == FlexibleAll(ps[..i])
    {
      assert ps[..i + 1][..i] == ps[..i];
      bs := bs + [MakeBlock(ps[i], None)];
    }
    assert ps[..|ps|] == ps;
  }

  /** A block is a list item exactly when it has a (non-empty) numbering pattern. */
  predicate PatternsAgree(bs: seq<Block>) {
    forall i :: 0 <= i < |bs| ==> (bs[i].isListItem <==> Truthy(bs[i].numberingPattern))
  }

  lemma MakeBlockShape(p: JsonParagraph)
    ensures var b := MakeBlock(p, None);
      (b.isListItem <==> Truthy(b.numberingPattern)) && b.level.None? && b.listId.None?
  {
  }

  /** The fresh blocks have no level yet, and are list items exactly when they carry a pattern. */
  lemma FlexibleBlocksShape(ps: seq<JsonParagraph>)
    ensures PatternsAgree(FlexibleAll(ps))
    ensures forall i :: 0 <= i < |ps| ==> FlexibleAll(ps)[i].level.None? && FlexibleAll(ps)[i].listId.None?
  {
    var bs := FlexibleAll(ps);
    forall i | 0 <= i < |ps|
      ensures (bs[i].isListItem <==> Truthy(bs[i].numberingPattern)) && bs[i].level.None? && bs[i].listId.None?
    {
      FlexibleAllAt(ps, i);
      MakeBlockShape(ps[i]);
    }
  }

  // ---------------------------------------------------------------------
  // Contextual levels

  /** How one block changes the context after its level is chosen. */
  function ContextStep(ctx: ListContext, b: Block, level: int): ListContext {
    if !b.isListItem then InitialContext
    else if Truthy(b.numberingPattern) then
      ListContext(level, ctx.numberingStack + [(b.numberingPattern.value, level)],
        if b.numFmt.Some? then ctx.formatStack + [b.numFmt.value] else ctx.formatStack)
    else ctx
  }

  /** The context when `_assign_levels_contextually` reaches block i. */
  function ContextBefore(analyze: Analysis, bs: seq<Block>, i: nat): ListContext
    requires i <= |bs|
  {
    if i == 0 then InitialContext
    else
      var ctx := ContextBefore(analyze, bs, i - 1);
      ContextStep(ctx, bs[i - 1], InferLevelFromContext(analyze, bs[i - 1].numberingPattern, ctx))
  }

  /** The level inferred for block i. */
  function ContextLevel(analyze: Analysis, bs: seq<Block>, i: nat): int
    requires i < |bs|
  {
    InferLevelFromContext(analyze, bs[i].numberingPattern, ContextBefore(analyze, bs, i))
  }

  /** Block i after `_assign_levels_contextually`. */
  function LeveledBlock(analyze: Analysis, bs: seq<Block>, i: nat): Block
    requires i < |bs|
  {
    if bs[i].isListItem then bs[i].(level := Some(ContextLevel(analyze, bs, i))) else bs[i]
  }

  function ContextLeveled(analyze: Analysis, bs: seq<Block>): (r: seq<Block>)
    ensures |r| == |bs| && forall i :: 0 <= i < |bs| ==> r[i] == LeveledBlock(analyze, bs, i)
  {
    seq(|bs|, i requires 0 <= i < |bs| => LeveledBlock(analyze, bs, i))
  }

  /**
   * `_assign_levels_contextually`: one pass with a context that a non-list
   * block resets; each list item gets the level inferred from the context,
   * and one with a numbering pattern is pushed onto the stack with it.
   */
  method AssignLevelsContextually(blocks: array<Block>)
    modifies blocks
    ensures blocks[..] == ContextLeveled(AnalyzeNumberingRelationship, old(blocks[..]))
  {
    ghost var bs := blocks[..];
    var context := InitialContext;
    for i := 0 to blocks.Length
      invariant forall j :: i <= j < blocks.Length ==> blocks[j] == bs[j]
      invariant forall j :: 0 <= j < i ==> blocks[j] == LeveledBlock(AnalyzeNumberingRelationship, bs, j)
      invariant context == ContextBefore(AnalyzeNumberingRelationship, bs, i)
    {
      var block := blocks[i];
      ContextAfter(AnalyzeNumberingRelationship, bs, i);
      if !block.isListItem {
        context := ListContext(0, [], []);
        continue;
      }
      var level := InferLevelFromContext(AnalyzeNumberingRelationship, block.numberingPattern, context);
      blocks[i] := block.(level := Some(level));
      if Truthy(block.numberingPattern) {
        var formats := context.formatStack;
        if block.numFmt.Some? {
          formats := formats + [block.numFmt.value];
        }
        context := ListContext(level, context.numberingStack + [(block.numberingPattern.value, level)], formats);
      }
    }
  }

  lemma ContextAfter(analyze: Analysis, bs: seq<Block>, i: nat)
    requires i < |bs|
    ensures ContextBefore(analyze, bs, i + 1) == ContextStep(ContextBefore(analyze, bs, i), bs[i], ContextLevel(analyze, bs, i))
  {
  }

  /** Every level in the context is non-negative. */
  lemma {:induction false} ContextNonNegative(analyze: Analysis, bs: seq<Block>, i: nat)
    requires i <= |bs|
    ensures ContextBefore(analyze, bs, i).currentLevel >= 0
    ensures forall e :: e in ContextBefore(analyze, bs, i).numberingStack ==> e.1 >= 0
  {
    if i > 0 {
      ContextNonNegative(analyze, bs, i - 1);
      InferLevelUsesLastEntry(analyze, bs[i - 1].numberingPattern, ContextBefore(analyze, bs, i - 1));
    }
  }

  /** Inferred levels are never negative. */
  lemma ContextLevelNonNegative(analyze: Analysis, bs: seq<Block>, i: nat)
    requires i < |bs|
    ensures ContextLevel(analyze, bs, i) >= 0
  {
    ContextNonNegative(analyze, bs, i);
    InferLevelUsesLastEntry(analyze, bs[i].numberingPattern, ContextBefore(analyze, bs, i));
  }

  /** The first list item of the document or after a non-list block is at level 0. */
  lemma FirstOfRunIsZero(analyze: Analysis, bs: seq<Block>, i: nat)
    requires i < |bs| && (i == 0 || !bs[i - 1].isListItem)
    ensures ContextLevel(analyze, bs, i) == 0
  {
  }

  /**
   * The level defined without the stack: 0 at the start of a run of list
   * items, otherwise the level the relation to the previous item's token
   * gives from the previous item's level.
   */
  function PairwiseLevel(analyze: Analysis, bs: seq<Block>, i: nat): int
    requires i < |bs|
  {
    if i == 0 || !bs[i - 1].isListItem then 0
    else LevelFor(analyze(OrEmpty(bs[i].numberingPattern), OrEmpty(bs[i - 1].numberingPattern)),
      PairwiseLevel(analyze, bs, i - 1))
  }

  /**
   * When list items are exactly the blocks with a pattern, the stack only
   * ever matters through its top, which is the previous list item and its
   * level: the contextual level is the pairwise level.
   */
  lemma {:induction false} ContextLevelIsPairwise(analyze: Analysis, bs: seq<Block>, i: nat)
    requires PatternsAgree(bs) && i < |bs|
    ensures ContextLevel(analyze, bs, i) == PairwiseLevel(analyze, bs, i)
  {
    if i == 0 || !bs[i - 1].isListItem {
      FirstOfRunIsZero(analyze, bs, i);
    } else {
      ContextLevelAfterListItem(analyze, bs, i);
      ContextLevelIsPairwise(analyze, bs, i - 1);
    }
  }

  /** After a list item, the two levels agree when they agreed on that item. */
  lemma {:induction false} ContextLevelAfterListItem(analyze: Analysis, bs: seq<Block>, i: nat)
    requires PatternsAgree(bs) && 0 < i < |bs| && bs[i - 1].isListItem
    ensures ContextLevel(analyze, bs, i - 1) == PairwiseLevel(analyze, bs, i - 1) ==> ContextLevel(analyze, bs, i) == PairwiseLevel(analyze, bs, i)
  {
    var prev := bs[i - 1].numberingPattern;
    assert Truthy(prev) by { assert bs[i - 1].isListItem; }
    var ctx := ContextBefore(analyze, bs, i);
    StackTopAfterListItem(analyze, bs, i);
    InferLevelUsesLastEntry(analyze, bs[i].numberingPattern, ctx);
    assert OrEmpty(prev) == prev.value;
  }

  /** After a list item with a pattern, the top of the stack is that item and its level. */
  lemma StackTopAfterListItem(analyze: Analysis, bs: seq<Block>, i: nat)
    requires 0 < i <= |bs| && bs[i - 1].isListItem && Truthy(bs[i - 1].numberingPattern)
    ensures var st := ContextBefore(analyze, bs, i).numberingStack;
      st != [] && st[|st| - 1] == (bs[i - 1].numberingPattern.value, ContextLevel(analyze, bs, i - 1))
  {
    var ctx := ContextBefore(analyze, bs, i - 1);
    assert ContextBefore(analyze, bs, i) == ContextStep(ctx, bs[i - 1], ContextLevel(analyze, bs, i - 1));
  }

  // ---------------------------------------------------------------------
  // Contextual groups

  /** A block can be in a group: a list item whose level is set. */
  function GroupEligible(bs: seq<Block>): (r: seq<bool>)
    ensures |r| == |bs| && forall i :: 0 <= i < |bs| ==> (r[i] <==> bs[i].isListItem && bs[i].level.Some?)
  {
    seq(|bs|, i requires 0 <= i < |bs| => bs[i].isListItem && bs[i].level.Some?)
  }

  /** Block i may continue the group of block i - 1: their levels differ by at most one. */
  function LevelContinues(bs: seq<Block>): (r: seq<bool>)
    ensures |r| == |bs|
    ensures forall i :: 0 <= i < |bs| ==>
      (r[i] <==> 0 < i && bs[i - 1].level.Some? && bs[i].level.Some? && Dist(bs[i].level.value, bs[i - 1].level.value) <= 1)
  {
    seq(|bs|, i requires 0 <= i < |bs| =>
      0 < i && bs[i - 1].level.Some? && bs[i].level.Some? && Dist(bs[i].level.value, bs[i - 1].level.value) <= 1)
  }

  /** `abs(a - b)` */
  function Dist(a: int, b: int): nat {
    if a >= b then a - b else b - a
  }

  /**
   * `_group_lists_contextually`: list items with a level are grouped while
   * consecutive levels differ by at most one; a jump starts a new group and
   * any other block closes the group. Each group's blocks then get its
   * 1-based number as list id.
   */
  method GroupListsContextually(blocks: array<Block>) returns (listGroups: seq<seq<int>>)
    modifies blocks
    ensures listGroups == Groups(GroupEligible(old(blocks[..])), LevelContinues(old(blocks[..])))
    ensures forall i :: 0 <= i < blocks.Length ==> blocks[i] == Labeled(old(blocks[..]), listGroups, i)
  {
    ghost var bs := blocks[..];
    ghost var el, jn := GroupEligible(bs), LevelContinues(bs);
    listGroups := [];
    var currentGroup: seq<int> := [];
    var currentLevel: Option<int> := None;
    for i := 0 to blocks.Length
      invariant GroupState(listGroups, currentGroup) == StateAfter(el, jn, i)
      invariant currentGroup == [] ==> currentLevel.None?
      invariant currentGroup != [] ==> 0 < i && bs[i - 1].level.Some? && currentLevel == bs[i - 1].level
    {
      var block := blocks[i];
      if block.isListItem && block.level.Some? {
        if currentLevel.None? || Dist(block.level.value, currentLevel.value) <= 1 {
          if currentGroup == [] {
            currentGroup := [i];
          } else {
            currentGroup := currentGroup + [i];
          }
          currentLevel := block.level;
        } else {
          if currentGroup != [] {
            listGroups := listGroups + [currentGroup];
          }
          currentGroup := [i];
          currentLevel := block.level;
        }
      } else {
        if currentGroup != [] {
          listGroups := listGroups + [currentGroup];
          currentGroup := [];
          currentLevel := None;
        }
      }
    }
    if currentGroup != [] {
      listGroups := listGroups + [currentGroup];
    }
    GroupsConsecutive(el, jn);
    AssignListIds(blocks, listGroups);
  }

  /** The loop's groups are runs of consecutive indices. */
  lemma GroupsConsecutive(el: seq<bool>, jn: seq<bool>)
    requires |el| == |jn|
    ensures Consecutive(Groups(el, jn), |el|)
  {
    GroupsMaximal(el, jn);
    var gs := Groups(el, jn);
    forall g | 0 <= g < |gs| ensures Chain(el, jn, gs[g]) { }
  }

  /**
   * After `_group_lists_contextually`, the blocks of the g-th group carry list
   * id g + 1 and nothing else of them changes.
   */
  lemma ContextualListIds(bs: seq<Block>)
    ensures var gs := Groups(GroupEligible(bs), LevelContinues(bs));
      forall g, k :: 0 <= g < |gs| && 0 <= k < |gs[g]| ==>
        0 <= gs[g][k] < |bs| && Labeled(bs, gs, gs[g][k]) == bs[gs[g][k]].(listId := Some(g + 1))
  {
    var el, jn := GroupEligible(bs), LevelContinues(bs);
    GroupsMaximal(el, jn);
    GroupsNumbered(el, jn);
    var gs := Groups(el, jn);
    forall g, k | 0 <= g < |gs| && 0 <= k < |gs[g]|
      ensures 0 <= gs[g][k] < |bs| && Labeled(bs, gs, gs[g][k]) == bs[gs[g][k]].(listId := Some(g + 1))
    {
      assert Chain(el, jn, gs[g]);
      assert InRun(gs[g], gs[g][k]);
      LabeledDisjoint(bs, gs, g, gs[g][k]);
    }
  }

  /** A block that is not a list item with a level is in no group and keeps its list id. */
  lemma ContextualOthersUnchanged(bs: seq<Block>, i: nat)
    requires i < |bs| && !(bs[i].isListItem && bs[i].level.Some?)
    ensures Labeled(bs, Groups(GroupEligible(bs), LevelContinues(bs)), i) == bs[i]
  {
    var el, jn := GroupEligible(bs), LevelContinues(bs);
    GroupsMaximal(el, jn);
    GroupsNumbered(el, jn);
    NotInAnyGroup(el, jn, Groups(el, jn), i);
    LabeledDisjoint(bs, Groups(el, jn), -1, i);
  }

  lemma NotInAnyGroup(el: seq<bool>, jn: seq<bool>, gs: seq<seq<int>>, i: nat)
    requires |el| == |jn| && i < |el| && !el[i]
    requires forall g :: 0 <= g < |gs| ==> Chain(el, jn, gs[g])
    ensures forall g :: 0 <= g < |gs| ==> !InRun(gs[g], i)
  {
    forall g | 0 <= g < |gs| ensures !InRun(gs[g], i) {
      var run := gs[g];
      assert Chain(el, jn, run);
      forall j | InRun(run, j) ensures el[j] {
        assert run[j - run[0]] == j;
      }
    }
  }

  /**
   * Block i after the ids of groups gs have been written in order: the number
   * of the last group that holds i, or the block unchanged.
   */
  function Labeled(orig: seq<Block>, gs: seq<seq<int>>, i: nat): Block
    requires i < |orig|
  {
    if gs == [] then orig[i]
    else if InRun(gs[|gs| - 1], i) then orig[i].(listId := Some(|gs|))
    else Labeled(orig, gs[..|gs| - 1], i)
  }

  /** Each group is a run of consecutive block indices. */
  predicate Consecutive(gs: seq<seq<int>>, n: int) {
    forall g :: 0 <= g < |gs| ==>
      (gs[g] != [] && 0 <= gs[g][0] && gs[g][0] + |gs[g]| <= n
       && forall k :: 0 <= k < |gs[g]| ==> gs[g][k] == gs[g][0] + k)
  }

  /** The `for group_id, group in enumerate(list_groups, 1)` loop that writes the list ids. */
  method AssignListIds(blocks: array<Block>, gs: seq<seq<int>>)
    requires Consecutive(gs, blocks.Length)
    modifies blocks
    ensures forall i :: 0 <= i < blocks.Length ==> blocks[i] == Labeled(old(blocks[..]), gs, i)
  {
    ghost var orig := blocks[..];
    for g := 0 to |gs|
      invariant forall i :: 0 <= i < blocks.Length ==> blocks[i] == Labeled(orig, gs[..g], i)
    {
      assert gs[..g + 1][..g] == gs[..g];
      ghost var before := blocks[..];
      LabelGroup(blocks, gs[g], g + 1);
      forall i | 0 <= i < blocks.Length ensures blocks[i] == Labeled(orig, gs[..g + 1], i) {
        if InRun(gs[g], i) {
          var k := i - gs[g][0];
          assert gs[g][k] == i;
          LabeledKeepsFields(orig, gs[..g], i);
        }
      }
    }
    assert gs[..|gs|] == gs;
  }

  /** Writing ids changes nothing but the list id. */
  lemma {:induction false} LabeledKeepsFields(orig: seq<Block>, gs: seq<seq<int>>, i: nat)
    requires i < |orig|
    ensures Labeled(orig, gs, i) == orig[i].(listId := Labeled(orig, gs, i).listId)
    decreases |gs|
  {
    if gs != [] && !InRun(gs[|gs| - 1], i) {
      LabeledKeepsFields(orig, gs[..|gs| - 1], i);
    }
  }

  /** With disjoint groups, a block of group g has id g + 1 and a block outside every group is unchanged. */
  lemma {:induction false} LabeledDisjoint(orig: seq<Block>, gs: seq<seq<int>>, g: int, i: nat)
    requires i < |orig| && Disjoint(gs)
    requires 0 <= g < |gs| ==> InRun(gs[g], i)
    requires !(0 <= g < |gs|) ==> forall g' :: 0 <= g' < |gs| ==> !InRun(gs[g'], i)
    ensures Labeled(orig, gs, i) == if 0 <= g < |gs| then orig[i].(listId := Some(g + 1)) else orig[i]
    decreases |gs|
  {
    if gs != [] {
      var init := gs[..|gs| - 1];
      if g != |gs| - 1 {
        if 0 <= g < |gs| { assert !InRun(gs[|gs| - 1], i); }
        else { assert !InRun(gs[|gs| - 1], i); }
        assert Disjoint(init) by {
          forall g1, g2, x | 0 <= g1 < |init| && 0 <= g2 < |init| && InRun(init[g1], x) && InRun(init[g2], x) ensures g1 == g2 {
            assert init[g1] == gs[g1] && init[g2] == gs[g2];
          }
        }
        if 0 <= g < |gs| { assert init[g] == gs[g]; }
        else {
          forall g' | 0 <= g' < |init| ensures !InRun(init[g'], i) { assert init[g'] == gs[g']; }
        }
        LabeledDisjoint(orig, init, g, i);
      }
    }
  }

  /** The inner loop: every block of one group gets the group's id, and no other block changes. */
  method LabelGroup(blocks: array<Block>, group: seq<int>, groupId: int)
    requires group != [] && 0 <= group[0] && group[0] + |group| <= blocks.Length
    requires forall k :: 0 <= k < |group| ==> group[k] == group[0] + k
    modifies blocks
    ensures forall k :: 0 <= k < |group| ==> blocks[group[k]] == old(blocks[group[k]]).(listId := Some(groupId))
    ensures forall i :: 0 <= i < blocks.Length && !InRun(group, i) ==> blocks[i] == old(blocks[i])
  {
    for k := 0 to |group|
      invariant forall k' :: 0 <= k' < k ==> blocks[group[k']] == old(blocks[group[k']]).(listId := Some(groupId))
      invariant forall i :: 0 <= i < blocks.Length && !(group[0] <= i < group[0] + k) ==> blocks[i] == old(blocks[i])
    {
      var blockIdx := group[k];
      blocks[blockIdx] := blocks[blockIdx].(listId := Some(groupId));
    }
  }

  /** Within a group, the levels of consecutive blocks differ by at most one. */
  lemma GroupLevelsClose(bs: seq<Block>)
    ensures var gs := Groups(GroupEligible(bs), LevelContinues(bs));
      forall g, k :: 0 <= g < |gs| && 0 < k < |gs[g]| ==>
        0 < gs[g][k] < |bs| && gs[g][k - 1] == gs[g][k] - 1
        && bs[gs[g][k]].level.Some? && bs[gs[g][k] - 1].level.Some?
        && Dist(bs[gs[g][k]].level.value, bs[gs[g][k] - 1].level.value) <= 1
  {
    var el, jn := GroupEligible(bs), LevelContinues(bs);
    GroupsMaximal(el, jn);
    var gs := Groups(el, jn);
    forall g, k | 0 <= g < |gs| && 0 < k < |gs[g]|
      ensures 0 < gs[g][k] < |bs| && gs[g][k - 1] == gs[g][k] - 1
        && bs[gs[g][k]].level.Some? && bs[gs[g][k] - 1].level.Some?
        && Dist(bs[gs[g][k]].level.value, bs[gs[g][k] - 1].level.value) <= 1
    {
      assert Chain(el, jn, gs[g]);
      assert jn[gs[g][k]];
    }
  }

  // ---------------------------------------------------------------------
  // The whole pass

  /**
   * After the contextual pass on fresh blocks, a list item has the pairwise
   * level, which is never negative and is 0 at the start of a run, and any
   * other block has no level.
   */
  lemma LeveledBlocks(ps: seq<JsonParagraph>, i: nat)
    requires i < |ps|
    ensures var b := ContextLeveled(AnalyzeNumberingRelationship, FlexibleAll(ps))[i];
      b.isListItem == FlexibleAll(ps)[i].isListItem
      && (b.isListItem ==> b.level == Some(PairwiseLevel(AnalyzeNumberingRelationship, FlexibleAll(ps), i)) && b.level.value >= 0)
      && (!b.isListItem ==> b.level.None?)
      && ((i == 0 || !FlexibleAll(ps)[i - 1].isListItem) && b.isListItem ==> b.level == Some(0))
  {
    var bs := FlexibleAll(ps);
    FlexibleBlocksShape(ps);
    ContextLevelIsPairwise(AnalyzeNumberingRelationship, bs, i);
    ContextLevelNonNegative(AnalyzeNumberingRelationship, bs, i);
  }

  /** After the contextual pass every list item has a level, so exactly the list items are grouped. */
  lemma LeveledEligible(ps: seq<JsonParagraph>)
    ensures GroupEligible(ContextLeveled(AnalyzeNumberingRelationship, FlexibleAll(ps))) == ListFlags(FlexibleAll(ps))
  {
    var bs := FlexibleAll(ps);
    FlexibleBlocksShape(ps);
  }

  /**
   * `analyze_document` without the file, the confidence scores and the
   * report: blocks, contextual levels, then groups and list ids.
   */
  method AnalyzeParagraphs(ps: seq<JsonParagraph>) returns (result: seq<Block>, groups: seq<seq<int>>)
    ensures |result| == |ps|
    ensures groups == Groups(ListFlags(FlexibleAll(ps)), LevelContinues(ContextLeveled(AnalyzeNumberingRelationship, FlexibleAll(ps))))
    ensures forall i :: 0 <= i < |ps| ==> result[i] == Labeled(ContextLeveled(AnalyzeNumberingRelationship, FlexibleAll(ps)), groups, i)
  {
    var bs := CreateFlexibleBlocks(ps);
    var arr := new Block[|bs|](i requires 0 <= i < |bs| => bs[i]);
    assert arr[..] == bs;
    AssignLevelsContextually(arr);
    ghost var leveled := arr[..];
    assert leveled == ContextLeveled(AnalyzeNumberingRelationship, FlexibleAll(ps));
    LeveledEligible(ps);
    assert GroupEligible(leveled) == ListFlags(FlexibleAll(ps));
    groups := GroupListsContextually(arr);
    result := arr[..];
  }
}
