/**
 * The enhanced list analyzer: block construction, maximal runs of list items,
 * level inference from the numbering token, and the final list-id pass.
 */
module EnhancedListAnalyzer {
  import opened Wrappers
  import opened PyStr
  import opened Json
  import opened Patterns
  import opened Paragraphs
  import opened ListBlocks
  import opened ListRuns

  /** The token-to-level table, in its iteration order. */
  const LevelTable: seq<(int, seq<Pattern>)> := [
    (0, [NumDotZeroSpaceP]),
    (1, [NumDotTwoDigitsSpaceP]),
    (2, [UpperDotSpaceP]),
    (3, [NumDotSpaceP]),
    (4, [LowerDotSpaceP]),
    (5, [IvxDotSpaceP])
  ]

  lemma LevelRowNeedsSpace(j: int, s: string)
    requires 0 <= j < |LevelTable| && AnyMatches(LevelTable[j].1, s)
    ensures exists i :: 0 <= i < |s| && IsSpace(s[i])
  {
    var k :| 0 <= k < |LevelTable[j].1| && Matches(LevelTable[j].1[k], s);
    SpacePatternsNeedSpace(LevelTable[j].1[k], s);
  }

  /**
   * `_infer_level_from_numbering`: the level of the first row whose pattern
   * matches, a level from 0 to 5; every row ends in `\s`, so a token without
   * whitespace gets None.
   */
  function InferLevelFromNumbering(numbering: string): (r: Option<int>)
    ensures r.Some? ==> 0 <= r.value <= 5
    ensures (forall i :: 0 <= i < |numbering| ==> !IsSpace(numbering[i])) ==> r.None?
  {
    var r := FirstMatch(LevelTable, numbering);
    if r.Some? then
      var j :| FirstMatchingEntry(LevelTable, numbering, j) && LevelTable[j].0 == r.value;
      LevelRowNeedsSpace(j, numbering);
      r
    else r
  }

  /** A reference reading of the level table as an if-chain. */
  function LevelOfShape(s: string): Option<int> {
    if Matches(NumDotZeroSpaceP, s) then Some(0)
    else if Matches(NumDotTwoDigitsSpaceP, s) then Some(1)
    else if Matches(UpperDotSpaceP, s) then Some(2)
    else if Matches(NumDotSpaceP, s) then Some(3)
    else if Matches(LowerDotSpaceP, s) then Some(4)
    else if Matches(IvxDotSpaceP, s) then Some(5)
    else None
  }

  lemma InferLevelIsLevelOfShape(s: string)
    ensures InferLevelFromNumbering(s) == LevelOfShape(s)
  {
    AnyMatchesSingle(NumDotZeroSpaceP, s);
    AnyMatchesSingle(NumDotTwoDigitsSpaceP, s);
    AnyMatchesSingle(UpperDotSpaceP, s);
    AnyMatchesSingle(NumDotSpaceP, s);
    AnyMatchesSingle(LowerDotSpaceP, s);
    AnyMatchesSingle(IvxDotSpaceP, s);
    var t := LevelTable;
    assert FirstMatch(t[5..], s) == if Matches(IvxDotSpaceP, s) then Some(5) else None by {
      assert t[5..][1..] == [];
    }
    assert FirstMatch(t[4..], s) == if Matches(LowerDotSpaceP, s) then Some(4) else FirstMatch(t[5..], s) by {
      assert t[4..][1..] == t[5..];
    }
    assert FirstMatch(t[3..], s) == if Matches(NumDotSpaceP, s) then Some(3) else FirstMatch(t[4..], s) by {
      assert t[3..][1..] == t[4..];
    }
    assert FirstMatch(t[2..], s) == if Matches(UpperDotSpaceP, s) then Some(2) else FirstMatch(t[3..], s) by {
      assert t[2..][1..] == t[3..];
    }
    assert FirstMatch(t[1..], s) == if Matches(NumDotTwoDigitsSpaceP, s) then Some(1) else FirstMatch(t[2..], s) by {
      assert t[1..][1..] == t[2..];
    }
  }

  /** A single-letter numeral such as "i." gets level 4: `[a-z]\.\s` comes before `[ivx]+\.\s`. */
  lemma InferLevelSingleRomanExample()
    ensures InferLevelFromNumbering("i. x") == Some(4)
  {
    InferLevelIsLevelOfShape("i. x");
    SingleRomanShape();
  }

  lemma SingleRomanShape()
    ensures LevelOfShape("i. x") == Some(4)
  {
    SingleLetterShape("i. x");
  }

  /** A lower-case letter, a dot and a space is level 4 whatever follows. */
  lemma SingleLetterShape(s: string)
    requires |s| >= 3 && IsLower(s[0]) && s[1] == '.' && IsSpace(s[2])
    ensures LevelOfShape(s) == Some(4)
  {
    assert Leading(s, IsDigit) == 0;
  }

  /** Only numerals of two or more letters, such as "ii.", get level 5. */
  lemma InferLevelLongRomanExample()
    ensures InferLevelFromNumbering("ii. x") == Some(5)
  {
    InferLevelIsLevelOfShape("ii. x");
    LongRomanShape();
  }

  lemma LongRomanShape()
    ensures LevelOfShape("ii. x") == Some(5)
  {
    TwoLetterShape("ii. x");
  }

  /** Two of `i`, `v`, `x`, a dot and a space is level 5 whatever follows. */
  lemma TwoLetterShape(s: string)
    requires |s| >= 4 && IsIvx(s[0]) && IsIvx(s[1]) && s[2] == '.' && IsSpace(s[3])
    ensures LevelOfShape(s) == Some(5)
  {
    assert Leading(s, IsDigit) == 0;
    assert Leading(s, IsIvx) == 2 by {
      assert Leading(s[1..], IsIvx) == 1 by {
        assert Leading(s[1..][1..], IsIvx) == 0;
      }
    }
  }

  /** `_enhance_blocks`, one paragraph: the block keeps the paragraph's level. */
  function EnhanceBlock(p: JsonParagraph): (b: Block)
    ensures b == MakeBlock(p, Get(p.level))
  {
    MakeBlock(p, Get(p.level))
  }

  /** The blocks of a paragraph list, one per paragraph, in order. */
  function EnhanceAll(ps: seq<JsonParagraph>): (bs: seq<Block>)
    ensures |bs| == |ps|
  {
    if ps == [] then [] else EnhanceAll(ps[..|ps| - 1]) + [EnhanceBlock(ps[|ps| - 1])]
  }

  lemma {:induction false} EnhanceAllAt(ps: seq<JsonParagraph>, i: int)
    requires 0 <= i < |ps|
    ensures EnhanceAll(ps)[i] == EnhanceBlock(ps[i])
  {
    if i < |ps| - 1 {
      EnhanceAllAt(ps[..|ps| - 1], i);
    }
  }

  /** `_enhance_blocks`: one block per paragraph, in order. */
  method EnhanceBlocks(ps: seq<JsonParagraph>) returns (bs: seq<Block>)
    ensures bs == EnhanceAll(ps)
  {
    bs := [];
    for i := 0 to |ps|
      invariant bs == EnhanceAll(ps[..i])
    {
      assert ps[..i + 1][..i] == ps[..i];
      bs := bs + [EnhanceBlock(ps[i])];
    }
    assert ps[..|ps|] == ps;
  }

  /** Any list item may continue the list item before it. */
  function AllJoin(n: nat): (r: seq<bool>)
    ensures |r| == n && forall i :: 0 <= i < n ==> r[i]
  {
    seq(n, _ => true)
  }

  /**
   * `_group_lists`: the maximal runs of consecutive list items, in order.
   */
  method GroupLists(blocks: seq<Block>) returns (groups: seq<seq<int>>)
    ensures groups == Groups(ListFlags(blocks), AllJoin(|blocks|))
    ensures MaximalGroups(ListFlags(blocks), AllJoin(|blocks|), groups)
  {
    ghost var el, jn := ListFlags(blocks), AllJoin(|blocks|);
    groups := [];
    var current: seq<int> := [];
    for i := 0 to |blocks|
      invariant GroupState(groups, current) == StateAfter(el, jn, i)
    {
      if blocks[i].isListItem {
        if current == [] {
          current := [i];
        } else {
          current := current + [i];
        }
      } else {
        if current != [] {
          groups := groups + [current];
          current := [];
        }
      }
    }
    if current != [] {
      groups := groups + [current];
    }
    GroupsMaximal(el, jn);
  }

  /**
   * The level `_analyze_group_levels` gives a block: the level inferred from
   * its numbering if any, else `block.level or 0`.
   */
  function BlockLevel(b: Block): (l: int)
    ensures var inferred := InferLevelFromNumbering(OrEmpty(b.numberingPattern));
      inferred.Some? ==> l == inferred.value
    ensures InferLevelFromNumbering(OrEmpty(b.numberingPattern)).None? ==>
      l == (if b.level.Some? then b.level.value else 0)
    ensures (b.level.None? || b.level.value >= 0) ==> l >= 0
  {
    match InferLevelFromNumbering(OrEmpty(b.numberingPattern))
    case Some(l) => l
    case None => if b.level.Some? then b.level.value else 0
  }

  /** The body of the `_analyze_group_levels` loop for one block, specified by `BlockLevel`. */
  method GroupLevel(block: Block) returns (level: int)
    ensures level == BlockLevel(block)
  {
    var inferred := InferLevelFromNumbering(OrEmpty(block.numberingPattern));
    if inferred.Some? {
      level := inferred.value;
    } else {
      level := if block.level.Some? then block.level.value else 0;
    }
  }

  /** `_analyze_group_levels`: one level per block of the group, in order. */
  method AnalyzeGroupLevels(groupBlocks: seq<Block>) returns (levels: seq<int>)
    ensures |levels| == |groupBlocks| && forall i :: 0 <= i < |groupBlocks| ==> levels[i] == BlockLevel(groupBlocks[i])
  {
    levels := [];
    for i := 0 to |groupBlocks|
      invariant |levels| == i && forall j :: 0 <= j < i ==> levels[j] == BlockLevel(groupBlocks[j])
    {
      var level := GroupLevel(groupBlocks[i]);
      levels := levels + [level];
    }
  }

  /** Every index in the groups is a block index. */
  predicate IndicesIn(groups: seq<seq<int>>, n: int) {
    forall g, k :: 0 <= g < |groups| && 0 <= k < |groups[g]| ==> 0 <= groups[g][k] < n
  }

  /** The indices that occur in groups[..m]. */
  function GroupedIndices(groups: seq<seq<int>>, m: nat): set<int>
    requires m <= |groups|
  {
    set g, k | 0 <= g < m && 0 <= k < |groups[g]| :: groups[g][k]
  }

  /** a assigns exactly the grouped blocks, each its `BlockLevel`. */
  predicate LevelAssignment(blocks: seq<Block>, groups: seq<seq<int>>, a: map<int, int>) {
    a.Keys == GroupedIndices(groups, |groups|)
    && forall i :: i in a ==> 0 <= i < |blocks| && a[i] == BlockLevel(blocks[i])
  }

  /** The block indices of one group. */
  function GroupSet(group: seq<int>): set<int> {
    set k | 0 <= k < |group| :: group[k]
  }

  /** `_assign_levels`: the level of every block in a group, keyed by block index. */
  method AssignLevels(blocks: seq<Block>, groups: seq<seq<int>>) returns (assignments: map<int, int>)
    requires IndicesIn(groups, |blocks|)
    ensures LevelAssignment(blocks, groups, assignments)
  {
    assignments := map[];
    for g := 0 to |groups|
      invariant assignments.Keys == GroupedIndices(groups, g)
      invariant forall i :: i in assignments ==> 0 <= i < |blocks| && assignments[i] == BlockLevel(blocks[i])
    {
      assignments := AssignGroup(blocks, groups[g], assignments);
      GroupedIndicesStep(groups, g);
    }
  }

  /** The inner loop of `_assign_levels`: one group's levels written into the map. */
  method AssignGroup(blocks: seq<Block>, group: seq<int>, assignments: map<int, int>) returns (result: map<int, int>)
    requires forall k :: 0 <= k < |group| ==> 0 <= group[k] < |blocks|
    requires forall i :: i in assignments ==> 0 <= i < |blocks| && assignments[i] == BlockLevel(blocks[i])
    ensures result.Keys == assignments.Keys + GroupSet(group)
    ensures forall i :: i in result ==> 0 <= i < |blocks| && result[i] == BlockLevel(blocks[i])
  {
    var groupLevels := AnalyzeGroupLevels(seq(|group|, k requires 0 <= k < |group| => blocks[group[k]]));
    result := assignments;
    for k := 0 to |group|
      invariant result.Keys == assignments.Keys + GroupSet(group[..k])
      invariant forall i :: i in result ==> 0 <= i < |blocks| && result[i] == BlockLevel(blocks[i])
    {
      GroupSetStep(group, k);
      result := result[group[k] := groupLevels[k]];
    }
    assert group[..|group|] == group;
  }

  lemma GroupSetStep(group: seq<int>, k: nat)
    requires k < |group|
    ensures GroupSet(group[..k + 1]) == GroupSet(group[..k]) + {group[k]}
  {
    var pre, pre' := group[..k], group[..k + 1];
    forall x | x in GroupSet(pre') ensures x in GroupSet(pre) + {group[k]} {
      var j :| 0 <= j < |pre'| && x == pre'[j];
      if j < k { assert x == pre[j]; }
    }
    forall x | x in GroupSet(pre) + {group[k]} ensures x in GroupSet(pre') {
      if x == group[k] { assert pre'[k] == x; }
      else { var j :| 0 <= j < |pre| && x == pre[j]; assert pre'[j] == x; }
    }
  }

  lemma GroupedIndicesStep(groups: seq<seq<int>>, g: nat)
    requires g < |groups|
    ensures GroupedIndices(groups, g + 1) == GroupedIndices(groups, g) + GroupSet(groups[g])
  {
    var added := GroupSet(groups[g]);
    forall x | x in GroupedIndices(groups, g + 1) ensures x in GroupedIndices(groups, g) + added {
      var g', k' :| 0 <= g' < g + 1 && 0 <= k' < |groups[g']| && x == groups[g'][k'];
      if g' < g { assert x in GroupedIndices(groups, g); }
    }
  }

  /** The list id `_finalize_analysis` gives block i: the number of runs started so far. */
  function ListIdOf(bs: seq<Block>, i: nat): nat
    requires i < |bs|
  {
    StartNumber(ListFlags(bs), AllJoin(|bs|), i)
  }

  /** Block i after `_finalize_analysis`. */
  function FinalBlock(bs: seq<Block>, a: map<int, int>, i: nat): Block
    requires i < |bs|
  {
    if bs[i].isListItem then
      bs[i].(listId := Some(ListIdOf(bs, i)), level := if i in a then Some(a[i]) else bs[i].level)
    else bs[i]
  }

  function Finalized(bs: seq<Block>, a: map<int, int>): (r: seq<Block>)
    ensures |r| == |bs| && forall i :: 0 <= i < |bs| ==> r[i] == FinalBlock(bs, a, i)
  {
    seq(|bs|, i requires 0 <= i < |bs| => FinalBlock(bs, a, i))
  }

  /**
   * `_finalize_analysis`: a counter incremented at the first item of each run
   * of list items; every list item gets the counter as its list id and its
   * assigned level if it has one.
   */
  method FinalizeAnalysis(blocks: array<Block>, levelAssignments: map<int, int>)
    modifies blocks
    ensures blocks[..] == Finalized(old(blocks[..]), levelAssignments)
  {
    ghost var bs := blocks[..];
    ghost var finalized := Finalized(bs, levelAssignments);
    var listId := 0;
    var currentListBlocks: seq<int> := [];
    for i := 0 to blocks.Length
      invariant blocks[i..] == bs[i..]
      invariant blocks[..i] == finalized[..i]
      invariant listId == StartsBefore(ListFlags(bs), AllJoin(|bs|), i)
      invariant currentListBlocks != [] <==> i > 0 && bs[i - 1].isListItem
    {
      assert blocks[i] == bs[i];
      listId, currentListBlocks := FinalizeStep(blocks, bs, levelAssignments, i, listId, currentListBlocks);
      assert blocks[..i + 1] == blocks[..i] + [finalized[i]];
    }
    assert blocks[..] == blocks[..blocks.Length];
  }

  /** One pass of the `_finalize_analysis` loop: block i is finalized and the run counter moves on. */
  method FinalizeStep(blocks: array<Block>, ghost bs: seq<Block>, levelAssignments: map<int, int>, i: nat,
                      listId: int, currentListBlocks: seq<int>)
    returns (nextListId: int, nextListBlocks: seq<int>)
    requires i < blocks.Length == |bs| && blocks[i] == bs[i]
    requires listId == StartsBefore(ListFlags(bs), AllJoin(|bs|), i)
    requires currentListBlocks != [] <==> i > 0 && bs[i - 1].isListItem
    modifies blocks
    ensures blocks[i] == FinalBlock(bs, levelAssignments, i)
    ensures forall j :: 0 <= j < blocks.Length && j != i ==> blocks[j] == old(blocks[j])
    ensures nextListId == StartsBefore(ListFlags(bs), AllJoin(|bs|), i + 1)
    ensures nextListBlocks != [] <==> bs[i].isListItem
  {
    StartsStep(bs, i);
    nextListId, nextListBlocks := listId, currentListBlocks;
    var block := blocks[i];
    if block.isListItem {
      if nextListBlocks == [] {
        nextListId := nextListId + 1;
      }
      nextListBlocks := nextListBlocks + [i];
      block := block.(listId := Some(nextListId));
      if i in levelAssignments {
        block := block.(level := Some(levelAssignments[i]));
      }
      blocks[i] := block;
    } else {
      nextListBlocks := [];
    }
  }

  /** A list item starts a run exactly when the block before it is not one. */
  lemma StartsStep(bs: seq<Block>, i: nat)
    requires i < |bs|
    ensures StartsBefore(ListFlags(bs), AllJoin(|bs|), i + 1)
      == StartsBefore(ListFlags(bs), AllJoin(|bs|), i) + (if bs[i].isListItem && (i == 0 || !bs[i - 1].isListItem) then 1 else 0)
  {
  }

  /** `_finalize_analysis` applied to a fresh array holding the blocks. */
  method FinalizeCopy(bs: seq<Block>, levelAssignments: map<int, int>) returns (result: seq<Block>)
    ensures result == Finalized(bs, levelAssignments)
  {
    var arr := new Block[|bs|](i requires 0 <= i < |bs| => bs[i]);
    assert arr[..] == bs;
    FinalizeAnalysis(arr, levelAssignments);
    result := arr[..];
  }

  /**
   * List ids are the 1-based positions of the groups `_group_lists` returns,
   * and blocks that are not list items are left as they were.
   */
  lemma FinalizedListIds(bs: seq<Block>, a: map<int, int>)
    ensures var gs := Groups(ListFlags(bs), AllJoin(|bs|));
      forall g, k :: 0 <= g < |gs| && 0 <= k < |gs[g]| ==>
        0 <= gs[g][k] < |bs| && Finalized(bs, a)[gs[g][k]].listId == Some(g + 1)
    ensures forall i :: 0 <= i < |bs| && !bs[i].isListItem ==> Finalized(bs, a)[i] == bs[i]
  {
    var el, jn := ListFlags(bs), AllJoin(|bs|);
    GroupsNumbered(el, jn);
    GroupsMaximal(el, jn);
    ListIdsOfGroups(bs, a, Groups(el, jn));
  }

  lemma ListIdsOfGroups(bs: seq<Block>, a: map<int, int>, gs: seq<seq<int>>)
    requires Numbered(ListFlags(bs), AllJoin(|bs|), gs)
    requires forall g :: 0 <= g < |gs| ==> Chain(ListFlags(bs), AllJoin(|bs|), gs[g])
    ensures forall g, k :: 0 <= g < |gs| && 0 <= k < |gs[g]| ==>
        0 <= gs[g][k] < |bs| && Finalized(bs, a)[gs[g][k]].listId == Some(g + 1)
  {
    var el, jn := ListFlags(bs), AllJoin(|bs|);
    forall g, k | 0 <= g < |gs| && 0 <= k < |gs[g]|
      ensures 0 <= gs[g][k] < |bs| && Finalized(bs, a)[gs[g][k]].listId == Some(g + 1)
    {
      var x := gs[g][k];
      assert Chain(el, jn, gs[g]);
      assert el[x];
      assert 0 <= x < |bs| && ListIdOf(bs, x) == g + 1;
      FinalBlockAt(bs, a, x);
    }
  }

  /** What `_finalize_analysis` writes into one list item. */
  lemma FinalBlockAt(bs: seq<Block>, a: map<int, int>, x: int)
    requires 0 <= x < |bs| && bs[x].isListItem
    ensures Finalized(bs, a)[x].listId == Some(ListIdOf(bs, x))
    ensures Finalized(bs, a)[x].level == if x in a then Some(a[x]) else bs[x].level
  {
  }

  /**
   * With the assignments `_assign_levels` makes for the groups, every list item
   * ends with its `BlockLevel`: the level inferred from its token, else its own
   * level or 0.
   */
  lemma FinalizedLevels(bs: seq<Block>, a: map<int, int>)
    requires LevelAssignment(bs, Groups(ListFlags(bs), AllJoin(|bs|)), a)
    ensures forall i :: 0 <= i < |bs| && bs[i].isListItem ==> Finalized(bs, a)[i].level == Some(BlockLevel(bs[i]))
  {
    var el, jn := ListFlags(bs), AllJoin(|bs|);
    GroupsMaximal(el, jn);
    LevelsOfGroups(bs, a, Groups(el, jn));
  }

  lemma LevelsOfGroups(bs: seq<Block>, a: map<int, int>, gs: seq<seq<int>>)
    requires forall g :: 0 <= g < |gs| ==> Chain(ListFlags(bs), AllJoin(|bs|), gs[g])
    requires Covers(ListFlags(bs), gs) && LevelAssignment(bs, gs, a)
    ensures forall i :: 0 <= i < |bs| && bs[i].isListItem ==> Finalized(bs, a)[i].level == Some(BlockLevel(bs[i]))
  {
    var el, jn := ListFlags(bs), AllJoin(|bs|);
    forall i | 0 <= i < |bs| && bs[i].isListItem ensures Finalized(bs, a)[i].level == Some(BlockLevel(bs[i])) {
      assert el[i];
      var g :| 0 <= g < |gs| && InRun(gs[g], i);
      LevelAt(bs, a, gs, g, i);
    }
  }

  /** A list item in the run of group g gets the level the assignment gives it. */
  lemma LevelAt(bs: seq<Block>, a: map<int, int>, gs: seq<seq<int>>, g: int, i: int)
    ensures 0 <= g < |gs| && Chain(ListFlags(bs), AllJoin(|bs|), gs[g]) && InRun(gs[g], i)
      && LevelAssignment(bs, gs, a) && 0 <= i < |bs| && bs[i].isListItem
      ==> Finalized(bs, a)[i].level == Some(BlockLevel(bs[i]))
  {
    if 0 <= g < |gs| && Chain(ListFlags(bs), AllJoin(|bs|), gs[g]) && InRun(gs[g], i)
      && LevelAssignment(bs, gs, a) && 0 <= i < |bs| && bs[i].isListItem
    {
      assert gs[g][i - gs[g][0]] == i;
      assert i in GroupedIndices(gs, |gs|);
      FinalBlockAt(bs, a, i);
    }
  }

  /**
   * `analyze_document` without the file and the report: every list item ends
   * with the id of its run and its `BlockLevel`, and every other block is the
   * block built for its paragraph.
   */
  method AnalyzeParagraphs(ps: seq<JsonParagraph>) returns (result: seq<Block>, groups: seq<seq<int>>)
    ensures |result| == |ps|
    ensures groups == Groups(ListFlags(EnhanceAll(ps)), AllJoin(|ps|))
    ensures forall g, k :: 0 <= g < |groups| && 0 <= k < |groups[g]| ==>
      0 <= groups[g][k] < |ps| && result[groups[g][k]].listId == Some(g + 1)
    ensures forall i :: 0 <= i < |ps| && EnhanceAll(ps)[i].isListItem ==>
      result[i].level == Some(BlockLevel(EnhanceAll(ps)[i]))
    ensures forall i :: 0 <= i < |ps| && !EnhanceAll(ps)[i].isListItem ==> result[i] == EnhanceAll(ps)[i]
    ensures forall i :: 0 <= i < |ps| && EnhanceAll(ps)[i].isListItem ==>
      result[i] == EnhanceAll(ps)[i].(listId := result[i].listId, level := result[i].level)
  {
    var bs := EnhanceBlocks(ps);
    groups := GroupLists(bs);
    GroupsNumbered(ListFlags(bs), AllJoin(|bs|));
    var assignments := AssignLevels(bs, groups);
    result := FinalizeCopy(bs, assignments);
    FinalizedListIds(bs, assignments);
    FinalizedLevels(bs, assignments);
  }
}
