/**
 * Grouping paragraphs into lists. Both analyzers walk the paragraphs once with
 * a `current_group` and a `list_groups` accumulator: an eligible paragraph
 * either extends the current group or starts a new one, and any other paragraph
 * closes it. `eligible[i]` says whether paragraph i can be in a list at all and
 * `joins[i]` whether it may continue the group of paragraph i-1.
 */
module ListRuns {

  /** The accumulators `(list_groups, current_group)` of the grouping loop. */
  datatype GroupState = GroupState(groups: seq<seq<int>>, current: seq<int>)

  /** One iteration of the grouping loop, for paragraph i. */
  function Step(st: GroupState, i: int, eligible: bool, joins: bool): GroupState {
    if eligible then
      if st.current != [] && joins then GroupState(st.groups, st.current + [i])
      else GroupState(if st.current != [] then st.groups + [st.current] else st.groups, [i])
    else if st.current != [] then GroupState(st.groups + [st.current], [])
    else st
  }

  /** The accumulators after the loop has seen paragraphs 0..m-1. */
  function StateAfter(el: seq<bool>, jn: seq<bool>, m: nat): GroupState
    requires |el| == |jn| && m <= |el|
  {
    if m == 0 then GroupState([], [])
    else Step(StateAfter(el, jn, m - 1), m - 1, el[m - 1], jn[m - 1])
  }

  /** The groups the loop returns: the closed ones and a final open one. */
  function Groups(el: seq<bool>, jn: seq<bool>): seq<seq<int>>
    requires |el| == |jn|
  {
    var st := StateAfter(el, jn, |el|);
    if st.current != [] then st.groups + [st.current] else st.groups
  }

  /** Paragraph j starts a group: it is eligible and cannot continue the previous one. */
  predicate GroupStart(el: seq<bool>, jn: seq<bool>, j: int)
    requires |el| == |jn| && 0 <= j < |el|
  {
    el[j] && (j == 0 || !el[j - 1] || !jn[j])
  }

  /** The number of group starts among paragraphs 0..m-1. */
  function StartsBefore(el: seq<bool>, jn: seq<bool>, m: nat): nat
    requires |el| == |jn| && m <= |el|
  {
    if m == 0 then 0
    else StartsBefore(el, jn, m - 1) + (if GroupStart(el, jn, m - 1) then 1 else 0)
  }

  function Last(run: seq<int>): int
    requires run != []
  {
    run[|run| - 1]
  }

  /** i is one of the (consecutive) indices of run. */
  predicate InRun(run: seq<int>, i: int) {
    run != [] && run[0] <= i <= Last(run)
  }

  /**
   * run is a group as the loop builds it: consecutive ascending indices of
   * eligible paragraphs, each after the first continuing its predecessor, and
   * the first one a group start.
   */
  predicate Chain(el: seq<bool>, jn: seq<bool>, run: seq<int>)
    requires |el| == |jn|
  {
    |run| > 0 && 0 <= run[0] && run[0] + |run| <= |el|
    && (forall k :: 0 <= k < |run| ==> run[k] == run[0] + k && el[run[k]])
    && (forall k :: 0 < k < |run| ==> jn[run[k]])
    && GroupStart(el, jn, run[0])
  }

  /** Nothing after the run could have continued it, within the first m paragraphs. */
  predicate EndsBy(el: seq<bool>, jn: seq<bool>, run: seq<int>, m: nat)
    requires |el| == |jn| && m <= |el| && run != []
  {
    0 <= Last(run) < m && (Last(run) + 1 == m || !el[Last(run) + 1] || !jn[Last(run) + 1])
  }

  /** The 1-based group number of paragraph i, counted by group starts. */
  function StartNumber(el: seq<bool>, jn: seq<bool>, i: nat): nat
    requires |el| == |jn| && i < |el|
  {
    StartsBefore(el, jn, i + 1)
  }

  /** The shape part of the loop invariant after m paragraphs. */
  predicate ShapeInv(el: seq<bool>, jn: seq<bool>, m: nat, st: GroupState)
    requires |el| == |jn| && m <= |el|
  {
    var gs := st.groups;
    var cur := st.current;
    (forall g :: 0 <= g < |gs| ==> Chain(el, jn, gs[g]) && EndsBy(el, jn, gs[g], m) && Last(gs[g]) + 1 < m)
    && (forall g :: 0 < g < |gs| ==> Last(gs[g - 1]) < gs[g][0])
    && (cur != [] <==> m > 0 && el[m - 1])
    && (cur != [] ==> Chain(el, jn, cur) && Last(cur) == m - 1 && (gs != [] ==> Last(gs[|gs| - 1]) < cur[0]))
  }

  /** The numbering part: group g (1-based g + 1) consists of paragraphs whose start number is g + 1. */
  predicate NumberInv(el: seq<bool>, jn: seq<bool>, m: nat, st: GroupState)
    requires |el| == |jn| && m <= |el|
  {
    var gs := st.groups;
    var cur := st.current;
    StartsBefore(el, jn, m) == |gs| + (if cur != [] then 1 else 0)
    && (forall g, k :: 0 <= g < |gs| && 0 <= k < |gs[g]| && 0 <= gs[g][k] < |el| ==> StartNumber(el, jn, gs[g][k]) == g + 1)
    && (forall k :: 0 <= k < |cur| && 0 <= cur[k] < |el| ==> StartNumber(el, jn, cur[k]) == |gs| + 1)
  }

  /** The covering part: every eligible paragraph seen so far is in the group its start number names. */
  predicate CoverInv(el: seq<bool>, jn: seq<bool>, m: nat, st: GroupState)
    requires |el| == |jn| && m <= |el|
  {
    var gs := st.groups;
    forall i :: 0 <= i < m && el[i] ==>
      var g := StartNumber(el, jn, i) - 1;
      (0 <= g < |gs| && InRun(gs[g], i)) || (g == |gs| && InRun(st.current, i))
  }

  predicate StateInv(el: seq<bool>, jn: seq<bool>, m: nat, st: GroupState)
    requires |el| == |jn| && m <= |el|
  {
    ShapeInv(el, jn, m, st) && NumberInv(el, jn, m, st) && CoverInv(el, jn, m, st)
  }

  // Each iteration keeps each part of the invariant; the three cases are the
  // three branches of the loop body.

  lemma OutShape(el: seq<bool>, jn: seq<bool>, m: nat, st: GroupState)
    requires |el| == |jn| && 0 < m <= |el|
    requires ShapeInv(el, jn, m - 1, st) && !el[m - 1]
    ensures ShapeInv(el, jn, m, Step(st, m - 1, el[m - 1], jn[m - 1]))
  {
    if st.current != [] {
      ClosedShape(el, jn, m, st);
    }
  }

  lemma OutNumber(el: seq<bool>, jn: seq<bool>, m: nat, st: GroupState)
    requires |el| == |jn| && 0 < m <= |el|
    requires ShapeInv(el, jn, m - 1, st) && NumberInv(el, jn, m - 1, st) && !el[m - 1]
    ensures NumberInv(el, jn, m, Step(st, m - 1, el[m - 1], jn[m - 1]))
  {
    assert !GroupStart(el, jn, m - 1);
    if st.current != [] {
      ClosedNumber(el, jn, m, st);
    }
  }

  lemma OutCover(el: seq<bool>, jn: seq<bool>, m: nat, st: GroupState)
    requires |el| == |jn| && 0 < m <= |el|
    requires CoverInv(el, jn, m - 1, st) && !el[m - 1]
    ensures CoverInv(el, jn, m, Step(st, m - 1, el[m - 1], jn[m - 1]))
  {
    if st.current != [] {
      ClosedCover(el, jn, m, st);
    }
  }

  lemma JoinShape(el: seq<bool>, jn: seq<bool>, m: nat, st: GroupState)
    requires |el| == |jn| && 0 < m <= |el|
    requires ShapeInv(el, jn, m - 1, st) && el[m - 1] && st.current != [] && jn[m - 1]
    ensures ShapeInv(el, jn, m, Step(st, m - 1, el[m - 1], jn[m - 1]))
  {
    var cur := st.current;
    var cur' := cur + [m - 1];
    assert Chain(el, jn, cur') by {
      forall k | 0 <= k < |cur'| ensures cur'[k] == cur'[0] + k && el[cur'[k]] {
        if k < |cur| { assert cur'[k] == cur[k]; }
      }
      forall k | 0 < k < |cur'| ensures jn[cur'[k]] {
        if k < |cur| { assert cur'[k] == cur[k]; }
      }
    }
  }

  lemma JoinNumber(el: seq<bool>, jn: seq<bool>, m: nat, st: GroupState)
    requires |el| == |jn| && 0 < m <= |el|
    requires ShapeInv(el, jn, m - 1, st) && NumberInv(el, jn, m - 1, st)
    requires el[m - 1] && st.current != [] && jn[m - 1]
    ensures NumberInv(el, jn, m, Step(st, m - 1, el[m - 1], jn[m - 1]))
  {
    var cur := st.current;
    var cur' := cur + [m - 1];
    assert !GroupStart(el, jn, m - 1);
    forall k | 0 <= k < |cur'| && 0 <= cur'[k] < |el| ensures StartNumber(el, jn, cur'[k]) == |st.groups| + 1 {
      if k < |cur| { assert cur'[k] == cur[k]; }
    }
  }

  lemma JoinCover(el: seq<bool>, jn: seq<bool>, m: nat, st: GroupState)
    requires |el| == |jn| && 1 < m <= |el|
    requires CoverInv(el, jn, m - 1, st)
    requires el[m - 2] && StartsBefore(el, jn, m - 1) == |st.groups| + 1
    requires el[m - 1] && st.current != [] && jn[m - 1] && Last(st.current) == m - 2
    ensures CoverInv(el, jn, m, Step(st, m - 1, el[m - 1], jn[m - 1]))
  {
    var cur' := st.current + [m - 1];
    assert !GroupStart(el, jn, m - 1);
    assert StartNumber(el, jn, m - 1) == |st.groups| + 1;
    assert InRun(cur', m - 1);
    forall j | 0 <= j < m - 1 && el[j] && StartNumber(el, jn, j) - 1 == |st.groups|
      ensures InRun(cur', j)
    {
      assert InRun(st.current, j);
    }
  }

  lemma StartShape(el: seq<bool>, jn: seq<bool>, m: nat, st: GroupState)
    requires |el| == |jn| && 0 < m <= |el|
    requires ShapeInv(el, jn, m - 1, st) && el[m - 1] && !(st.current != [] && jn[m - 1])
    ensures ShapeInv(el, jn, m, Step(st, m - 1, el[m - 1], jn[m - 1]))
  {
    assert GroupStart(el, jn, m - 1);
    if st.current != [] {
      ClosedShape(el, jn, m, st);
    }
  }

  lemma StartNumberInv(el: seq<bool>, jn: seq<bool>, m: nat, st: GroupState)
    requires |el| == |jn| && 0 < m <= |el|
    requires ShapeInv(el, jn, m - 1, st) && NumberInv(el, jn, m - 1, st)
    requires el[m - 1] && !(st.current != [] && jn[m - 1])
    ensures NumberInv(el, jn, m, Step(st, m - 1, el[m - 1], jn[m - 1]))
  {
    var st' := Step(st, m - 1, el[m - 1], jn[m - 1]);
    assert GroupStart(el, jn, m - 1);
    assert StartNumber(el, jn, m - 1) == StartsBefore(el, jn, m - 1) + 1;
    if st.current != [] {
      ClosedNumber(el, jn, m, st);
      assert st' == GroupState(st.groups + [st.current], [m - 1]);
    } else {
      assert st' == GroupState(st.groups, [m - 1]);
    }
  }

  lemma StartCover(el: seq<bool>, jn: seq<bool>, m: nat, st: GroupState)
    requires |el| == |jn| && 0 < m <= |el|
    requires CoverInv(el, jn, m - 1, st)
    requires StartsBefore(el, jn, m - 1) == |st.groups| + (if st.current != [] then 1 else 0)
    requires GroupStart(el, jn, m - 1)
    requires el[m - 1] && !(st.current != [] && jn[m - 1])
    ensures CoverInv(el, jn, m, Step(st, m - 1, el[m - 1], jn[m - 1]))
  {
    if st.current != [] {
      ClosedCover(el, jn, m, st);
    }
  }

  /** Appending the current group to the closed ones keeps their shape. */
  lemma ClosedShape(el: seq<bool>, jn: seq<bool>, m: nat, st: GroupState)
    requires |el| == |jn| && 0 < m <= |el|
    requires ShapeInv(el, jn, m - 1, st) && st.current != [] && (!el[m - 1] || !jn[m - 1])
    ensures var gs' := st.groups + [st.current];
      (forall g :: 0 <= g < |gs'| ==> Chain(el, jn, gs'[g]) && EndsBy(el, jn, gs'[g], m) && Last(gs'[g]) + 1 < m)
      && (forall g :: 0 < g < |gs'| ==> Last(gs'[g - 1]) < gs'[g][0])
  {
    var gs := st.groups;
    var gs' := gs + [st.current];
    forall g | 0 <= g < |gs'| ensures Chain(el, jn, gs'[g]) && EndsBy(el, jn, gs'[g], m) && Last(gs'[g]) + 1 < m {
      if g < |gs| { assert gs'[g] == gs[g]; }
    }
  }

  /** Appending the current group to the closed ones keeps their numbers. */
  lemma ClosedNumber(el: seq<bool>, jn: seq<bool>, m: nat, st: GroupState)
    requires |el| == |jn| && 0 < m <= |el|
    requires NumberInv(el, jn, m - 1, st) && st.current != []
    ensures var gs' := st.groups + [st.current];
      forall g, k :: 0 <= g < |gs'| && 0 <= k < |gs'[g]| && 0 <= gs'[g][k] < |el| ==> StartNumber(el, jn, gs'[g][k]) == g + 1
  {
    var gs := st.groups;
    var gs' := gs + [st.current];
    forall g, k | 0 <= g < |gs'| && 0 <= k < |gs'[g]| && 0 <= gs'[g][k] < |el| ensures StartNumber(el, jn, gs'[g][k]) == g + 1 {
      if g < |gs| { assert gs'[g] == gs[g]; }
    }
  }

  /** Appending the current group to the closed ones keeps every covered paragraph covered. */
  lemma ClosedCover(el: seq<bool>, jn: seq<bool>, m: nat, st: GroupState)
    requires |el| == |jn| && 0 < m <= |el|
    requires CoverInv(el, jn, m - 1, st) && st.current != []
    ensures var gs' := st.groups + [st.current];
      forall j :: 0 <= j < m - 1 && el[j] ==> var g := StartNumber(el, jn, j) - 1; 0 <= g < |gs'| && InRun(gs'[g], j)
  {
    var gs := st.groups;
    var gs' := gs + [st.current];
    forall j | 0 <= j < m - 1 && el[j] ensures var g := StartNumber(el, jn, j) - 1; 0 <= g < |gs'| && InRun(gs'[g], j) {
      var g := StartNumber(el, jn, j) - 1;
      if g < |gs| { assert gs'[g] == gs[g]; }
    }
  }

  lemma {:induction false} StateAfterInv(el: seq<bool>, jn: seq<bool>, m: nat)
    requires |el| == |jn| && m <= |el|
    ensures StateInv(el, jn, m, StateAfter(el, jn, m))
  {
    if m > 0 {
      StateAfterInv(el, jn, m - 1);
      var st := StateAfter(el, jn, m - 1);
      if !el[m - 1] {
        OutShape(el, jn, m, st);
        OutNumber(el, jn, m, st);
        OutCover(el, jn, m, st);
      } else if st.current != [] && jn[m - 1] {
        JoinShape(el, jn, m, st);
        JoinNumber(el, jn, m, st);
        assert m > 1 && el[m - 2] && Last(st.current) == m - 2;
        JoinCover(el, jn, m, st);
      } else {
        StartShape(el, jn, m, st);
        StartNumberInv(el, jn, m, st);
        assert GroupStart(el, jn, m - 1);
        StartCover(el, jn, m, st);
      }
    }
  }

  /**
   * gs is a partition of the eligible paragraphs into maximal groups: each
   * group is a run of consecutive eligible paragraphs that continue one
   * another, that starts at a group start and that nothing after it continues;
   * the groups come in ascending order and every eligible paragraph is in one.
   */
  predicate MaximalGroups(el: seq<bool>, jn: seq<bool>, gs: seq<seq<int>>)
    requires |el| == |jn|
  {
    (forall g :: 0 <= g < |gs| ==> Chain(el, jn, gs[g]) && EndsBy(el, jn, gs[g], |el|))
    && (forall g :: 0 < g < |gs| ==> Last(gs[g - 1]) < gs[g][0])
    && Covers(el, gs)
  }

  /** Every eligible paragraph is in (the span of) some group. */
  predicate Covers(el: seq<bool>, gs: seq<seq<int>>) {
    forall i :: 0 <= i < |el| && el[i] ==> exists g :: 0 <= g < |gs| && InRun(gs[g], i)
  }

  /** The groups returned for final accumulators st. */
  function Close(st: GroupState): seq<seq<int>> {
    if st.current != [] then st.groups + [st.current] else st.groups
  }

  lemma CloseShape(el: seq<bool>, jn: seq<bool>, st: GroupState)
    requires |el| == |jn| && ShapeInv(el, jn, |el|, st)
    ensures var gs := Close(st);
      (forall g :: 0 <= g < |gs| ==> Chain(el, jn, gs[g]) && EndsBy(el, jn, gs[g], |el|))
      && (forall g :: 0 < g < |gs| ==> Last(gs[g - 1]) < gs[g][0])
  {
    var gs := Close(st);
    forall g | 0 <= g < |gs| ensures Chain(el, jn, gs[g]) && EndsBy(el, jn, gs[g], |el|) {
      if g < |st.groups| { assert gs[g] == st.groups[g]; }
    }
  }

  lemma CloseCover(el: seq<bool>, jn: seq<bool>, st: GroupState)
    requires |el| == |jn| && CoverInv(el, jn, |el|, st)
    ensures var gs := Close(st);
      forall i :: 0 <= i < |el| && el[i] ==> exists g :: 0 <= g < |gs| && InRun(gs[g], i)
  {
    var gs := Close(st);
    forall i | 0 <= i < |el| && el[i] ensures exists g :: 0 <= g < |gs| && InRun(gs[g], i) {
      var g := StartNumber(el, jn, i) - 1;
      if g < |st.groups| { assert gs[g] == st.groups[g]; }
      assert InRun(gs[g], i);
    }
  }

  lemma CloseNumber(el: seq<bool>, jn: seq<bool>, st: GroupState)
    requires |el| == |jn| && ShapeInv(el, jn, |el|, st) && NumberInv(el, jn, |el|, st)
    ensures Numbered(el, jn, Close(st))
  {
    var gs := Close(st);
    forall g, k | 0 <= g < |gs| && 0 <= k < |gs[g]| ensures 0 <= gs[g][k] < |el| && StartNumber(el, jn, gs[g][k]) == g + 1 {
      if g < |st.groups| {
        assert gs[g] == st.groups[g];
        assert Chain(el, jn, st.groups[g]);
      } else {
        assert Chain(el, jn, st.current);
      }
    }
  }

  /** The loop's groups are the maximal groups. */
  lemma GroupsMaximal(el: seq<bool>, jn: seq<bool>)
    requires |el| == |jn|
    ensures MaximalGroups(el, jn, Groups(el, jn))
  {
    StateAfterInv(el, jn, |el|);
    var st := StateAfter(el, jn, |el|);
    assert Groups(el, jn) == Close(st);
    CloseShape(el, jn, st);
    CloseCover(el, jn, st);
  }

  /**
   * Group g (counting from 0) holds exactly the paragraphs before which g + 1
   * group starts occur, so the g-th group is the (g + 1)-th list and no
   * paragraph is in two groups.
   */
  lemma GroupsNumbered(el: seq<bool>, jn: seq<bool>)
    requires |el| == |jn|
    ensures Numbered(el, jn, Groups(el, jn)) && Disjoint(Groups(el, jn))
  {
    StateAfterInv(el, jn, |el|);
    var st := StateAfter(el, jn, |el|);
    var gs := Close(st);
    assert Groups(el, jn) == gs;
    CloseNumber(el, jn, st);
    CloseShape(el, jn, st);
    NumberedDisjoint(el, jn, gs);
  }

  /** Every paragraph of group g has start number g + 1. */
  predicate Numbered(el: seq<bool>, jn: seq<bool>, gs: seq<seq<int>>)
    requires |el| == |jn|
  {
    forall g, k :: 0 <= g < |gs| && 0 <= k < |gs[g]| ==> 0 <= gs[g][k] < |el| && StartNumber(el, jn, gs[g][k]) == g + 1
  }

  /** No index lies in the span of two groups. */
  ghost predicate Disjoint(gs: seq<seq<int>>) {
    forall g1, g2, i :: 0 <= g1 < |gs| && 0 <= g2 < |gs| && InRun(gs[g1], i) && InRun(gs[g2], i) ==> g1 == g2
  }

  /** Numbered groups of consecutive paragraphs are disjoint. */
  lemma NumberedDisjoint(el: seq<bool>, jn: seq<bool>, gs: seq<seq<int>>)
    requires |el| == |jn|
    requires forall g :: 0 <= g < |gs| ==> Chain(el, jn, gs[g])
    requires Numbered(el, jn, gs)
    ensures Disjoint(gs)
  {
    forall g1, g2, i | 0 <= g1 < |gs| && 0 <= g2 < |gs| && InRun(gs[g1], i) && InRun(gs[g2], i) ensures g1 == g2 {
      assert gs[g1][i - gs[g1][0]] == i;
      assert gs[g2][i - gs[g2][0]] == i;
    }
  }
}
