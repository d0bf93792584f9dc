/**
 * The fixed template rebuilder: the same paragraph fragments as the
 * template-based one, plus a per-level counter map kept while the paragraphs
 * are read, and a six-level constant numbering table.
 */
module FixedTemplateRebuilder {
  import opened Wrappers
  import opened Json
  import opened PyStr
  import opened Paragraphs
  import opened Seqs
  import opened TemplateBasedRebuilder

  // ---------------------------------------------------------------------
  // The counter map
  // ---------------------------------------------------------------------

  /** Lines 39-43: a level seen for the first time counts 1, otherwise its count goes up by one. */
  function Bump(counters: map<int, nat>, level: int): map<int, nat> {
    counters[level := if level in counters then counters[level] + 1 else 1]
  }

  /** Lines 45-48: the counts of the levels above the current one are dropped. */
  function DropAbove(counters: map<int, nat>, level: int): (r: map<int, nat>)
    ensures forall k :: k in r <==> k in counters && k <= level
  {
    map k | k in counters && k <= level :: counters[k]
  }

  /** The map restricted to the keys at most `level` and those still to be looked at. */
  function KeepBelowOr(m: map<int, nat>, level: int, pending: set<int>): map<int, nat> {
    map k | k in m && (k in pending || k <= level) :: m[k]
  }

  /** Looking at one more key of the key list: a key above `level` is deleted. */
  lemma {:induction false} KeepBelowOrStep(m: map<int, nat>, level: int, pending: set<int>, key: int)
    requires key in pending
    ensures KeepBelowOr(m, level, pending - {key})
      == if key > level then KeepBelowOr(m, level, pending) - {key} else KeepBelowOr(m, level, pending)
  {
  }

  lemma {:induction false} KeepBelowOrAll(m: map<int, nat>, level: int)
    ensures KeepBelowOr(m, level, m.Keys) == m
    ensures KeepBelowOr(m, level, {}) == DropAbove(m, level)
  {
  }

  /**
   * The counter update for one numbered paragraph at `level`: its count is set
   * to 1 or incremented, then every key above it is deleted, one key of the
   * map's key list at a time.
   */
  method UpdateCounters(counters: map<int, nat>, level: int) returns (updated: map<int, nat>)
    ensures updated == DropAbove(Bump(counters, level), level)
  {
    updated := counters;
    if level !in updated {
      updated := updated[level := 1];
    } else {
      updated := updated[level := updated[level] + 1];
    }
    ghost var bumped := updated;
    var keys := updated.Keys;
    KeepBelowOrAll(bumped, level);
    while keys != {}
      invariant updated == KeepBelowOr(bumped, level, keys)
      decreases |keys|
    {
      if !exists h :: h in keys { assert false; }
      var higher :| higher in keys;
      KeepBelowOrStep(bumped, level, keys, higher);
      if higher > level {
        updated := updated - {higher};
      }
      keys := keys - {higher};
    }
    KeepBelowOrAll(bumped, level);
  }

  /**
   * After the update every key is at most `level`, the count of `level` is 1
   * if it was absent and one more otherwise, and the keys below it keep their
   * counts.
   */
  lemma {:induction false} UpdateCountersEffect(counters: map<int, nat>, level: int)
    ensures var updated := DropAbove(Bump(counters, level), level);
      level in updated && updated[level] == (if level in counters then counters[level] + 1 else 1)
      && (forall k :: k in updated ==> k <= level)
      && (forall k :: k < level ==> (k in updated <==> k in counters) && (k in counters ==> updated[k] == counters[k]))
  {
  }

  /** The counter map after a sequence of numbered levels. */
  function CountersAfter(levels: seq<int>): map<int, nat>
    decreases |levels|
  {
    if levels == [] then map[]
    else
      var last := levels[|levels| - 1];
      DropAbove(Bump(CountersAfter(levels[..|levels| - 1]), last), last)
  }

  /**
   * How many times `level` occurs after the last level below it: the position
   * a paragraph at that level has in its current sublist.
   */
  function CountSince(levels: seq<int>, level: int): nat
    decreases |levels|
  {
    if levels == [] then 0
    else
      var last := levels[|levels| - 1];
      if last < level then 0
      else CountSince(levels[..|levels| - 1], level) + (if last == level then 1 else 0)
  }

  /**
   * The counter map counts each level's paragraphs since the last paragraph
   * at a lower level: a level has a count exactly when it occurred since then,
   * and the count is the number of those occurrences.
   */
  lemma {:induction false} CountersCountSince(levels: seq<int>, level: int)
    ensures level in CountersAfter(levels) <==> CountSince(levels, level) > 0
    ensures level in CountersAfter(levels) ==> CountersAfter(levels)[level] == CountSince(levels, level)
    decreases |levels|
  {
    if levels != [] {
      CountersCountSince(levels[..|levels| - 1], level);
    }
  }

  // ---------------------------------------------------------------------
  // create_document_xml
  // ---------------------------------------------------------------------

  /** A paragraph whose level takes part in the counter update: non-blank and numbered. */
  predicate Counted(p: JsonParagraph) {
    NonBlankJson(p) && JsonHasNumbering(p)
  }

  /**
   * A counted paragraph whose level is `null`: the key loop's first comparison
   * with `None` raises, so the script stops there.
   */
  predicate Crashes(p: JsonParagraph) {
    Counted(p) && p.level.Null?
  }

  /** `p.get('level', 0)` for a paragraph whose level is not `null`. */
  function LevelValue(p: JsonParagraph): int {
    match p.level
    case Present(v) => v
    case _ => 0
  }

  /** The levels the counter map sees, in order. */
  function CountedLevels(paragraphs: seq<JsonParagraph>): seq<int> {
    Map(LevelValue, Filter(paragraphs, Counted))
  }

  /** The counted levels of a prefix one paragraph longer. */
  lemma {:induction false} CountedLevelsStep(paragraphs: seq<JsonParagraph>, i: nat)
    requires i < |paragraphs|
    ensures CountedLevels(paragraphs[..i + 1])
      == CountedLevels(paragraphs[..i]) + (if Counted(paragraphs[i]) then [LevelValue(paragraphs[i])] else [])
  {
    var counted := Filter(paragraphs[..i], Counted);
    FilterPrefixStep(paragraphs, i, Counted);
    if Counted(paragraphs[i]) {
      MapSnoc(LevelValue, counted, paragraphs[i]);
    } else {
      assert Filter(paragraphs[..i + 1], Counted) == counted;
    }
  }

  /** The counter map after one more level. */
  lemma {:induction false} CountersAfterSnoc(levels: seq<int>, level: int)
    ensures CountersAfter(levels + [level]) == DropAbove(Bump(CountersAfter(levels), level), level)
  {
    assert (levels + [level])[..|levels|] == levels;
  }

  /** The counter map after reading a sequence of paragraphs. */
  function CountersOf(ps: seq<JsonParagraph>): map<int, nat> {
    CountersAfter(CountedLevels(ps))
  }

  /** The counter map after reading one more paragraph. */
  function NextCounters(counters: map<int, nat>, p: JsonParagraph): map<int, nat> {
    if Counted(p) then DropAbove(Bump(counters, LevelValue(p)), LevelValue(p)) else counters
  }

  /** The counters after a prefix one paragraph longer. */
  lemma {:induction false} CountersPrefixStep(paragraphs: seq<JsonParagraph>, i: nat)
    requires i < |paragraphs|
    ensures CountersOf(paragraphs[..i + 1]) == NextCounters(CountersOf(paragraphs[..i]), paragraphs[i])
  {
    var prev := CountedLevels(paragraphs[..i]);
    CountedLevelsStep(paragraphs, i);
    if Counted(paragraphs[i]) {
      CountersAfterSnoc(prev, LevelValue(paragraphs[i]));
    } else {
      assert CountedLevels(paragraphs[..i + 1]) == prev;
    }
  }

  /**
   * The error the key loop raises once a `null` level has been inserted: its
   * first comparison is `k > None` for the oldest key k, which is an earlier
   * (integer) level when there is one and the `None` itself otherwise.
   */
  function CrashMessage(counters: map<int, nat>): string {
    if counters == map[] then NoneComparedWithNone else IntComparedWithNone
  }

  const NoneComparedWithNone := "'>' not supported between instances of 'NoneType' and 'NoneType'"
  const IntComparedWithNone := "'>' not supported between instances of 'int' and 'NoneType'"

  /**
   * What one pass of the paragraph loop produces for paragraph `p`: the text
   * it appends to the body and the counter map after it, or the error that
   * stops the run.
   */
  function Step(p: JsonParagraph, counters: map<int, nat>): Result<(string, map<int, nat>), string> {
    if Crashes(p) then Failure(CrashMessage(counters))
    else Success((if NonBlankJson(p) then Fragment(p) else "", NextCounters(counters, p)))
  }

  /** The body and the counter map after reading `ps`, or the first error. */
  function ReadAll(ps: seq<JsonParagraph>): Result<(string, map<int, nat>), string>
    decreases |ps|
  {
    if ps == [] then Success(("", map[]))
    else
      var prev := ReadAll(ps[..|ps| - 1]);
      if prev.Failure? then prev
      else
        match Step(ps[|ps| - 1], prev.value.1)
        case Failure(e) => Failure(e)
        case Success(next) => Success((prev.value.0 + next.0, next.1))
  }

  /** Reading a prefix one paragraph longer. */
  lemma {:induction false} ReadAllStep(ps: seq<JsonParagraph>, i: nat)
    requires i < |ps|
    ensures ReadAll(ps[..i + 1]) ==
      if ReadAll(ps[..i]).Failure? then ReadAll(ps[..i])
      else match Step(ps[i], ReadAll(ps[..i]).value.1)
        case Failure(e) => Failure(e)
        case Success(next) => Success((ReadAll(ps[..i]).value.0 + next.0, next.1))
  {
    assert ps[..i + 1][..i] == ps[..i];
  }

  /** Once the run has stopped, reading more paragraphs does not restart it. */
  lemma {:induction false} ReadAllFailureSticks(ps: seq<JsonParagraph>, j: nat)
    requires j <= |ps| && ReadAll(ps[..j]).Failure?
    ensures ReadAll(ps) == ReadAll(ps[..j])
    decreases |ps| - j
  {
    if j == |ps| {
      assert ps[..j] == ps;
    } else {
      ReadAllStep(ps, j);
      ReadAllFailureSticks(ps, j + 1);
    }
  }

  /** The run stops at the last paragraph or before it exactly when it stopped before it or that one crashes. */
  lemma {:induction false} ReadAllFailsStep(ps: seq<JsonParagraph>)
    requires ps != []
    ensures ReadAll(ps).Failure? <==> ReadAll(ps[..|ps| - 1]).Failure? || Crashes(ps[|ps| - 1])
  {
    var prev := ReadAll(ps[..|ps| - 1]);
    if prev.Success? {
      var step := Step(ps[|ps| - 1], prev.value.1);
      StepFails(ps[|ps| - 1], prev.value.1);
      if step.Failure? {
        assert ReadAll(ps) == Failure(step.error);
      } else {
        assert ReadAll(ps) == Success((prev.value.0 + step.value.0, step.value.1));
      }
    }
  }

  lemma {:induction false} StepFails(p: JsonParagraph, counters: map<int, nat>)
    ensures Step(p, counters).Failure? <==> Crashes(p)
    ensures Crashes(p) && counters == map[] ==>
      Step(p, counters).error == NoneComparedWithNone
    ensures Crashes(p) && counters != map[] ==>
      Step(p, counters).error == IntComparedWithNone
  {
  }

  /** The counter map is empty exactly when no level has been counted. */
  lemma {:induction false} CountersEmpty(levels: seq<int>)
    ensures CountersAfter(levels) == map[] <==> levels == []
  {
    if levels != [] {
      UpdateCountersEffect(CountersAfter(levels[..|levels| - 1]), levels[|levels| - 1]);
    }
  }

  /**
   * The error a run stops with: a `null` level compared with itself when no
   * numbered paragraph came before, and with an earlier integer level otherwise.
   */
  lemma CrashMessageMeaning(ps: seq<JsonParagraph>, p: JsonParagraph)
    ensures ReadAll(ps).Success? && Crashes(p) && Count(ps, Counted) == 0 ==>
      ReadAll(ps + [p]) == Failure(NoneComparedWithNone)
    ensures ReadAll(ps).Success? && Crashes(p) && Count(ps, Counted) > 0 ==>
      ReadAll(ps + [p]) == Failure(IntComparedWithNone)
  {
    if ReadAll(ps).Success? && Crashes(p) {
      assert (ps + [p])[..|ps|] == ps;
      ReadAllSucceeds(ps);
      CountIsFilterLength(ps, Counted);
      CountersEmpty(CountedLevels(ps));
    }
  }

  /** The run fails exactly when some counted paragraph has a `null` level. */
  lemma {:induction false} ReadAllFails(ps: seq<JsonParagraph>)
    ensures ReadAll(ps).Failure? <==> Any(ps, Crashes)
    decreases |ps|
  {
    if ps != [] {
      var init := ps[..|ps| - 1];
      ReadAllFailsStep(ps);
      ReadAllFails(init);
      AnySnoc(ps, Crashes);
    }
  }

  /**
   * A run that does not fail yields the body of the non-blank paragraphs and
   * the counter map of the counted levels.
   */
  lemma {:induction false} ReadAllSucceeds(ps: seq<JsonParagraph>)
    requires ReadAll(ps).Success?
    ensures ReadAll(ps).value == (Body(ps), CountersOf(ps))
    decreases |ps|
  {
    if ps == [] {
      assert Body(ps) == "" && CountedLevels(ps) == [];
    } else {
      var i := |ps| - 1;
      assert ps[..i + 1] == ps;
      ReadAllSucceeds(ps[..i]);
      BodyStep(ps, i);
      CountersPrefixStep(ps, i);
    }
  }

  /**
   * The body of the paragraph loop for one paragraph: blank paragraphs add
   * nothing, numbered ones update the counters and add a numbered fragment,
   * the others add a plain fragment; a counted paragraph with a `null` level
   * stops the run.
   */
  method ParagraphStep(para: JsonParagraph, counters: map<int, nat>)
    returns (r: Result<(string, map<int, nat>), string>)
    ensures r == Step(para, counters)
  {
    var text := Strip(para.text);
    if text == "" {
      return Success(("", counters));
    }
    if Truthy(Get(para.listNumber)) || Truthy(Get(para.inferredNumber)) {
      var content := ShownOr(para.cleanedContent, text);
      var level;
      match para.level {
        case Null =>
          return Failure(CrashMessage(counters));
        case Absent =>
          level := 0;
        case Present(v) =>
          level := v;
      }
      var updated := UpdateCounters(counters, level);
      return Success((NumberedParagraphXml(content, LevelShown(para.level)), updated));
    }
    return Success((RegularParagraphXml(text), counters));
  }

  /**
   * `create_document_xml` of the fixed rebuilder: the paragraph loop computes
   * `ReadAll`, and the document wraps the body it yields.
   */
  method ReadParagraphs(paragraphs: seq<JsonParagraph>) returns (r: Result<(string, map<int, nat>), string>)
    ensures r == ReadAll(paragraphs)
  {
    var bodyContent := "";
    var currentNumbering: map<int, nat> := map[];
    for i := 0 to |paragraphs|
      invariant ReadAll(paragraphs[..i]) == Success((bodyContent, currentNumbering))
    {
      var step := ParagraphStep(paragraphs[i], currentNumbering);
      ReadAllStep(paragraphs, i);
      if step.Failure? {
        ReadAllFailureSticks(paragraphs, i + 1);
        return Failure(step.error);
      }
      bodyContent := bodyContent + step.value.0;
      currentNumbering := step.value.1;
    }
    assert paragraphs[..|paragraphs|] == paragraphs;
    r := Success((bodyContent, currentNumbering));
  }

  /**
   * `create_document_xml` of the fixed rebuilder: the fragments are those of
   * the template-based rebuilder, so the document is the same whenever no
   * counted paragraph has a `null` level; one that has fails the run.
   */
  method CreateDocumentXml(paragraphs: seq<JsonParagraph>) returns (r: Result<string, string>)
    ensures r.Failure? <==> Any(paragraphs, Crashes)
    ensures r.Success? ==> r.value == DocumentXml(Body(paragraphs))
  {
    var read := ReadParagraphs(paragraphs);
    ReadAllFails(paragraphs);
    if read.Failure? {
      return Failure(read.error);
    }
    ReadAllSucceeds(paragraphs);
    r := Success(DocumentXml(read.value.0));
  }

  // ---------------------------------------------------------------------
  // create_numbering_xml
  // ---------------------------------------------------------------------

  /** The six levels of the fixed rebuilder. */
  const FixedLevels: seq<LevelDef> := [
    StandardLevel(0, "decimal", "%1."),
    StandardLevel(1, "decimal", "%1.%2."),
    StandardLevel(2, "lowerLetter", "%3."),
    StandardLevel(3, "decimal", "%4."),
    StandardLevel(4, "lowerLetter", "%5."),
    StandardLevel(5, "lowerRoman", "%6.")
  ]

  /** `create_numbering_xml` of the fixed rebuilder. */
  function FixedNumberingXml(): string {
    NumberingXml(FixedLevels)
  }

  /**
   * The fixed table: six levels, the i-th at ilvl i with left indent
   * 720·(i+1) and hanging 360, formatted decimal, decimal, lowerLetter,
   * decimal, lowerLetter, lowerRoman.
   */
  lemma {:induction false} FixedLevelsShape()
    ensures |FixedLevels| == 6
    ensures forall i :: 0 <= i < 6 ==>
      FixedLevels[i].ilvl == i && FixedLevels[i].left == 720 * (i + 1) && FixedLevels[i].hanging == 360
    ensures Map((d: LevelDef) => d.numFmt, FixedLevels) == ["decimal", "decimal", "lowerLetter", "decimal", "lowerLetter", "lowerRoman"]
  {
  }
}
