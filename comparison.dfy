/**
 * The text comparison validator: the lines extracted from a Word document
 * are compared position by position with the lines of a text file, each pair
 * judged by a cascade of ever looser cleanings (exact, whitespace-normalised,
 * letters-and-digits only), and the verdicts are tallied.
 */
module TextComparisonValidator {
  import opened Wrappers
  import opened PyStr
  import opened Seqs

  // ---------------------------------------------------------------------
  // clean_text_for_comparison
  // ---------------------------------------------------------------------

  /** `re.sub(r'\s+', ' ', s)`: every maximal run of whitespace becomes one space. */
  function CollapseSpace(s: string): (r: string)
    ensures |r| <= |s|
    ensures |r| == 0 <==> |s| == 0
    ensures |s| > 0 ==> (IsSpace(r[0]) <==> IsSpace(s[0]))
    decreases |s|
  {
    if s == [] then []
    else if IsSpace(s[0]) then [' '] + CollapseSpace(s[LeadingSpace(s)..])
    else [s[0]] + CollapseSpace(s[1..])
  }

  /** Whitespace occurs only as single plain spaces. */
  predicate Collapsed(t: string) {
    (forall i :: 0 <= i < |t| && IsSpace(t[i]) ==> t[i] == ' ')
    && (forall i :: 0 <= i < |t| - 1 ==> !(IsSpace(t[i]) && IsSpace(t[i + 1])))
  }

  /** Collapsed, and neither starting nor ending with whitespace. */
  predicate Normal(t: string) {
    Collapsed(t) && (t == [] || (!IsSpace(t[0]) && !IsSpace(t[|t| - 1])))
  }

  /** After the substitution no whitespace character other than a single space is left. */
  lemma {:induction false} CollapseSpaceCollapsed(s: string)
    ensures Collapsed(CollapseSpace(s))
    decreases |s|
  {
    if s != [] {
      if IsSpace(s[0]) {
        var rest := s[LeadingSpace(s)..];
        CollapseSpaceCollapsed(rest);
        var r := CollapseSpace(s);
        assert r == [' '] + CollapseSpace(rest);
        if rest != [] {
          assert !IsSpace(rest[0]);
        }
      } else {
        CollapseSpaceCollapsed(s[1..]);
      }
    }
  }

  lemma CollapsedSlice(t: string, i: nat, j: nat)
    requires Collapsed(t) && i <= j <= |t|
    ensures Collapsed(t[i..j])
  {
    var u := t[i..j];
    forall k | 0 <= k < |u| - 1
      ensures !(IsSpace(u[k]) && IsSpace(u[k + 1]))
    {
      assert u[k] == t[i + k] && u[k + 1] == t[i + k + 1];
    }
  }

  /** Stripping a collapsed string leaves it collapsed and without spaces at either end. */
  lemma StripNormal(t: string)
    requires Collapsed(t)
    ensures Normal(Strip(t))
  {
    var l := LStrip(t);
    CollapsedSlice(t, LeadingSpace(t), |t|);
    var r := RStrip(l);
    CollapsedSlice(l, 0, |l| - TrailingSpace(l));
    if r != [] {
      assert r[0] == l[0];
      assert r[|r| - 1] == l[|l| - TrailingSpace(l) - 1];
    }
  }

  /** The 'normalized_match' cleaning. */
  function Normalize(s: string): string {
    Strip(CollapseSpace(s))
  }

  /**
   * 'normalized_match' leaves single spaces between the words, none at either
   * end and no other whitespace character; in particular no newline or
   * carriage return is left for the two `replace` calls to change.
   */
  lemma NormalizeIsNormal(s: string)
    ensures Normal(Normalize(s))
    ensures forall i :: 0 <= i < |Normalize(s)| - 1 ==> !(Normalize(s)[i] == ' ' && Normalize(s)[i + 1] == ' ')
    ensures forall i :: 0 <= i < |Normalize(s)| ==> Normalize(s)[i] != '\n' && Normalize(s)[i] != '\r'
  {
    CollapseSpaceCollapsed(s);
    StripNormal(CollapseSpace(s));
  }

  /** A string that is already collapsed is left alone by the substitution. */
  lemma {:induction false} CollapseSpaceFixed(t: string)
    requires Collapsed(t)
    ensures CollapseSpace(t) == t
    decreases |t|
  {
    if t != [] {
      CollapsedSlice(t, 1, |t|);
      if IsSpace(t[0]) {
        if |t| > 1 {
          assert !IsSpace(t[1]);
        }
        assert LeadingSpace(t) == 1;
      }
      CollapseSpaceFixed(t[1..]);
    }
  }

  /** A normal string is its own normalisation. */
  lemma NormalFixed(t: string)
    requires Normal(t)
    ensures Normalize(t) == t
  {
    CollapseSpaceFixed(t);
    assert LeadingSpace(t) == 0;
    assert TrailingSpace(t) == 0;
  }

  /** Normalising twice is normalising once. */
  lemma NormalizeIdempotent(s: string)
    ensures Normalize(Normalize(s)) == Normalize(s)
  {
    NormalizeIsNormal(s);
    NormalFixed(Normalize(s));
  }

  /** The characters `[^\w\s]` does not match: word characters and whitespace. */
  predicate WordOrSpace(c: char) {
    IsWordChar(c) || IsSpace(c)
  }

  /** `re.sub(r'[^\w\s]', '', s)` */
  function StripPunctuation(s: string): (r: string)
    ensures forall i :: 0 <= i < |r| ==> WordOrSpace(r[i])
  {
    Filter(s, WordOrSpace)
  }

  /** The 'content_only_match' and 'fuzzy_match' cleaning. */
  function ContentOnly(s: string): string {
    Lower(Normalize(StripPunctuation(s)))
  }

  /** Lower-casing keeps a string normal: it turns letters into letters only. */
  lemma LowerNormal(t: string)
    requires Normal(t)
    ensures Normal(Lower(t))
  {
    var u := Lower(t);
    forall i | 0 <= i < |u|
      ensures IsSpace(u[i]) <==> IsSpace(t[i])
      ensures IsSpace(u[i]) ==> u[i] == t[i]
    {
      assert u[i] == LowerChar(t[i]);
    }
  }

  /** Only lower-case letters, digits, underscores and single inner spaces survive. */
  predicate ContentChars(t: string) {
    forall i :: 0 <= i < |t| ==> (IsWordChar(t[i]) && !IsUpper(t[i])) || t[i] == ' '
  }

  /** Normalising a string of word characters and whitespace yields one again. */
  lemma NormalizeKeepsChars(s: string)
    requires forall i :: 0 <= i < |s| ==> WordOrSpace(s[i])
    ensures forall i :: 0 <= i < |Normalize(s)| ==> WordOrSpace(Normalize(s)[i])
  {
    CollapseKeepsChars(s);
    var c := CollapseSpace(s);
    var l := LStrip(c);
    forall i | 0 <= i < |l| ensures WordOrSpace(l[i]) {
      assert l[i] == c[LeadingSpace(c) + i];
    }
  }

  lemma {:induction false} CollapseKeepsChars(s: string)
    requires forall i :: 0 <= i < |s| ==> WordOrSpace(s[i])
    ensures forall i :: 0 <= i < |CollapseSpace(s)| ==> WordOrSpace(CollapseSpace(s)[i])
    decreases |s|
  {
    if s != [] {
      var rest := if IsSpace(s[0]) then s[LeadingSpace(s)..] else s[1..];
      forall i | 0 <= i < |rest| ensures WordOrSpace(rest[i]) {
        assert rest[i] == s[|s| - |rest| + i];
      }
      CollapseKeepsChars(rest);
    }
  }

  /**
   * 'content_only_match' yields lower-case words of letters, digits and
   * underscores separated by single spaces, with no space at either end.
   */
  lemma ContentOnlyShape(s: string)
    ensures Normal(ContentOnly(s)) && ContentChars(ContentOnly(s))
  {
    var p := StripPunctuation(s);
    NormalizeIsNormal(p);
    NormalizeKeepsChars(p);
    var n := Normalize(p);
    LowerNormal(n);
    var u := Lower(n);
    forall i | 0 <= i < |u|
      ensures (IsWordChar(u[i]) && !IsUpper(u[i])) || u[i] == ' '
    {
      assert u[i] == LowerChar(n[i]);
    }
  }

  /** A string of content characters is left alone by the punctuation filter and by lower-casing. */
  lemma ContentCharsFixed(c: string)
    requires ContentChars(c)
    ensures StripPunctuation(c) == c
    ensures Lower(c) == c
  {
    forall i | 0 <= i < |c|
      ensures WordOrSpace(c[i]) && LowerChar(c[i]) == c[i]
    {
    }
    FilterAll(c, WordOrSpace);
  }

  /** Cleaning for content twice is cleaning once. */
  lemma ContentOnlyIdempotent(s: string)
    ensures ContentOnly(ContentOnly(s)) == ContentOnly(s)
  {
    var c := ContentOnly(s);
    ContentOnlyShape(s);
    ContentCharsFixed(c);
    NormalFixed(c);
    calc {
      ContentOnly(c);
      Lower(Normalize(StripPunctuation(c)));
      Lower(Normalize(c));
      Lower(c);
      c;
    }
  }

  /** The strategy names `clean_text_for_comparison` knows, and any other name. */
  datatype Strategy = ExactMatch | NormalizedMatch | ContentOnlyMatch | FuzzyMatch | OtherStrategy(name: string)

  /** `clean_text_for_comparison`: an unknown strategy name leaves the text as it is. */
  function CleanTextForComparison(text: string, strategy: Strategy): (r: string)
    ensures strategy == NormalizedMatch ==> Normal(r)
    ensures strategy == ContentOnlyMatch || strategy == FuzzyMatch ==> Normal(r) && ContentChars(r)
    ensures strategy.ExactMatch? || strategy.OtherStrategy? ==> r == text
  {
    match strategy
    case ExactMatch => text
    case NormalizedMatch =>
      NormalizeIsNormal(text);
      Normalize(text)
    case ContentOnlyMatch =>
      ContentOnlyShape(text);
      ContentOnly(text)
    case FuzzyMatch =>
      ContentOnlyShape(text);
      ContentOnly(text)
    case OtherStrategy(_) => text
  }

  // ---------------------------------------------------------------------
  // read_text_file
  // ---------------------------------------------------------------------

  /** A line with some non-whitespace character. */
  predicate NonBlankLine(line: string) {
    Strip(line) != ""
  }

  /**
   * The line loop of `read_text_file`: the stripped lines that are not empty,
   * in file order.
   */
  method ReadTextFile(lines: seq<string>) returns (textLines: seq<string>)
    ensures textLines == Map(Strip, Filter(lines, NonBlankLine))
  {
    textLines := [];
    for i := 0 to |lines|
      invariant textLines == Map(Strip, Filter(lines[..i], NonBlankLine))
    {
      FilterPrefixStep(lines, i, NonBlankLine);
      var strippedLine := Strip(lines[i]);
      if strippedLine != "" {
        MapSnoc(Strip, Filter(lines[..i], NonBlankLine), lines[i]);
        textLines := textLines + [strippedLine];
      }
    }
    assert lines[..|lines|] == lines;
  }

  /** Not empty, and no whitespace at either end. */
  predicate Trimmed(t: string) {
    t != "" && !IsSpace(t[0]) && !IsSpace(t[|t| - 1])
  }

  /**
   * The kept lines are the stripped non-blank lines, the k-th from the k-th
   * non-blank line of the file; none is empty or has whitespace at either end.
   */
  lemma TextLinesMeaning(lines: seq<string>)
    ensures var out := Map(Strip, Filter(lines, NonBlankLine)); var kept := KeptIndices(lines, NonBlankLine);
      |out| == Count(lines, NonBlankLine) == |kept|
      && forall k :: 0 <= k < |out| ==>
           kept[k] < |lines| && out[k] == Strip(lines[kept[k]]) && Trimmed(out[k])
  {
    MapFilterAt(Strip, lines, NonBlankLine);
    var kept := Filter(lines, NonBlankLine);
    var out := Map(Strip, kept);
    forall k | 0 <= k < |out|
      ensures Trimmed(out[k])
    {
      StripEnds(kept[k]);
    }
  }

  /** A stripped string that is not empty starts and ends with a non-whitespace character. */
  lemma StripEnds(s: string)
    requires NonBlankLine(s)
    ensures Trimmed(Strip(s))
  {
    var l := LStrip(s);
    assert Strip(s)[0] == l[0];
  }

  // ---------------------------------------------------------------------
  // extract_text_from_word
  // ---------------------------------------------------------------------

  /**
   * One paragraph object of the converter's JSON: its text and the texts of
   * its runs (an absent key reads as "").
   */
  datatype WordParagraph = WordParagraph(text: string, runs: seq<string>)

  /** The line a paragraph contributes: its stripped text, or else its stripped run texts joined. */
  function WordLine(p: WordParagraph): string {
    if Strip(p.text) != "" then Strip(p.text) else Strip(Flatten(p.runs))
  }

  predicate HasWordLine(p: WordParagraph) {
    WordLine(p) != ""
  }

  /** The run loop: the texts of the runs, concatenated in order. */
  method RunsText(runs: seq<string>) returns (runsText: string)
    ensures runsText == Flatten(runs)
  {
    runsText := "";
    for i := 0 to |runs|
      invariant runsText == Flatten(runs[..i])
    {
      assert runs[..i + 1] == runs[..i] + [runs[i]];
      FlattenSnoc(runs[..i], runs[i]);
      runsText := runsText + runs[i];
    }
    assert runs[..|runs|] == runs;
  }

  /**
   * The paragraph loop of `extract_text_from_word`: one line per paragraph
   * whose text, or failing that whose runs, hold some non-whitespace
   * character.
   */
  method ExtractTextFromWord(paragraphs: seq<WordParagraph>) returns (textLines: seq<string>)
    ensures textLines == Map(WordLine, Filter(paragraphs, HasWordLine))
  {
    textLines := [];
    for i := 0 to |paragraphs|
      invariant textLines == Map(WordLine, Filter(paragraphs[..i], HasWordLine))
    {
      FilterPrefixStep(paragraphs, i, HasWordLine);
      var paragraphText := Strip(paragraphs[i].text);
      if paragraphText == "" {
        var runsText := RunsText(paragraphs[i].runs);
        paragraphText := Strip(runsText);
      }
      if paragraphText != "" {
        MapSnoc(WordLine, Filter(paragraphs[..i], HasWordLine), paragraphs[i]);
        textLines := textLines + [paragraphText];
      }
    }
    assert paragraphs[..|paragraphs|] == paragraphs;
  }

  /**
   * The extracted lines are the lines of the paragraphs that have one, in
   * order; the text wins over the runs whenever it is not blank.
   */
  lemma WordLinesMeaning(paragraphs: seq<WordParagraph>)
    ensures var out := Map(WordLine, Filter(paragraphs, HasWordLine));
      var kept := KeptIndices(paragraphs, HasWordLine);
      |out| == Count(paragraphs, HasWordLine) == |kept|
      && forall k :: 0 <= k < |out| ==>
           kept[k] < |paragraphs| && out[k] != ""
           && (Strip(paragraphs[kept[k]].text) != "" ==> out[k] == Strip(paragraphs[kept[k]].text))
           && (Strip(paragraphs[kept[k]].text) == "" ==> out[k] == Strip(Flatten(paragraphs[kept[k]].runs)))
  {
    MapFilterAt(WordLine, paragraphs, HasWordLine);
  }

  // ---------------------------------------------------------------------
  // compare_texts
  // ---------------------------------------------------------------------

  /** The `TextComparison` dataclass: one line of the detailed report. */
  datatype TextComparison = TextComparison(
    wordText: string,
    textFileContent: string,
    lineNumber: int,
    isExactMatch: bool,
    differences: seq<string>)

  /**
   * The match percentage `(exact_matches + partial_matches) / total_lines`,
   * kept as its numerator and denominator; `Value` is the number it stands for.
   */
  datatype Ratio = Ratio(matched: nat, total: nat)

  /** `matched / total if total > 0 else 0`, as an exact fraction. */
  function Value(r: Ratio): real {
    if r.total > 0 then r.matched as real / r.total as real else 0.0
  }

  /** A fraction of at most its whole lies between 0 and 1. */
  lemma ValueBounds(r: Ratio)
    requires r.matched <= r.total
    ensures 0.0 <= Value(r) <= 1.0
    ensures Value(r) == 1.0 <==> r.total > 0 && r.matched == r.total
  {
    if r.total > 0 {
      var m, t := r.matched as real, r.total as real;
      assert Value(r) * t == m;
    }
  }

  /** The `ValidationResult` dataclass. */
  datatype ValidationResult = ValidationResult(
    totalLines: nat,
    exactMatches: nat,
    partialMatches: nat,
    mismatches: nat,
    matchPercentage: Ratio,
    details: seq<TextComparison>)

  /** Which tally a line position goes to. */
  datatype Verdict = Exact | WhitespaceDiffers | PunctuationDiffers | Mismatch

  predicate IsExact(v: Verdict) { v == Exact }
  predicate IsPartial(v: Verdict) { v == WhitespaceDiffers || v == PunctuationDiffers }
  predicate IsMismatch(v: Verdict) { v == Mismatch }

  /** The cascade for one pair of lines: exact, then normalised, then content only. */
  function Judge(wordText: string, textFileContent: string): Verdict {
    if wordText == textFileContent then Exact
    else if CleanTextForComparison(wordText, NormalizedMatch)
         == CleanTextForComparison(textFileContent, NormalizedMatch) then WhitespaceDiffers
    else if CleanTextForComparison(wordText, ContentOnlyMatch)
         == CleanTextForComparison(textFileContent, ContentOnlyMatch) then PunctuationDiffers
    else Mismatch
  }

  /** `s[:50]` */
  function Head50(s: string): string {
    if |s| <= 50 then s else s[..50]
  }

  /** The note a compared pair carries. */
  function Differences(v: Verdict, wordText: string, textFileContent: string): seq<string> {
    match v
    case Exact => []
    case WhitespaceDiffers => ["Normalized match (whitespace differences)"]
    case PunctuationDiffers => ["Content match (punctuation differences)"]
    case Mismatch => ["Word: '" + Head50(wordText) + "...' vs Text: '" + Head50(textFileContent) + "...'"]
  }

  /** The report line of a compared pair. */
  function PairComparison(wordText: string, textFileContent: string, lineNumber: int): TextComparison {
    var v := Judge(wordText, textFileContent);
    TextComparison(wordText, textFileContent, lineNumber, v == Exact, Differences(v, wordText, textFileContent))
  }

  function Max(a: nat, b: nat): nat {
    if a < b then b else a
  }

  /** The verdict at a line position; a line with no counterpart is a mismatch. */
  function VerdictAt(wordLines: seq<string>, textLines: seq<string>, i: nat): Verdict {
    if i < |wordLines| && i < |textLines| then Judge(wordLines[i], textLines[i]) else Mismatch
  }

  /** The report line at position i (numbered i + 1). */
  function DetailAt(wordLines: seq<string>, textLines: seq<string>, i: nat): TextComparison
    requires i < Max(|wordLines|, |textLines|)
  {
    if i < |wordLines| && i < |textLines| then PairComparison(wordLines[i], textLines[i], i + 1)
    else if i < |wordLines| then
      TextComparison(wordLines[i], "", i + 1, false, ["Extra line in Word document"])
    else
      TextComparison("", textLines[i], i + 1, false, ["Extra line in text file"])
  }

  function Verdicts(wordLines: seq<string>, textLines: seq<string>): (r: seq<Verdict>)
    ensures |r| == Max(|wordLines|, |textLines|)
  {
    seq(Max(|wordLines|, |textLines|), i requires 0 <= i => VerdictAt(wordLines, textLines, i))
  }

  function Details(wordLines: seq<string>, textLines: seq<string>): (r: seq<TextComparison>)
    ensures |r| == Max(|wordLines|, |textLines|)
  {
    seq(Max(|wordLines|, |textLines|), i requires 0 <= i < Max(|wordLines|, |textLines|) => DetailAt(wordLines, textLines, i))
  }

  /** The comparison of the common prefix, one pair at a time. */
  method ComparePairs(wordLines: seq<string>, textLines: seq<string>)
    returns (comparisons: seq<TextComparison>, exactMatches: nat, partialMatches: nat, mismatches: nat)
    ensures var n := if |wordLines| < |textLines| then |wordLines| else |textLines|;
      comparisons == Details(wordLines, textLines)[..n]
      && exactMatches == Count(Verdicts(wordLines, textLines)[..n], IsExact)
      && partialMatches == Count(Verdicts(wordLines, textLines)[..n], IsPartial)
      && mismatches == Count(Verdicts(wordLines, textLines)[..n], IsMismatch)
  {
    ghost var verdicts := Verdicts(wordLines, textLines);
    ghost var details := Details(wordLines, textLines);
    comparisons := [];
    exactMatches, partialMatches, mismatches := 0, 0, 0;
    var maxLines := if |wordLines| < |textLines| then |wordLines| else |textLines|;
    for i := 0 to maxLines
      invariant comparisons == details[..i]
      invariant exactMatches == Count(verdicts[..i], IsExact)
      invariant partialMatches == Count(verdicts[..i], IsPartial)
      invariant mismatches == Count(verdicts[..i], IsMismatch)
    {
      CountPrefixStep(verdicts, i, IsExact);
      CountPrefixStep(verdicts, i, IsPartial);
      CountPrefixStep(verdicts, i, IsMismatch);
      PairStep(wordLines, textLines, i);
      var comparison, verdict := ComparePair(wordLines[i], textLines[i], i + 1);
      exactMatches, partialMatches, mismatches := Tally(verdict, exactMatches, partialMatches, mismatches);
      comparisons := comparisons + [comparison];
    }
  }

  /** One verdict added to the tallies: exactly one of them goes up by one. */
  method Tally(verdict: Verdict, exactMatches0: nat, partialMatches0: nat, mismatches0: nat)
    returns (exactMatches: nat, partialMatches: nat, mismatches: nat)
    ensures exactMatches == exactMatches0 + (if IsExact(verdict) then 1 else 0)
    ensures partialMatches == partialMatches0 + (if IsPartial(verdict) then 1 else 0)
    ensures mismatches == mismatches0 + (if IsMismatch(verdict) then 1 else 0)
  {
    exactMatches, partialMatches, mismatches := exactMatches0, partialMatches0, mismatches0;
    match verdict {
      case Exact => exactMatches := exactMatches + 1;
      case WhitespaceDiffers => partialMatches := partialMatches + 1;
      case PunctuationDiffers => partialMatches := partialMatches + 1;
      case Mismatch => mismatches := mismatches + 1;
    }
  }

  /** The report and the verdicts at a position both sides have. */
  lemma PairStep(wordLines: seq<string>, textLines: seq<string>, i: nat)
    requires i < |wordLines| && i < |textLines|
    ensures Details(wordLines, textLines)[..i + 1]
      == Details(wordLines, textLines)[..i] + [PairComparison(wordLines[i], textLines[i], i + 1)]
    ensures Verdicts(wordLines, textLines)[i] == Judge(wordLines[i], textLines[i])
  {
    PrefixSnoc(Details(wordLines, textLines), i);
  }

  /** The report and the verdicts at a position only the Word side has. */
  lemma WordSurplusStep(wordLines: seq<string>, textLines: seq<string>, i: nat)
    requires |textLines| <= i < |wordLines|
    ensures Details(wordLines, textLines)[..i + 1]
      == Details(wordLines, textLines)[..i] + [TextComparison(wordLines[i], "", i + 1, false, ["Extra line in Word document"])]
    ensures Verdicts(wordLines, textLines)[i] == Mismatch
  {
    PrefixSnoc(Details(wordLines, textLines), i);
  }

  /** The report and the verdicts at a position only the text file has. */
  lemma TextSurplusStep(wordLines: seq<string>, textLines: seq<string>, i: nat)
    requires |wordLines| <= i < |textLines|
    ensures Details(wordLines, textLines)[..i + 1]
      == Details(wordLines, textLines)[..i] + [TextComparison("", textLines[i], i + 1, false, ["Extra line in text file"])]
    ensures Verdicts(wordLines, textLines)[i] == Mismatch
  {
    PrefixSnoc(Details(wordLines, textLines), i);
  }

  /**
   * The body of the paired-lines loop of `compare_texts`: the cascade for one
   * pair of lines and the report line it produces, specified by `Judge` and
   * `PairComparison`.
   */
  method ComparePair(wordText: string, textFileContent: string, lineNumber: int)
    returns (comparison: TextComparison, verdict: Verdict)
    ensures verdict == Judge(wordText, textFileContent)
    ensures comparison == PairComparison(wordText, textFileContent, lineNumber)
  {
    var isExactMatch := false;
    if wordText == textFileContent {
      isExactMatch := true;
      verdict := Exact;
    } else {
      var normalizedWord := CleanTextForComparison(wordText, NormalizedMatch);
      var normalizedText := CleanTextForComparison(textFileContent, NormalizedMatch);
      if normalizedWord == normalizedText {
        verdict := WhitespaceDiffers;
      } else {
        var contentWord := CleanTextForComparison(wordText, ContentOnlyMatch);
        var contentText := CleanTextForComparison(textFileContent, ContentOnlyMatch);
        if contentWord == contentText {
          verdict := PunctuationDiffers;
        } else {
          verdict := Mismatch;
        }
      }
    }
    var differences := Differences(verdict, wordText, textFileContent);
    comparison := TextComparison(wordText, textFileContent, lineNumber, isExactMatch, differences);
  }

  /** The surplus lines of the longer side, each a mismatch. */
  method CompareSurplus(wordLines: seq<string>, textLines: seq<string>, start: nat,
                        comparisons0: seq<TextComparison>, mismatches0: nat)
    returns (comparisons: seq<TextComparison>, mismatches: nat)
    requires start == (if |wordLines| < |textLines| then |wordLines| else |textLines|)
    requires comparisons0 == Details(wordLines, textLines)[..start]
    requires mismatches0 == Count(Verdicts(wordLines, textLines)[..start], IsMismatch)
    ensures comparisons == Details(wordLines, textLines)
    ensures mismatches == Count(Verdicts(wordLines, textLines), IsMismatch)
  {
    ghost var verdicts := Verdicts(wordLines, textLines);
    ghost var details := Details(wordLines, textLines);
    ghost var total := Max(|wordLines|, |textLines|);
    comparisons, mismatches := comparisons0, mismatches0;
    if |wordLines| > |textLines| {
      for i := |textLines| to |wordLines|
        invariant comparisons == details[..i]
        invariant mismatches == Count(verdicts[..i], IsMismatch)
      {
        CountPrefixStep(verdicts, i, IsMismatch);
        WordSurplusStep(wordLines, textLines, i);
        comparisons := comparisons + [TextComparison(wordLines[i], "", i + 1, false, ["Extra line in Word document"])];
        mismatches := mismatches + 1;
      }
    } else if |textLines| > |wordLines| {
      for i := |wordLines| to |textLines|
        invariant comparisons == details[..i]
        invariant mismatches == Count(verdicts[..i], IsMismatch)
      {
        CountPrefixStep(verdicts, i, IsMismatch);
        TextSurplusStep(wordLines, textLines, i);
        comparisons := comparisons + [TextComparison("", textLines[i], i + 1, false, ["Extra line in text file"])];
        mismatches := mismatches + 1;
      }
    }
    assert details[..total] == details && verdicts[..total] == verdicts;
  }

  /**
   * `compare_texts`: one report line per position of the longer side, and
   * each position counted once, in the tally of its verdict.
   */
  method CompareTexts(wordLines: seq<string>, textLines: seq<string>) returns (result: ValidationResult)
    ensures result.details == Details(wordLines, textLines)
    ensures result.totalLines == Max(|wordLines|, |textLines|)
    ensures result.exactMatches == Count(Verdicts(wordLines, textLines), IsExact)
    ensures result.partialMatches == Count(Verdicts(wordLines, textLines), IsPartial)
    ensures result.mismatches == Count(Verdicts(wordLines, textLines), IsMismatch)
    ensures result.matchPercentage == Ratio(result.exactMatches + result.partialMatches, result.totalLines)
  {
    var comparisons, exactMatches, partialMatches, mismatches := ComparePairs(wordLines, textLines);
    var start := if |wordLines| < |textLines| then |wordLines| else |textLines|;
    SurplusNotMatched(wordLines, textLines, start);
    comparisons, mismatches := CompareSurplus(wordLines, textLines, start, comparisons, mismatches);
    var totalLines := |comparisons|;
    result := ValidationResult(totalLines, exactMatches, partialMatches, mismatches,
      Ratio(exactMatches + partialMatches, totalLines), comparisons);
  }

  /** Past the shorter side no position is an exact or a partial match. */
  lemma SurplusNotMatched(wordLines: seq<string>, textLines: seq<string>, start: nat)
    requires start == (if |wordLines| < |textLines| then |wordLines| else |textLines|)
    ensures Count(Verdicts(wordLines, textLines), IsExact) == Count(Verdicts(wordLines, textLines)[..start], IsExact)
    ensures Count(Verdicts(wordLines, textLines), IsPartial) == Count(Verdicts(wordLines, textLines)[..start], IsPartial)
  {
    var verdicts := Verdicts(wordLines, textLines);
    CountNoneAfter(verdicts, start, IsExact);
    CountNoneAfter(verdicts, start, IsPartial);
  }

  lemma {:induction false} CountNoneAfter<T>(s: seq<T>, start: nat, p: T -> bool)
    requires start <= |s|
    requires forall i :: start <= i < |s| ==> !p(s[i])
    ensures Count(s, p) == Count(s[..start], p)
    decreases |s| - start
  {
    if start < |s| {
      CountNoneAfter(s, start + 1, p);
      CountPrefixStep(s, start, p);
    } else {
      assert s[..start] == s;
    }
  }

  /** Every position is counted in exactly one tally: the three add up to the number of report lines. */
  lemma {:induction false} TalliesAddUp(verdicts: seq<Verdict>)
    ensures Count(verdicts, IsExact) + Count(verdicts, IsPartial) + Count(verdicts, IsMismatch) == |verdicts|
    decreases |verdicts|
  {
    if verdicts != [] {
      TalliesAddUp(verdicts[..|verdicts| - 1]);
    }
  }

  /**
   * The match percentage of a comparison lies between 0 and 1, and is 1
   * exactly when there are lines and none of them is a mismatch.
   */
  lemma PercentageMeaning(wordLines: seq<string>, textLines: seq<string>)
    ensures var v := Verdicts(wordLines, textLines);
      var r := Ratio(Count(v, IsExact) + Count(v, IsPartial), |v|);
      0.0 <= Value(r) <= 1.0
      && (Value(r) == 1.0 <==> |v| > 0 && Count(v, IsMismatch) == 0)
  {
    var v := Verdicts(wordLines, textLines);
    TalliesAddUp(v);
    ValueBounds(Ratio(Count(v, IsExact) + Count(v, IsPartial), |v|));
  }

  /**
   * The report lines are numbered 1 to the line count in order; a line is an
   * exact match exactly when both sides have that position and the two lines
   * are equal; a position only one side has is a mismatch that carries that
   * side's line and an empty other side.
   */
  lemma DetailsMeaning(wordLines: seq<string>, textLines: seq<string>, i: nat)
    requires i < Max(|wordLines|, |textLines|)
    ensures var d := Details(wordLines, textLines)[i]; var v := Verdicts(wordLines, textLines)[i];
      |Details(wordLines, textLines)| == |Verdicts(wordLines, textLines)| == Max(|wordLines|, |textLines|)
      && d.lineNumber == i + 1
      && (i < |wordLines| && i < |textLines| ==> v == Judge(wordLines[i], textLines[i]))
      && (d.isExactMatch <==> i < |wordLines| && i < |textLines| && wordLines[i] == textLines[i])
      && (d.isExactMatch <==> IsExact(v))
      && (i < |wordLines| && i < |textLines| ==> d.wordText == wordLines[i] && d.textFileContent == textLines[i])
      && (i >= |textLines| ==> v == Mismatch && d.wordText == wordLines[i] && d.textFileContent == "")
      && (i >= |wordLines| ==> v == Mismatch && d.wordText == "" && d.textFileContent == textLines[i])
  {
  }

  /**
   * The cascade is ordered: a pair is a partial match only when it is not
   * exact, and a content match only when normalising whitespace did not make
   * the two sides equal.
   */
  lemma JudgeCascade(wordText: string, textFileContent: string)
    ensures Judge(wordText, textFileContent) == Exact <==> wordText == textFileContent
    ensures Judge(wordText, textFileContent) == WhitespaceDiffers <==>
      wordText != textFileContent && Normalize(wordText) == Normalize(textFileContent)
    ensures Judge(wordText, textFileContent) == PunctuationDiffers <==>
      Normalize(wordText) != Normalize(textFileContent) && ContentOnly(wordText) == ContentOnly(textFileContent)
    ensures Judge(wordText, textFileContent) == Mismatch ==> ContentOnly(wordText) != ContentOnly(textFileContent)
  {
  }
}
