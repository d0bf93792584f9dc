/**
 * The regular expressions of the numbering tables, each written as a predicate
 * on characters. Every pattern is applied with `re.match`, so it is anchored at
 * the start of the string and need not reach its end (a prefix match), except
 * where it ends in `$`, which in Python matches at the end of the string or just
 * before a final newline.
 */
module Patterns {
  import opened Wrappers
  import opened PyStr

  /** The number of leading characters of s that satisfy p. */
  function Leading(s: string, p: char -> bool): (n: nat)
    ensures n <= |s|
    ensures forall i :: 0 <= i < n ==> p(s[i])
    ensures n == |s| || !p(s[n])
  {
    if |s| > 0 && p(s[0]) then 1 + Leading(s[1..], p) else 0
  }

  predicate IsIvx(c: char) { c == 'i' || c == 'v' || c == 'x' }

  predicate IsUpperIvx(c: char) { c == 'I' || c == 'V' || c == 'X' }

  /** Python's `$` at position i. */
  predicate AtEnd(s: string, i: nat) {
    i == |s| || (i + 1 == |s| && s[i] == '\n')
  }

  /** `^\d+\.`: the whole leading run of digits is followed by a dot. */
  predicate NumDot(s: string) {
    var d := Leading(s, IsDigit);
    1 <= d < |s| && s[d] == '.'
  }

  /** What follows the first `\d+\.` of s. */
  function AfterNumDot(s: string): string
    requires NumDot(s)
  {
    s[Leading(s, IsDigit) + 1..]
  }

  /** `^C\.` for a one-character class C. */
  predicate CharDot(s: string, p: char -> bool) {
    |s| >= 2 && p(s[0]) && s[1] == '.'
  }

  /** `^(a|b|...)\.`: one of the alternatives, then a dot. */
  predicate AltDot(s: string, alts: seq<string>)
    decreases |alts|
  {
    |alts| > 0 && (StartsWith(s, alts[0] + ".") || AltDot(s, alts[1..]))
  }

  /** `^C+\.` followed by `tail` at the position after the dot. */
  predicate RunDot(s: string, p: char -> bool) {
    var n := Leading(s, p);
    1 <= n < |s| && s[n] == '.'
  }

  const UpperRomans: seq<string> := ["I", "II", "III", "IV", "V", "VI", "VII", "VIII", "IX", "X"]
  const LowerRomans: seq<string> := ["i", "ii", "iii", "iv", "v", "vi", "vii", "viii", "ix", "x"]
  const SmallRomans: seq<string> := ["i", "ii", "iii"]

  /** The patterns that occur in the scripts' tables. */
  datatype Pattern =
    | NumDotP                  // ^\d+\.
    | NumDotNumP               // ^\d+\.\d+
    | NumDotNumDotNumP         // ^\d+\.\d+\.\d+
    | UpperDotP                // ^[A-Z]\.
    | UpperDotNumP             // ^[A-Z]\.\d+
    | LowerDotP                // ^[a-z]\.
    | LowerDotNumP             // ^[a-z]\.\d+
    | UpperRomanDotP           // ^(I|II|III|IV|V|VI|VII|VIII|IX|X)\.
    | LowerRomanDotP           // ^(i|ii|iii|iv|v|vi|vii|viii|ix|x)\.
    | SmallRomanDotP           // ^(i|ii|iii)\.
    | NumDotZeroSpaceP         // ^\d+\.0\s
    | NumDotTwoDigitsSpaceP    // ^\d+\.\d{2}\s
    | UpperDotSpaceP           // ^[A-Z]\.\s
    | NumDotSpaceP             // ^\d+\.\s
    | LowerDotSpaceP           // ^[a-z]\.\s
    | IvxDotSpaceP             // ^[ivx]+\.\s
    | NumDotNumEndP            // ^\d+\.\d+$
    | NumDotEndP               // ^\d+\.$
    | UpperDotEndP             // ^[A-Z]\.$
    | LowerDotEndP             // ^[a-z]\.$
    | UpperIvxDotEndP          // ^[IVX]+\.$

  /** `re.match(pattern, s)` succeeds. */
  predicate Matches(p: Pattern, s: string) {
    match p
    case NumDotP => NumDot(s)
    case NumDotNumP => NumDot(s) && Leading(AfterNumDot(s), IsDigit) >= 1
    case NumDotNumDotNumP =>
      NumDot(s) && NumDot(AfterNumDot(s)) && Leading(AfterNumDot(AfterNumDot(s)), IsDigit) >= 1
    case UpperDotP => CharDot(s, IsUpper)
    case UpperDotNumP => CharDot(s, IsUpper) && |s| >= 3 && IsDigit(s[2])
    case LowerDotP => CharDot(s, IsLower)
    case LowerDotNumP => CharDot(s, IsLower) && |s| >= 3 && IsDigit(s[2])
    case UpperRomanDotP => AltDot(s, UpperRomans)
    case LowerRomanDotP => AltDot(s, LowerRomans)
    case SmallRomanDotP => AltDot(s, SmallRomans)
    case NumDotZeroSpaceP =>
      NumDot(s) && var t := AfterNumDot(s); |t| >= 2 && t[0] == '0' && IsSpace(t[1])
    case NumDotTwoDigitsSpaceP =>
      NumDot(s) && var t := AfterNumDot(s); |t| >= 3 && IsDigit(t[0]) && IsDigit(t[1]) && IsSpace(t[2])
    case UpperDotSpaceP => CharDot(s, IsUpper) && |s| >= 3 && IsSpace(s[2])
    case NumDotSpaceP => NumDot(s) && var t := AfterNumDot(s); |t| >= 1 && IsSpace(t[0])
    case LowerDotSpaceP => CharDot(s, IsLower) && |s| >= 3 && IsSpace(s[2])
    case IvxDotSpaceP => RunDot(s, IsIvx) && var n := Leading(s, IsIvx); n + 1 < |s| && IsSpace(s[n + 1])
    case NumDotNumEndP =>
      NumDot(s) && var t := AfterNumDot(s); var e := Leading(t, IsDigit); e >= 1 && AtEnd(t, e)
    case NumDotEndP => NumDot(s) && AtEnd(s, Leading(s, IsDigit) + 1)
    case UpperDotEndP => CharDot(s, IsUpper) && AtEnd(s, 2)
    case LowerDotEndP => CharDot(s, IsLower) && AtEnd(s, 2)
    case UpperIvxDotEndP => RunDot(s, IsUpperIvx) && AtEnd(s, Leading(s, IsUpperIvx) + 1)
  }

  /** Some pattern of the list matches (the inner loop of a format table). */
  predicate AnyMatches(ps: seq<Pattern>, s: string) {
    exists j :: 0 <= j < |ps| && Matches(ps[j], s)
  }

  /** A one-pattern list matches exactly when its pattern does. */
  lemma AnyMatchesSingle(p: Pattern, s: string)
    ensures AnyMatches([p], s) <==> Matches(p, s)
  {
    if Matches(p, s) { assert [p][0] == p; }
  }

  /** One step of the table lookup. */
  lemma FirstMatchStep<K>(table: seq<(K, seq<Pattern>)>, s: string)
    requires table != []
    ensures FirstMatch(table, s) == if AnyMatches(table[0].1, s) then Some(table[0].0) else FirstMatch(table[1..], s)
  {
  }

  /** Entry j of the table is the first whose patterns match s. */
  predicate FirstMatchingEntry<K>(table: seq<(K, seq<Pattern>)>, s: string, j: int) {
    0 <= j < |table| && AnyMatches(table[j].1, s)
    && forall k :: 0 <= k < j ==> !AnyMatches(table[k].1, s)
  }

  /**
   * The key of the first table entry one of whose patterns matches: the
   * `for fmt, patterns in table: for pattern in patterns: if re.match: return fmt`
   * lookup of the analyzers.
   */
  function FirstMatch<K>(table: seq<(K, seq<Pattern>)>, s: string): (r: Option<K>)
    ensures r.None? <==> forall j :: 0 <= j < |table| ==> !AnyMatches(table[j].1, s)
    ensures r.Some? ==> exists j :: FirstMatchingEntry(table, s, j) && table[j].0 == r.value
  {
    if table == [] then None
    else if AnyMatches(table[0].1, s) then
      assert FirstMatchingEntry(table, s, 0);
      Some(table[0].0)
    else
      var r := FirstMatch(table[1..], s);
      assert r.Some? ==> exists j :: FirstMatchingEntry(table[1..], s, j) && table[1..][j].0 == r.value;
      assert forall j :: FirstMatchingEntry(table[1..], s, j) ==> FirstMatchingEntry(table, s, j + 1);
      r
  }

  /**
   * The scan reading of `^\d+\.` is the regex's: some split point has only
   * digits before it and a dot at it. (Backtracking cannot find another split,
   * because a dot is not a digit.)
   */
  lemma NumDotMeaning(s: string)
    ensures NumDot(s) <==> exists k :: 1 <= k < |s| && (forall i :: 0 <= i < k ==> IsDigit(s[i])) && s[k] == '.'
  {
    var d := Leading(s, IsDigit);
    if exists k :: 1 <= k < |s| && (forall i :: 0 <= i < k ==> IsDigit(s[i])) && s[k] == '.' {
      var k :| 1 <= k < |s| && (forall i :: 0 <= i < k ==> IsDigit(s[i])) && s[k] == '.';
      assert !IsDigit(s[k]);
    }
  }

  /** `^(a|b|...)\.` matches iff the string starts with one of the alternatives and a dot. */
  lemma AltDotMeaning(s: string, alts: seq<string>)
    ensures AltDot(s, alts) <==> exists j :: 0 <= j < |alts| && StartsWith(s, alts[j] + ".")
    decreases |alts|
  {
    if |alts| > 0 {
      AltDotMeaning(s, alts[1..]);
      if AltDot(s, alts[1..]) {
        var j :| 0 <= j < |alts| - 1 && StartsWith(s, alts[1..][j] + ".");
        assert StartsWith(s, alts[j + 1] + ".");
      }
      if exists j :: 0 <= j < |alts| && StartsWith(s, alts[j] + ".") {
        var j :| 0 <= j < |alts| && StartsWith(s, alts[j] + ".");
        if j > 0 { assert alts[1..][j - 1] == alts[j]; }
      }
    }
  }

  /** No alternative can match when none begins with the string's first character. */
  lemma {:induction false} AltDotFirstChar(s: string, alts: seq<string>)
    requires |s| > 0 && forall j :: 0 <= j < |alts| ==> |alts[j]| > 0 && alts[j][0] != s[0]
    ensures !AltDot(s, alts)
    decreases |alts|
  {
    if |alts| > 0 {
      assert (alts[0] + ".")[0] == alts[0][0];
      AltDotFirstChar(s, alts[1..]);
    }
  }

  /** A pattern that ends in `\s` matches only a string that contains whitespace. */
  lemma SpacePatternsNeedSpace(p: Pattern, s: string)
    requires p in [NumDotZeroSpaceP, NumDotTwoDigitsSpaceP, UpperDotSpaceP, NumDotSpaceP, LowerDotSpaceP, IvxDotSpaceP]
    requires Matches(p, s)
    ensures exists i :: 0 <= i < |s| && IsSpace(s[i])
  {
    if p.NumDotZeroSpaceP? || p.NumDotTwoDigitsSpaceP? || p.NumDotSpaceP? {
      var d := Leading(s, IsDigit);
      var t := AfterNumDot(s);
      var k := if p.NumDotZeroSpaceP? then 1 else if p.NumDotTwoDigitsSpaceP? then 2 else 0;
      assert t[k] == s[d + 1 + k];
    } else if p.IvxDotSpaceP? {
      assert IsSpace(s[Leading(s, IsIvx) + 1]);
    } else {
      assert IsSpace(s[2]);
    }
  }
}
