/**
 * The pieces of Python's `str` semantics that the scripts rely on:
 * `str.isspace()` (which is also what `\s` matches in a `str` pattern),
 * `str.strip()`, `str.lower()`, `str(int)`, `s * n` and `sep.join(...)`.
 */
module PyStr {
  import opened Wrappers

  /** Python's `str.isspace()`: exactly the code points Python 3 treats as whitespace. */
  predicate IsSpace(c: char) {
    var n := c as int;
    (9 <= n <= 13) || (28 <= n <= 32) || n == 0x85 || n == 0xA0 || n == 0x1680
    || (0x2000 <= n <= 0x200A) || n == 0x2028 || n == 0x2029 || n == 0x202F
    || n == 0x205F || n == 0x3000
  }

  /** `\d` restricted to ASCII digits. */
  predicate IsDigit(c: char) { '0' <= c <= '9' }

  /** The character class `[A-Z]`. */
  predicate IsUpper(c: char) { 'A' <= c <= 'Z' }

  /** The character class `[a-z]`. */
  predicate IsLower(c: char) { 'a' <= c <= 'z' }

  /** `\w` restricted to ASCII: letters, digits and underscore. */
  predicate IsWordChar(c: char) { IsUpper(c) || IsLower(c) || IsDigit(c) || c == '_' }

  predicate AllSpace(s: string) {
    forall i :: 0 <= i < |s| ==> IsSpace(s[i])
  }

  predicate StartsWith(s: string, prefix: string) {
    |prefix| <= |s| && s[..|prefix|] == prefix
  }

  /** The number of whitespace characters s starts with. */
  function LeadingSpace(s: string): (n: nat)
    ensures n <= |s|
    ensures forall i :: 0 <= i < n ==> IsSpace(s[i])
    ensures n == |s| || !IsSpace(s[n])
    decreases |s|
  {
    if |s| > 0 && IsSpace(s[0]) then 1 + LeadingSpace(s[1..]) else 0
  }

  /** The number of whitespace characters s ends with. */
  function TrailingSpace(s: string): (n: nat)
    ensures n <= |s|
    ensures forall i :: |s| - n <= i < |s| ==> IsSpace(s[i])
    ensures n == |s| || !IsSpace(s[|s| - n - 1])
    decreases |s|
  {
    if |s| > 0 && IsSpace(s[|s| - 1]) then 1 + TrailingSpace(s[..|s| - 1]) else 0
  }

  /** `s.lstrip()` */
  function LStrip(s: string): string {
    s[LeadingSpace(s)..]
  }

  /** `s.rstrip()` */
  function RStrip(s: string): string {
    s[..|s| - TrailingSpace(s)]
  }

  /** `s.strip()` */
  function Strip(s: string): string {
    RStrip(LStrip(s))
  }

  /** A string is blank (`not s.strip()`) exactly when every character is whitespace. */
  lemma BlankIffAllSpace(s: string)
    ensures Strip(s) == [] <==> AllSpace(s)
  {
    var k := LeadingSpace(s);
    var l := LStrip(s);
    if Strip(s) == [] {
      assert TrailingSpace(l) == |l|;
    }
  }

  /** Stripping twice is stripping once: the result neither starts nor ends with whitespace. */
  lemma StripIdempotent(s: string)
    ensures Strip(Strip(s)) == Strip(s)
  {
    var l := LStrip(s);
    var t := RStrip(l);
    if t != [] {
      assert t[0] == l[0];
      assert LeadingSpace(t) == 0;
      assert LStrip(t) == t;
      assert t[|t| - 1] == l[|t| - 1];
      assert TrailingSpace(t) == 0;
    }
  }

  /** Leading whitespace is all that `lstrip` looks at. */
  lemma {:induction false} LStripSpacePrefix(gap: string, x: string)
    requires AllSpace(gap)
    ensures LStrip(gap + x) == LStrip(x)
    decreases |gap|
  {
    if gap != [] {
      assert (gap + x)[0] == gap[0];
      assert (gap + x)[1..] == gap[1..] + x;
      LStripSpacePrefix(gap[1..], x);
    } else {
      assert gap + x == x;
    }
  }

  /** Stripping after a left strip is stripping. */
  lemma StripAfterLStrip(s: string)
    ensures Strip(LStrip(s)) == Strip(s)
  {
    var l := LStrip(s);
    if l != [] {
      assert l[0] == s[LeadingSpace(s)];
    }
    assert LeadingSpace(l) == 0;
    assert LStrip(l) == l;
  }

  /** `s.lower()` restricted to ASCII letters. */
  function LowerChar(c: char): char {
    if IsUpper(c) then (c as int + 32) as char else c
  }

  function Lower(s: string): (r: string)
    ensures |r| == |s|
    ensures forall i :: 0 <= i < |s| ==> r[i] == LowerChar(s[i])
  {
    if s == [] then [] else [LowerChar(s[0])] + Lower(s[1..])
  }

  /** `s * n`: the string repeated n times, empty when n <= 0. */
  function Repeat(s: string, n: int): (r: string)
    ensures |r| == if n <= 0 then 0 else n * |s|
    decreases if n <= 0 then 0 else n
  {
    if n <= 0 then "" else s + Repeat(s, n - 1)
  }

  /** `"  " * n` is 2n spaces. */
  lemma {:induction false} RepeatTwoSpaces(n: int)
    ensures Repeat("  ", n) == seq(if n <= 0 then 0 else 2 * n, _ => ' ')
    decreases if n <= 0 then 0 else n
  {
    if n > 0 {
      RepeatTwoSpaces(n - 1);
    }
  }

  /** `sep.join(parts)` */
  function Join(parts: seq<string>, sep: string): string {
    if parts == [] then "" else if |parts| == 1 then parts[0] else parts[0] + sep + Join(parts[1..], sep)
  }
}
