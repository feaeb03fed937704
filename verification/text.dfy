/**
 * Character classes and small scanners used by the rule-file regular
 * expressions in cas.js: JavaScript's `\s`, `\S`, `\d` and `[0-9A-F]`.
 */
module Text {

  /** JavaScript's `\s`: the ECMAScript white-space and line-terminator code points. */
  predicate IsSpace(c: char) {
    || c == '\t' || c == '\n' || c == '\U{0B}' || c == '\U{0C}' || c == '\r' || c == ' '
    || c == '\U{A0}' || c == '\U{1680}' || ('\U{2000}' <= c <= '\U{200A}')
    || c == '\U{2028}' || c == '\U{2029}' || c == '\U{202F}' || c == '\U{205F}'
    || c == '\U{3000}' || c == '\U{FEFF}'
  }

  /** JavaScript's `\d` (ASCII digits only). */
  predicate IsDigit(c: char) {
    '0' <= c <= '9'
  }

  /** The class `[0-9A-F]` of the colour fields: upper-case hexadecimal digits. */
  predicate IsUpperHex(c: char) {
    '0' <= c <= '9' || 'A' <= c <= 'F'
  }

  /** `^\s*$`: every character is white space (the empty string included). */
  predicate AllSpace(s: string) {
    forall i :: 0 <= i < |s| ==> IsSpace(s[i])
  }

  /** Every character matches `\S`. */
  predicate NonSpace(s: string) {
    forall i :: 0 <= i < |s| ==> !IsSpace(s[i])
  }

  predicate AllDigits(s: string) {
    forall i :: 0 <= i < |s| ==> IsDigit(s[i])
  }

  /** `\S{1,5}`: the shape of state names and rule operands. */
  predicate IsToken(s: string) {
    1 <= |s| <= 5 && NonSpace(s)
  }

  /** `[0-9A-F]{6}`: one colour field of a state record. */
  predicate IsHex6(s: string) {
    |s| == 6 && forall i :: 0 <= i < |s| ==> IsUpperHex(s[i])
  }

  lemma HexIsNotSpace(c: char)
    requires IsUpperHex(c)
    ensures !IsSpace(c) && c != '@'
  {
  }

  /** Slicing a three-part concatenation gives back its parts. */
  lemma Slices3<T>(a: seq<T>, b: seq<T>, c: seq<T>)
    ensures (a + b + c)[..|a|] == a
    ensures (a + b + c)[|a|..|a| + |b|] == b
    ensures (a + b + c)[|a| + |b|..] == c
  {
  }

  /** Cutting a sequence at three points and joining the four pieces gives it back. */
  lemma Split4<T>(s: seq<T>, a: nat, b: nat, c: nat)
    requires a <= b <= c <= |s|
    ensures s == s[..a] + s[a..b] + s[b..c] + s[c..]
  {
    assert s[..a] + s[a..b] == s[..b];
    assert s[..b] + s[b..c] == s[..c];
  }

  /** The end of the white-space run starting at `p`: what a greedy `\s*` consumes from there. */
  function SkipSpace(s: string, p: nat): (q: nat)
    requires p <= |s|
    ensures p <= q <= |s|
    ensures AllSpace(s[p..q])
    ensures q == |s| || !IsSpace(s[q])
    decreases |s| - p
  {
    if p == |s| || !IsSpace(s[p]) then p else SkipSpace(s, p + 1)
  }

  /** The end of the digit run starting at `p`: what a greedy `\d*` consumes from there. */
  function SkipDigits(s: string, p: nat): (q: nat)
    requires p <= |s|
    ensures p <= q <= |s|
    ensures AllDigits(s[p..q])
    ensures q == |s| || !IsDigit(s[q])
    decreases |s| - p
  {
    if p == |s| || !IsDigit(s[p]) then p else SkipDigits(s, p + 1)
  }

  /** A white-space run that ends at `q` is exactly the run `SkipSpace` finds. */
  lemma SkipSpaceExact(s: string, p: nat, q: nat)
    requires p <= q <= |s|
    requires AllSpace(s[p..q])
    requires q == |s| || !IsSpace(s[q])
    ensures SkipSpace(s, p) == q
  {
  }

  /**
   * `^<keyword>\s+\d+\s*$`, as used for the section headers. Since a digit
   * is not white space and white space is not a digit, the greedy `\s+` and
   * `\d+` must each take their whole run, so one scan decides the match.
   */
  predicate IsHeader(line: string, keyword: string) {
    && |keyword| <= |line|
    && line[..|keyword|] == keyword
    && var p := SkipSpace(line, |keyword|);
       && p > |keyword|
       && var d := SkipDigits(line, p);
          d > p && AllSpace(line[d..])
  }

  /**
   * The header test in declarative form: the line is the keyword, a
   * non-empty white-space run, a non-empty digit run and trailing white
   * space, and nothing else.
   */
  lemma {:induction false} HeaderShape(keyword: string, gap: string, digits: string, tail: string)
    requires |gap| >= 1 && AllSpace(gap)
    requires |digits| >= 1 && AllDigits(digits)
    requires AllSpace(tail)
    ensures IsHeader(keyword + gap + digits + tail, keyword)
  {
    var line := keyword + gap + digits + tail;
    var k := |keyword|;
    var p := k + |gap|;
    var d := p + |digits|;
    assert line[..k] == keyword;
    assert line[k..p] == gap;
    assert p < |line| && line[p] == digits[0];
    SkipSpaceExact(line, k, p);
    assert line[p..d] == digits;
    assert line[d..] == tail;
  }

  /**
   * The converse of `HeaderShape`: a header is the keyword at column 0,
   * then a white-space run, a digit run and trailing white space.
   */
  lemma {:induction false} HeaderParts(line: string, keyword: string)
    requires IsHeader(line, keyword)
    ensures |keyword| <= |line| && line[..|keyword|] == keyword
    ensures exists gap, digits, tail ::
              && |gap| >= 1 && AllSpace(gap)
              && |digits| >= 1 && AllDigits(digits)
              && AllSpace(tail)
              && line == keyword + gap + digits + tail
  {
    var k := |keyword|;
    var p := SkipSpace(line, k);
    var d := SkipDigits(line, p);
    var gap, digits, tail := line[k..p], line[p..d], line[d..];
    assert line == line[..k] + line[k..p] + line[p..d] + line[d..];
    assert line == keyword + gap + digits + tail;
  }

  /** A line whose first character differs from the keyword's is not that keyword's header. */
  lemma NotHeaderIfFirstDiffers(line: string, keyword: string)
    requires |keyword| > 0 && |line| > 0 && line[0] != keyword[0]
    ensures !IsHeader(line, keyword)
  {
    if |keyword| <= |line| {
      assert line[..|keyword|][0] == line[0];
    }
  }
}
