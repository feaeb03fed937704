/**
 * The two record regular expressions of cas.js, written as matchers that
 * try the alternatives in the order JavaScript's backtracking engine does:
 * a greedy `\S{1,5}` tries five characters first, then four, ..., then one.
 */
module Patterns {
  import opened Wrappers
  import opened Text

  // ---------------------------------------------------------------------
  // State records: ^(\S{1,5})\s*@([0-9A-F]{6}),([0-9A-F]{6}),(\S+)$
  // ---------------------------------------------------------------------

  /** The named groups of a state-record match. */
  datatype StateFields = StateFields(name: string, fg: string, bg: string, stateType: string)

  /** `line` reads as name, white space `gap`, `@`, foreground, `,`, background, `,`, type. */
  ghost predicate IsStateLine(line: string, f: StateFields, gap: string) {
    && IsToken(f.name)
    && AllSpace(gap)
    && IsHex6(f.fg)
    && IsHex6(f.bg)
    && |f.stateType| >= 1 && NonSpace(f.stateType)
    && line == f.name + gap + "@" + f.fg + "," + f.bg + "," + f.stateType
  }

  /** The shapes of the four groups: what each part of the pattern admits. */
  predicate StateFieldShapes(f: StateFields) {
    IsToken(f.name) && IsHex6(f.fg) && IsHex6(f.bg) && |f.stateType| >= 1 && NonSpace(f.stateType)
  }

  /** The attempt with a name of exactly `k` characters. */
  function StateAt(line: string, k: nat): (r: Option<StateFields>)
    requires 1 <= k <= 5
    ensures r.Some? ==> StateFieldShapes(r.value) && |r.value.name| == k
  {
    if k <= |line| && NonSpace(line[..k]) then
      var p := SkipSpace(line, k);
      if && p + 16 <= |line|
         && line[p] == '@'
         && IsHex6(line[p + 1..p + 7])
         && line[p + 7] == ','
         && IsHex6(line[p + 8..p + 14])
         && line[p + 14] == ','
         && NonSpace(line[p + 15..])
      then Some(StateFields(line[..k], line[p + 1..p + 7], line[p + 8..p + 14], line[p + 15..]))
      else None
    else None
  }

  /** A successful attempt is a reading of the whole line. */
  lemma StateAtSound(line: string, k: nat)
    requires 1 <= k <= 5
    requires StateAt(line, k).Some?
    ensures IsStateLine(line, StateAt(line, k).value, line[k..SkipSpace(line, k)])
  {
  }

  /** Backtracking over the name length: `k`, then `k - 1`, ..., then 1. */
  function StateFrom(line: string, k: nat): (r: Option<StateFields>)
    requires k <= 5
    ensures r.Some? ==> StateFieldShapes(r.value) && |r.value.name| <= k
  {
    if k == 0 then None
    else
      var here := StateAt(line, k);
      if here.Some? then here else StateFrom(line, k - 1)
  }

  lemma {:induction false} StateFromSound(line: string, k: nat)
    requires k <= 5
    requires StateFrom(line, k).Some?
    ensures exists gap :: IsStateLine(line, StateFrom(line, k).value, gap)
    decreases k
  {
    if StateAt(line, k).Some? {
      StateAtSound(line, k);
    } else {
      StateFromSound(line, k - 1);
    }
  }

  /** `line.match(STATE_LINE_PATTERN)` of cas.js:111-114. */
  function MatchState(line: string): (r: Option<StateFields>)
    ensures r.Some? ==> StateFieldShapes(r.value)
  {
    StateFrom(line, 5)
  }

  /** Whatever the matcher returns is a reading of the whole line. */
  lemma MatchStateSound(line: string)
    requires MatchState(line).Some?
    ensures exists gap :: IsStateLine(line, MatchState(line).value, gap)
  {
    StateFromSound(line, 5);
  }

  /** Where each field of a state record sits in the line: `@` is at `|f.name| + |gap|`. */
  lemma StateLinePositions(line: string, f: StateFields, gap: string)
    requires IsStateLine(line, f, gap)
    ensures |line| == |f.name| + |gap| + 15 + |f.stateType|
    ensures line[..|f.name|] == f.name
    ensures line[|f.name|..|f.name| + |gap|] == gap
    ensures line[|f.name| + |gap|] == '@'
    ensures line[|f.name| + |gap| + 1..|f.name| + |gap| + 7] == f.fg
    ensures line[|f.name| + |gap| + 7] == ','
    ensures line[|f.name| + |gap| + 8..|f.name| + |gap| + 14] == f.bg
    ensures line[|f.name| + |gap| + 14] == ','
    ensures line[|f.name| + |gap| + 15..] == f.stateType
  {
  }

  /**
   * The state-record pattern is unambiguous: whenever a line can be read as
   * a state record at all, that reading is the one the matcher returns.
   * (A longer name would have to swallow the `@` and then stop inside the
   * foreground field, where `\s*@` cannot match.)
   */
  lemma {:induction false} StateLineUnique(line: string, f: StateFields, gap: string)
    requires IsStateLine(line, f, gap)
    ensures MatchState(line) == Some(f)
  {
    var t := |f.name|;
    StateAtFinds(line, f, gap);
    forall k | t < k <= 5
      ensures StateAt(line, k) == None
    {
      StateAtLongerFails(line, f, gap, k);
    }
    StateFromFinds(line, f, t, 5);
  }

  /** Backtracking reaches the attempt at `t` when every longer attempt fails. */
  lemma {:induction false} StateFromFinds(line: string, f: StateFields, t: nat, k: nat)
    requires 1 <= t <= k <= 5
    requires StateAt(line, t) == Some(f)
    requires forall k' :: t < k' <= k ==> StateAt(line, k') == None
    ensures StateFrom(line, k) == Some(f)
    decreases k
  {
    if k > t {
      StateFromFinds(line, f, t, k - 1);
    }
  }

  /** With the true name length, the single attempt succeeds with the true fields. */
  lemma StateAtFinds(line: string, f: StateFields, gap: string)
    requires IsStateLine(line, f, gap)
    ensures StateAt(line, |f.name|) == Some(f)
  {
    StateLinePositions(line, f, gap);
    var t, p := |f.name|, |f.name| + |gap|;
    SkipSpaceExact(line, t, p);
  }

  /** A name longer than the true one cannot lead to a match. */
  lemma StateAtLongerFails(line: string, f: StateFields, gap: string, k: nat)
    requires IsStateLine(line, f, gap)
    requires |f.name| < k <= 5
    ensures StateAt(line, k) == None
  {
    StateLinePositions(line, f, gap);
    var t := |f.name|;
    if k <= |line| && NonSpace(line[..k]) {
      assert line[..k][t] == line[t];
      assert |gap| == 0;
      assert line[k] == f.fg[k - t - 1];
      HexIsNotSpace(line[k]);
      SkipSpaceExact(line, k, k);
    }
  }

  // ---------------------------------------------------------------------
  // Rule records:
  // ^(\S{1,5})\s*##(\S{1,5})\s*##(\S{1,5})\s*->(\S{1,5})\s*$
  // ---------------------------------------------------------------------

  /** One `\S{1,5}\s*` piece of a rule line: the token and the white space after it. */
  datatype Seg = Seg(token: string, gap: string)

  /** The literal separators between the four rule operands. */
  const RuleSeparators: seq<string> := ["##", "##", "->"]

  /** Every separator is non-empty and starts with a non-space character. */
  predicate Separators(seps: seq<string>) {
    forall i :: 0 <= i < |seps| ==> |seps[i]| > 0 && !IsSpace(seps[i][0])
  }

  /** The text of a sequence of pieces joined by the separators. */
  function Render(segs: seq<Seg>, seps: seq<string>): string
    requires |segs| == |seps| + 1
    decreases |seps|
  {
    segs[0].token + segs[0].gap + if seps == [] then "" else seps[0] + Render(segs[1..], seps[1..])
  }

  /** `segs` is one way of reading `s` as tokens and gaps joined by `seps`. */
  ghost predicate IsParse(s: string, seps: seq<string>, segs: seq<Seg>) {
    && |segs| == |seps| + 1
    && (forall i :: 0 <= i < |segs| ==> IsToken(segs[i].token) && AllSpace(segs[i].gap))
    && Render(segs, seps) == s
  }

  /** Lexicographic order on token lengths: the order in which backtracking prefers readings. */
  ghost predicate PreferredOrEqual(a: seq<Seg>, b: seq<Seg>)
    requires |a| == |b|
  {
    if |a| == 0 then true
    else |a[0].token| > |b[0].token|
         || (|a[0].token| == |b[0].token| && PreferredOrEqual(a[1..], b[1..]))
  }

  /** The attempt with a first token of exactly `k` characters. */
  function MatchAt(s: string, seps: seq<string>, k: nat): (r: Option<seq<Seg>>)
    requires 1 <= k <= 5
    ensures r.Some? ==> |r.value| == |seps| + 1 && |r.value[0].token| == k
    decreases |seps|, k, 0
  {
    if k <= |s| && NonSpace(s[..k]) then
      var q := SkipSpace(s, k);
      if seps == [] then
        if q == |s| then Some([Seg(s[..k], s[k..])]) else None
      else if q + |seps[0]| <= |s| && s[q..q + |seps[0]|] == seps[0] then
        match MatchFrom(s[q + |seps[0]|..], seps[1..], 5)
        case Some(rest) => Some([Seg(s[..k], s[k..q])] + rest)
        case None => None
      else None
    else None
  }

  /**
   * Match `\S{1,5}\s*` sep_0 `\S{1,5}\s*` sep_1 ... `\S{1,5}\s*$` against `s`,
   * trying first-token lengths `k`, `k - 1`, ..., 1 in turn and, for each,
   * the rest of the pattern recursively from length 5.
   */
  function MatchFrom(s: string, seps: seq<string>, k: nat): (r: Option<seq<Seg>>)
    requires k <= 5
    ensures r.Some? ==> |r.value| == |seps| + 1 && |r.value[0].token| <= k
    decreases |seps|, k, 1
  {
    if k == 0 then None
    else
      var here := MatchAt(s, seps, k);
      if here.Some? then here else MatchFrom(s, seps, k - 1)
  }

  /** A successful attempt is a reading of the whole of `s`. */
  lemma {:induction false} MatchAtSound(s: string, seps: seq<string>, k: nat)
    requires 1 <= k <= 5
    ensures MatchAt(s, seps, k).Some? ==> IsParse(s, seps, MatchAt(s, seps, k).value)
    decreases |seps|, k, 0
  {
    if MatchAt(s, seps, k).Some? {
      var q := SkipSpace(s, k);
      if seps == [] {
        assert s[k..q] == s[k..] && s == s[..k] + s[k..];
      } else {
        var e := q + |seps[0]|;
        var s' := s[e..];
        MatchFromSound(s', seps[1..], 5);
        var rest := MatchFrom(s', seps[1..], 5).value;
        ParseCons(s[..k], s[k..q], seps[0], s', seps[1..], rest);
        Split4(s, k, q, e);
        assert [seps[0]] + seps[1..] == seps;
      }
    }
  }

  /** A token, its gap and a separator in front of a reading extend it by one piece. */
  lemma ParseCons(token: string, gap: string, sep: string, s: string, seps: seq<string>, segs: seq<Seg>)
    requires IsToken(token) && AllSpace(gap)
    requires IsParse(s, seps, segs)
    ensures IsParse(token + gap + sep + s, [sep] + seps, [Seg(token, gap)] + segs)
  {
  }

  /** Whatever the backtracking matcher returns is a reading of the whole of `s`. */
  lemma {:induction false} MatchFromSound(s: string, seps: seq<string>, k: nat)
    requires k <= 5
    ensures MatchFrom(s, seps, k).Some? ==> IsParse(s, seps, MatchFrom(s, seps, k).value)
    decreases |seps|, k, 1
  {
    if k > 0 {
      MatchAtSound(s, seps, k);
      MatchFromSound(s, seps, k - 1);
    }
  }

  /**
   * The matcher returns the reading JavaScript's backtracking reaches first:
   * whenever any reading exists, the matcher finds one, and it is preferred
   * to (or ties with) every other reading.
   */
  lemma {:induction false} MatchFromGreedy(s: string, seps: seq<string>, segs: seq<Seg>, k: nat)
    requires Separators(seps)
    requires IsParse(s, seps, segs)
    requires |segs[0].token| <= k <= 5
    ensures MatchFrom(s, seps, k).Some?
    ensures PreferredOrEqual(MatchFrom(s, seps, k).value, segs)
    decreases |seps|, k + 1
  {
    var r := MatchFrom(s, seps, k);
    if k > |segs[0].token| {
      if MatchAt(s, seps, k).None? {
        MatchFromGreedy(s, seps, segs, k - 1);
      }
    } else {
      MatchAtTrue(s, seps, segs);
    }
  }

  /** With the true first-token length, the attempt succeeds, keeps the first piece, and the rest is preferred. */
  lemma {:induction false} MatchAtTrue(s: string, seps: seq<string>, segs: seq<Seg>)
    requires Separators(seps)
    requires IsParse(s, seps, segs)
    ensures MatchAt(s, seps, |segs[0].token|).Some?
    ensures PreferredOrEqual(MatchAt(s, seps, |segs[0].token|).value, segs)
    decreases |seps|, 0
  {
    var tok, gap := segs[0].token, segs[0].gap;
    var t, q := |tok|, |tok| + |gap|;
    var tail := if seps == [] then "" else seps[0] + Render(segs[1..], seps[1..]);
    assert s == tok + gap + tail;
    Slices3(tok, gap, tail);
    if seps == [] {
      SkipSpaceExact(s, t, q);
    } else {
      var sep := seps[0];
      var s' := Render(segs[1..], seps[1..]);
      assert s == (tok + gap) + sep + s';
      Slices3(tok + gap, sep, s');
      assert s[q..q + |sep|] == sep && s[q + |sep|..] == s';
      assert s[q] == sep[0];
      SkipSpaceExact(s, t, q);
      SeparatorsTail(seps);
      assert IsParse(s', seps[1..], segs[1..]);
      MatchFromGreedy(s', seps[1..], segs[1..], 5);
      var rest := MatchFrom(s', seps[1..], 5).value;
      assert s[..t] == tok && s[t..q] == gap;
      assert MatchAt(s, seps, t) == Some([Seg(tok, gap)] + rest);
      assert ([Seg(tok, gap)] + rest)[1..] == rest;
    }
  }

  lemma SeparatorsTail(seps: seq<string>)
    requires Separators(seps) && seps != []
    ensures Separators(seps[1..])
  {
    forall i | 0 <= i < |seps[1..]|
      ensures |seps[1..][i]| > 0 && !IsSpace(seps[1..][i][0])
    {
      assert seps[1..][i] == seps[i + 1];
    }
  }

  /** The named groups of a rule-record match. */
  datatype RuleFields = RuleFields(left: string, current: string, right: string, next: string)

  /** `line` reads as a rule record with these operands. */
  ghost predicate IsRuleLine(line: string, f: RuleFields) {
    exists segs :: IsParse(line, RuleSeparators, segs) && RuleFieldsOf(segs) == f
  }

  function RuleFieldsOf(segs: seq<Seg>): RuleFields
    requires |segs| == 4
  {
    RuleFields(segs[0].token, segs[1].token, segs[2].token, segs[3].token)
  }

  /** `line.match(RULE_LINE_PATTERN)` of cas.js:154-157. */
  function MatchRule(line: string): (r: Option<RuleFields>)
    ensures r.Some? ==> IsToken(r.value.left) && IsToken(r.value.current)
                        && IsToken(r.value.right) && IsToken(r.value.next)
  {
    match MatchFrom(line, RuleSeparators, 5)
    case Some(segs) =>
      MatchFromSound(line, RuleSeparators, 5);
      Some(RuleFieldsOf(segs))
    case None => None
  }

  /** Whatever the matcher returns is a reading of the whole line. */
  lemma MatchRuleSound(line: string)
    requires MatchRule(line).Some?
    ensures IsRuleLine(line, MatchRule(line).value)
  {
    MatchFromSound(line, RuleSeparators, 5);
  }

  /**
   * Every line that can be read as a rule record is accepted, and the
   * operands returned are those of the reading with the longest left
   * operand, then the longest current operand, then the longest right one.
   */
  lemma RuleLineGreedy(line: string, segs: seq<Seg>)
    requires IsParse(line, RuleSeparators, segs)
    ensures MatchRule(line).Some?
    ensures PreferredOrEqual(MatchFrom(line, RuleSeparators, 5).value, segs)
  {
    MatchFromGreedy(line, RuleSeparators, segs, 5);
  }
}
