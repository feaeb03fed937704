/**
 * `readLines` of cas.js (cas.js:42-196): the line-by-line reading and
 * checking of an `SL1rule` file, and the replacement of the engine's tables
 * when, and only when, the whole file is accepted.
 */
module Loader {
  import opened Wrappers
  import opened Text
  import opened Patterns
  import opened Colour
  import opened RuleTable

  /** The exact text the first line must have. */
  const FormatTag := "SL1rule"

  /** Which record parser is active; `Unset` is the initially undefined `parser`. */
  datatype Section = Unset | StateSection | GeneralSection | RuleSection

  /** How the loop of cas.js:64-83 treats one line. */
  datatype LineKind = Blank | Header(section: Section) | Record

  /**
   * The ways a load can fail, each carrying the 1-based line number where
   * the source's message does. `UnrecognizedFormat` and `NoSection` are the
   * failures the source reaches by calling the undefined `reject` and
   * `parser`.
   */
  datatype LoadError =
    | UnrecognizedFormat
    | NoSection(line: nat)
    | MalformedState(line: nat)
    | DuplicateStateName(name: string, line: nat)
    | DuplicateStateType(stateType: string, line: nat)
    | MalformedRule(line: nat)
    | UndefinedState(name: string, line: nat)
    | DuplicateRule(key: Key, line: nat)
    | MissingTypes(types: seq<string>)

  /**
   * The local variables of `readLines`: the active parser, the sets
   * `stateNames`, `usedStateTypes` and `definedRules`, and the arrays
   * `tempStates` and `tempRules`.
   */
  datatype Builder = Builder(
    section: Section,
    names: set<string>,
    types: set<string>,
    keys: set<Key>,
    states: seq<State>,
    rules: seq<Rule>)

  /** A checked rule file, ready to be installed. */
  datatype Table = Table(states: seq<State>, rules: seq<Rule>)

  /** The errors raised while reading one line; every one of them carries that line's number. */
  predicate LineError(e: LoadError) {
    !e.UnrecognizedFormat? && !e.MissingTypes?
  }

  function EmptyBuilder(): Builder {
    Builder(Unset, {}, {}, {}, [], [])
  }

  /** The header keyword that makes each record parser the active one. */
  function Keyword(s: Section): string
    requires s != Unset
  {
    match s
    case StateSection => "state_number"
    case GeneralSection => "general_number"
    case RuleSection => "rule_number"
  }

  /** Blank lines first, then the three headers in the source's order, else a record. */
  function Classify(line: string): LineKind {
    if AllSpace(line) then Blank
    else if IsHeader(line, "state_number") then Header(StateSection)
    else if IsHeader(line, "general_number") then Header(GeneralSection)
    else if IsHeader(line, "rule_number") then Header(RuleSection)
    else Record
  }

  /**
   * The state object built from a match. Both colours go through the
   * byte-pair swap, so swapping the stored colours again gives the text of
   * the record back.
   */
  function NewState(f: StateFields): (r: State)
    requires |f.fg| == 6 && |f.bg| == 6
    ensures r.name == f.name && r.stateType == f.stateType
    ensures |r.bgColor| == 6 && SwapPairs(r.bgColor) == f.bg
    ensures |r.fgColor| == 6 && SwapPairs(r.fgColor) == f.fg
  {
    SwapPairsInvolution(f.bg);
    SwapPairsInvolution(f.fg);
    State(f.name, f.stateType, SwapPairs(f.bg), SwapPairs(f.fg))
  }

  /** `stateParser` (cas.js:110-147): name check first, then type check. */
  function ParseState(b: Builder, line: string, n: nat): Result<Builder, LoadError> {
    match MatchState(line)
    case None => Failure(MalformedState(n))
    case Some(f) =>
      if f.name in b.names then Failure(DuplicateStateName(f.name, n))
      else if f.stateType != SharedType && f.stateType in b.types then Failure(DuplicateStateType(f.stateType, n))
      else Success(b.(names := b.names + {f.name},
                      types := b.types + {f.stateType},
                      states := b.states + [NewState(f)]))
  }

  /** The operand the `forEach` of cas.js:169-175 throws on: the first one not declared. */
  function FirstUndeclared(operands: seq<string>, declared: set<string>): (r: Option<string>)
    ensures r.None? <==> forall i :: 0 <= i < |operands| ==> operands[i] in declared
    ensures r.Some? ==> r.value !in declared && exists i :: 0 <= i < |operands| && operands[i] == r.value
                                                  && forall j :: 0 <= j < i ==> operands[j] in declared
  {
    if operands == [] then None
    else if operands[0] !in declared then Some(operands[0])
    else
      var r := FirstUndeclared(operands[1..], declared);
      if r.Some? then
        var i :| 0 <= i < |operands[1..]| && operands[1..][i] == r.value
                 && forall j :: 0 <= j < i ==> operands[1..][j] in declared;
        assert operands[i + 1] == r.value;
        assert forall j :: 0 <= j < i + 1 ==> operands[j] in declared by {
          forall j | 0 <= j < i + 1 ensures operands[j] in declared {
            if j > 0 { assert operands[j] == operands[1..][j - 1]; }
          }
        }
        r
      else
        assert forall i :: 1 <= i < |operands| ==> operands[i] == operands[1..][i - 1];
        r
  }

  function Operands(f: RuleFields): seq<string> {
    [f.left, f.current, f.right, f.next]
  }

  /** `ruleParser` (cas.js:153-195): operands must be declared, then the key must be new. */
  function ParseRule(b: Builder, line: string, n: nat): Result<Builder, LoadError> {
    match MatchRule(line)
    case None => Failure(MalformedRule(n))
    case Some(f) =>
      match FirstUndeclared(Operands(f), b.names)
      case Some(x) => Failure(UndefinedState(x, n))
      case None =>
        var key := Key(f.left, f.current, f.right);
        if key in b.keys then Failure(DuplicateRule(key, n))
        else Success(b.(keys := b.keys + {key},
                        rules := b.rules + [Rule(f.left, f.current, f.right, f.next, 0, 0)]))
  }

  /** One iteration of the loop of cas.js:64-83 on the line numbered `n`. */
  function Step(b: Builder, line: string, n: nat): Result<Builder, LoadError> {
    match Classify(line)
    case Blank => Success(b)
    case Header(s) => Success(b.(section := s))
    case Record =>
      match b.section
      case Unset => Failure(NoSection(n))
      case StateSection => ParseState(b, line, n)
      case GeneralSection => Success(b)
      case RuleSection => ParseRule(b, line, n)
  }

  /** The builder after the lines with indices 1 .. j-1, or the first failure among them. */
  function Run(lines: seq<string>, j: nat): Result<Builder, LoadError>
    requires 1 <= j <= |lines|
  {
    if j == 1 then Success(EmptyBuilder())
    else
      match Run(lines, j - 1)
      case Failure(e) => Failure(e)
      case Success(b) => Step(b, lines[j - 1], j)
  }

  /**
   * The three kinds of line: blank exactly when all white space, a header
   * only when the line is that section's header, and a record when it is
   * neither blank nor any header.
   */
  lemma ClassifyKinds(line: string)
    ensures Classify(line) == Blank <==> AllSpace(line)
    ensures Classify(line).Header? ==> && Classify(line).section != Unset
                                       && IsHeader(line, Keyword(Classify(line).section))
    ensures Classify(line) == Record <==> !AllSpace(line) && forall s :: s != Unset ==> !IsHeader(line, Keyword(s))
  {
  }

  /**
   * A state record is accepted exactly when it matches, its name is new and
   * its type is `others` or new; it then appends the state built from it.
   * Every rejection names the line.
   */
  lemma ParseStateOutcome(b: Builder, line: string, n: nat)
    ensures MatchState(line).None? ==> ParseState(b, line, n) == Failure(MalformedState(n))
    ensures ParseState(b, line, n).Failure? ==> && LineError(ParseState(b, line, n).error)
                                                && ParseState(b, line, n).error.line == n
    ensures ParseState(b, line, n).Success? <==>
              && MatchState(line).Some?
              && MatchState(line).value.name !in b.names
              && (MatchState(line).value.stateType == SharedType
                  || MatchState(line).value.stateType !in b.types)
    ensures ParseState(b, line, n).Success? ==>
              && ParseState(b, line, n).value.section == b.section
              && ParseState(b, line, n).value.states == b.states + [NewState(MatchState(line).value)]
              && ParseState(b, line, n).value.rules == b.rules
  {
  }

  /**
   * A rule record is accepted exactly when it matches, all four operands are
   * declared and its neighbourhood is new; it then appends the rule with
   * zero counts. Every rejection names the line.
   */
  lemma ParseRuleOutcome(b: Builder, line: string, n: nat)
    ensures MatchRule(line).None? ==> ParseRule(b, line, n) == Failure(MalformedRule(n))
    ensures ParseRule(b, line, n).Failure? ==> && LineError(ParseRule(b, line, n).error)
                                               && ParseRule(b, line, n).error.line == n
    ensures ParseRule(b, line, n).Success? <==>
              && MatchRule(line).Some?
              && (forall k :: 0 <= k < 4 ==> Operands(MatchRule(line).value)[k] in b.names)
              && Key(MatchRule(line).value.left, MatchRule(line).value.current,
                     MatchRule(line).value.right) !in b.keys
    ensures ParseRule(b, line, n).Success? ==>
              && ParseRule(b, line, n).value.section == b.section
              && ParseRule(b, line, n).value.states == b.states
              && var f := MatchRule(line).value;
                 ParseRule(b, line, n).value.rules == b.rules + [Rule(f.left, f.current, f.right, f.next, 0, 0)]
  {
  }

  /**
   * One line: blank lines and headers always pass and leave the tables
   * alone; only a record outside the `general_number` section can fail, and
   * the failure names the line.
   */
  lemma StepOutcome(b: Builder, line: string, n: nat)
    ensures Classify(line) != Record ==> && Step(b, line, n).Success?
                                         && Step(b, line, n).value.states == b.states
                                         && Step(b, line, n).value.rules == b.rules
    ensures Step(b, line, n).Failure? ==> && Classify(line) == Record
                                          && b.section != GeneralSection
                                          && LineError(Step(b, line, n).error)
                                          && Step(b, line, n).error.line == n
  {
  }

  /** An accepted line only appends: the states and rules read so far stay in front. */
  lemma StepGrows(b: Builder, line: string, n: nat)
    requires Step(b, line, n).Success?
    ensures b.states <= Step(b, line, n).value.states
    ensures b.rules <= Step(b, line, n).value.rules
  {
  }

  /** A failed reading names one of the lines it has read, numbered from 2. */
  lemma {:induction false} RunErrorLine(lines: seq<string>, j: nat)
    requires 1 <= j <= |lines|
    requires Run(lines, j).Failure?
    ensures LineError(Run(lines, j).error) && 2 <= Run(lines, j).error.line <= j
  {
    if Run(lines, j - 1).Failure? {
      RunErrorLine(lines, j - 1);
    } else {
      StepOutcome(Run(lines, j - 1).value, lines[j - 1], j);
    }
  }

  /** The required types no state used, in the order cas.js lists them. */
  function Missing(required: seq<string>, used: set<string>): (r: seq<string>)
    ensures forall t :: t in r <==> t in required && t !in used
    ensures |r| <= |required|
  {
    if required == [] then []
    else
      var rest := Missing(required[1..], used);
      assert forall t :: t in required <==> t == required[0] || t in required[1..];
      if required[0] in used then rest else [required[0]] + rest
  }

  /** What the builder's sets and lists have in common after every accepted line. */
  predicate BuilderInv(b: Builder) {
    && b.names == NamesOf(b.states)
    && b.types == TypesOf(b.states)
    && b.keys == KeysOf(b.rules)
    && NamesDistinct(b.states)
    && TypesDistinct(b.states)
    && KeysDistinct(b.rules)
    && OperandsDeclared(b.rules, b.names)
    && CountsZero(b.rules)
  }

  lemma StepKeepsInv(b: Builder, line: string, n: nat)
    requires BuilderInv(b)
    requires Step(b, line, n).Success?
    ensures BuilderInv(Step(b, line, n).value)
  {
    if Classify(line) == Record && b.section == StateSection {
      StateKeepsInv(b, line, n);
    } else if Classify(line) == Record && b.section == RuleSection {
      RuleKeepsInv(b, line, n);
    }
  }

  lemma StateKeepsInv(b: Builder, line: string, n: nat)
    requires BuilderInv(b)
    requires ParseState(b, line, n).Success?
    ensures BuilderInv(ParseState(b, line, n).value)
  {
    var f := MatchState(line).value;
    AppendState(b.states, NewState(f));
  }

  lemma RuleKeepsInv(b: Builder, line: string, n: nat)
    requires BuilderInv(b)
    requires ParseRule(b, line, n).Success?
    ensures BuilderInv(ParseRule(b, line, n).value)
  {
    var f := MatchRule(line).value;
    AppendRule(b.rules, Rule(f.left, f.current, f.right, f.next, 0, 0));
    assert FirstUndeclared(Operands(f), b.names).None?;
    assert Operands(f)[0] == f.left && Operands(f)[1] == f.current;
    assert Operands(f)[2] == f.right && Operands(f)[3] == f.next;
  }

  /** Every builder the fold reaches keeps the invariant. */
  lemma {:induction false} RunKeepsInv(lines: seq<string>, j: nat)
    requires 1 <= j <= |lines|
    requires Run(lines, j).Success?
    ensures BuilderInv(Run(lines, j).value)
  {
    if j > 1 {
      RunKeepsInv(lines, j - 1);
      StepKeepsInv(Run(lines, j - 1).value, lines[j - 1], j);
    }
  }

  /** Reading stops at the first failure: later lines cannot undo it. */
  lemma {:induction false} FailurePersists(lines: seq<string>, j: nat, k: nat)
    requires 1 <= j <= k <= |lines|
    requires Run(lines, j).Failure?
    ensures Run(lines, k) == Run(lines, j)
    decreases k
  {
    if k > j {
      FailurePersists(lines, j, k - 1);
    }
  }

  /** `readLines` without its final assignment to the globals. */
  function Parse(lines: seq<string>): (r: Result<Table, LoadError>)
    ensures |lines| == 0 || lines[0] != FormatTag ==> r == Failure(UnrecognizedFormat)
    ensures r.Success? ==> WellFormed(r.value.states, r.value.rules) && CountsZero(r.value.rules)
    ensures r.Success? ==> && lines[0] == FormatTag
                           && Run(lines, |lines|).Success?
                           && r.value.states == Run(lines, |lines|).value.states
                           && r.value.rules == Run(lines, |lines|).value.rules
  {
    if |lines| == 0 || lines[0] != FormatTag then Failure(UnrecognizedFormat)
    else
      match Run(lines, |lines|)
      case Failure(e) => Failure(e)
      case Success(b) =>
        var missing := Missing(RequiredTypes, b.types);
        if missing != [] then Failure(MissingTypes(missing))
        else
          RunKeepsInv(lines, |lines|);
          Success(Table(b.states, b.rules))
  }

  /**
   * `readLines` with the globals made explicit: the engine `g` is replaced
   * by the checked tables when the whole file is accepted, and returned
   * untouched otherwise.
   */
  function ReadLines(g: Engine, lines: seq<string>): (r: (Engine, Option<LoadError>))
    ensures r.1.Some? <==> Parse(lines).Failure?
    ensures r.1.Some? ==> r.0 == g && r.1.value == Parse(lines).error
    ensures r.1.None? ==>
      && Valid(r.0)
      && r.0.states == Parse(lines).value.states
      && r.0.rules == Parse(lines).value.rules
      && WellFormed(r.0.states, r.0.rules)
      && CountsZero(r.0.rules)
      && forall i :: 0 <= i < |r.0.rules| ==> r.0.ruleMap[KeyOf(r.0.rules[i])] == i
  {
    match Parse(lines)
    case Failure(e) => (g, Some(e))
    case Success(t) => (Install(t.states, t.rules), None)
  }
}
