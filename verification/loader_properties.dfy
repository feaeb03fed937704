/**
 * Properties of a whole load, stated over the file's lines: which line
 * makes a load fail and why, what an accepted file installs, and how the
 * installed tables answer transition lookups.
 */
module LoaderProperties {
  import opened Wrappers
  import opened Text
  import opened Patterns
  import opened RuleTable
  import opened Loader

  /**
   * `b` is what reading the lines before index `j` produced, the first line
   * was the format tag, and line `j` (numbered `j + 1`) is still to come.
   */
  ghost predicate ReadUpTo(lines: seq<string>, j: nat, b: Builder) {
    && 1 <= j < |lines|
    && lines[0] == FormatTag
    && Run(lines, j) == Success(b)
  }

  /** A failure reached after any number of lines is the result of the whole load. */
  lemma {:induction false} RunFailureIsLoadFailure(lines: seq<string>, k: nat, e: LoadError)
    requires 1 <= k <= |lines| && lines[0] == FormatTag
    requires Run(lines, k) == Failure(e)
    ensures Parse(lines) == Failure(e)
  {
    FailurePersists(lines, k, |lines|);
  }

  /** One more line read: fold the next line into the builder. */
  lemma {:induction false} RunNext(lines: seq<string>, j: nat)
    requires 1 <= j < |lines|
    requires Run(lines, j).Success?
    ensures Run(lines, j + 1) == Step(Run(lines, j).value, lines[j], j + 1)
  {
  }

  /** A line that fails, after lines that all succeeded, ends the fold with its error. */
  lemma {:induction false} RunFailsAt(lines: seq<string>, j: nat, b: Builder, e: LoadError)
    requires 1 <= j < |lines| && Run(lines, j) == Success(b)
    requires Step(b, lines[j], j + 1) == Failure(e)
    ensures Run(lines, j + 1) == Failure(e)
  {
  }

  /**
   * Each header keyword, followed by white space, a number and optional
   * trailing white space, switches to its own section.
   */
  lemma {:induction false} HeaderSelectsSection(gap: string, digits: string, tail: string)
    requires |gap| >= 1 && AllSpace(gap)
    requires |digits| >= 1 && AllDigits(digits)
    requires AllSpace(tail)
    ensures Classify("state_number" + gap + digits + tail) == Header(StateSection)
    ensures Classify("general_number" + gap + digits + tail) == Header(GeneralSection)
    ensures Classify("rule_number" + gap + digits + tail) == Header(RuleSection)
  {
    var s := "state_number" + gap + digits + tail;
    var g := "general_number" + gap + digits + tail;
    var r := "rule_number" + gap + digits + tail;
    HeaderShape("state_number", gap, digits, tail);
    HeaderShape("general_number", gap, digits, tail);
    HeaderShape("rule_number", gap, digits, tail);
    assert s[0] == 's' && g[0] == 'g' && r[0] == 'r';
    assert !IsSpace(s[0]) && !IsSpace(g[0]) && !IsSpace(r[0]);
  }

  /**
   * A header keyword must start the line: a line that begins with white
   * space and is not blank is a record, whatever follows.
   */
  lemma {:induction false} IndentedLineIsRecord(line: string)
    requires |line| > 0 && IsSpace(line[0]) && !AllSpace(line)
    ensures Classify(line) == Record
  {
    // Each call settles one keyword by its first character, which keeps
    // the solver from unfolding the header scans.
    NotHeaderIfFirstDiffers(line, "state_number");
    NotHeaderIfFirstDiffers(line, "general_number");
    NotHeaderIfFirstDiffers(line, "rule_number");
  }

  /** A line of white space only, in any section, changes nothing. */
  lemma {:induction false} BlankLineSkipped(lines: seq<string>, j: nat, b: Builder)
    requires ReadUpTo(lines, j, b)
    requires AllSpace(lines[j])
    ensures Run(lines, j + 1) == Success(b)
  {
    RunNext(lines, j);
  }

  /** A record in the `general_number` section is accepted and ignored. */
  lemma {:induction false} GeneralRecordIgnored(lines: seq<string>, j: nat, b: Builder)
    requires ReadUpTo(lines, j, b)
    requires b.section == GeneralSection && Classify(lines[j]) == Record
    ensures Run(lines, j + 1) == Success(b)
  {
    RunNext(lines, j);
  }

  /** A first line other than `SL1rule` fails the load and leaves the engine as it was. */
  lemma {:induction false} BadFormatKeepsEngine(g: Engine, lines: seq<string>)
    requires |lines| == 0 || lines[0] != FormatTag
    ensures ReadLines(g, lines) == (g, Some(UnrecognizedFormat))
  {
  }

  /** Any failure anywhere leaves the engine's states, rules and map untouched. */
  lemma {:induction false} FailedLoadKeepsEngine(g: Engine, lines: seq<string>)
    requires Parse(lines).Failure?
    ensures ReadLines(g, lines).0 == g
  {
  }

  /** The active section is `Unset` exactly until the first header line. */
  lemma {:induction false} UnsetUntilHeader(lines: seq<string>, j: nat)
    requires 1 <= j <= |lines|
    requires Run(lines, j).Success?
    ensures Run(lines, j).value.section == Unset <==>
            forall i :: 1 <= i < j ==> !Classify(lines[i]).Header?
  {
    if j > 1 {
      UnsetUntilHeader(lines, j - 1);
      StepSection(Run(lines, j - 1).value, lines[j - 1], j);
      assert (forall i :: 1 <= i < j ==> !Classify(lines[i]).Header?) <==>
             (forall i :: 1 <= i < j - 1 ==> !Classify(lines[i]).Header?) && !Classify(lines[j - 1]).Header?;
    }
  }

  /** Only a header line changes the active section, and never back to `Unset`. */
  lemma {:induction false} StepSection(b: Builder, line: string, n: nat)
    requires Step(b, line, n).Success?
    ensures Classify(line).Header? ==> Step(b, line, n).value.section == Classify(line).section != Unset
    ensures !Classify(line).Header? ==> Step(b, line, n).value.section == b.section
  {
  }

  /** A record line before any header fails the load, naming its line. */
  lemma {:induction false} RecordBeforeHeaderRejected(lines: seq<string>, j: nat, b: Builder)
    requires ReadUpTo(lines, j, b)
    requires forall i :: 1 <= i < j ==> !Classify(lines[i]).Header?
    requires Classify(lines[j]) == Record
    ensures Parse(lines) == Failure(NoSection(j + 1))
  {
    UnsetUntilHeader(lines, j);
    RunNext(lines, j);
    RunFailureIsLoadFailure(lines, j + 1, NoSection(j + 1));
  }

  /** A state record whose name an earlier record declared fails, whatever its type. */
  lemma {:induction false} DuplicateNameRejected(lines: seq<string>, j: nat, b: Builder, f: StateFields)
    requires ReadUpTo(lines, j, b)
    requires b.section == StateSection && Classify(lines[j]) == Record
    requires MatchState(lines[j]) == Some(f)
    requires f.name in NamesOf(b.states)
    ensures Parse(lines) == Failure(DuplicateStateName(f.name, j + 1))
  {
    var e := DuplicateStateName(f.name, j + 1);
    assert Run(lines, j + 1) == Failure(e) by {
      RunKeepsInv(lines, j);
      StateStepDuplicateName(b, lines[j], j + 1, f);
      RunFailsAt(lines, j, b, e);
    }
    RunFailureIsLoadFailure(lines, j + 1, e);
  }

  /** A fresh name with a type other than `others` that an earlier record used fails. */
  lemma {:induction false} DuplicateTypeRejected(lines: seq<string>, j: nat, b: Builder, f: StateFields)
    requires ReadUpTo(lines, j, b)
    requires b.section == StateSection && Classify(lines[j]) == Record
    requires MatchState(lines[j]) == Some(f)
    requires f.name !in NamesOf(b.states)
    requires f.stateType != SharedType && f.stateType in TypesOf(b.states)
    ensures Parse(lines) == Failure(DuplicateStateType(f.stateType, j + 1))
  {
    var e := DuplicateStateType(f.stateType, j + 1);
    assert Run(lines, j + 1) == Failure(e) by {
      RunKeepsInv(lines, j);
      StateStepDuplicateType(b, lines[j], j + 1, f);
      RunFailsAt(lines, j, b, e);
    }
    RunFailureIsLoadFailure(lines, j + 1, e);
  }

  /**
   * A state record with a fresh name is accepted when its type is `others`
   * (however many states already have it) or has not been used yet; the
   * state is appended with its colours swapped.
   */
  lemma {:induction false} FreshStateAccepted(lines: seq<string>, j: nat, b: Builder, f: StateFields)
    requires ReadUpTo(lines, j, b)
    requires b.section == StateSection && Classify(lines[j]) == Record
    requires MatchState(lines[j]) == Some(f)
    requires f.name !in NamesOf(b.states)
    requires f.stateType == SharedType || f.stateType !in TypesOf(b.states)
    ensures Run(lines, j + 1).Success?
    ensures Run(lines, j + 1).value.states == b.states + [NewState(f)]
    ensures Run(lines, j + 1).value.rules == b.rules
  {
    RunKeepsInv(lines, j);
  }

  /**
   * A rule record whose operands were all declared on earlier lines and
   * whose neighbourhood is new is accepted: the rule is appended with zero
   * counts, and the states are left alone.
   */
  lemma {:induction false} FreshRuleAccepted(lines: seq<string>, j: nat, b: Builder, f: RuleFields)
    requires ReadUpTo(lines, j, b)
    requires b.section == RuleSection && Classify(lines[j]) == Record
    requires MatchRule(lines[j]) == Some(f)
    requires forall k :: 0 <= k < 4 ==> Operands(f)[k] in NamesOf(b.states)
    requires Key(f.left, f.current, f.right) !in KeysOf(b.rules)
    ensures Run(lines, j + 1).Success?
    ensures Run(lines, j + 1).value.states == b.states
    ensures Run(lines, j + 1).value.rules == b.rules + [Rule(f.left, f.current, f.right, f.next, 0, 0)]
  {
    assert FirstUndeclared(Operands(f), b.names).None? && Key(f.left, f.current, f.right) !in b.keys by {
      RunKeepsInv(lines, j);
    }
    RunNext(lines, j);
  }

  /**
   * A rule record naming a state that no EARLIER line declared stops the
   * reading on that line, reporting the first such operand in the order
   * left, current, right, next; `RunFailureIsLoadFailure` makes that the
   * result of the whole load. A declaration further down the file does not
   * help.
   */
  lemma {:induction false} UndeclaredOperandRejected(lines: seq<string>, j: nat, b: Builder, f: RuleFields)
    requires ReadUpTo(lines, j, b)
    requires b.section == RuleSection && Classify(lines[j]) == Record
    requires MatchRule(lines[j]) == Some(f)
    requires exists i :: 0 <= i < 4 && Operands(f)[i] !in NamesOf(b.states)
    ensures FirstUndeclared(Operands(f), NamesOf(b.states)).Some?
    ensures Run(lines, j + 1) == Failure(UndefinedState(FirstUndeclared(Operands(f), NamesOf(b.states)).value, j + 1))
  {
    var x := FirstUndeclared(Operands(f), NamesOf(b.states));
    assert x == FirstUndeclared(Operands(f), b.names) by {
      RunKeepsInv(lines, j);
    }
    RuleStepUndeclared(b, lines[j], j + 1, f, x.value);
    RunFailsAt(lines, j, b, UndefinedState(x.value, j + 1));
  }

  lemma {:induction false} RuleStepDuplicate(b: Builder, line: string, n: nat, f: RuleFields)
    requires b.section == RuleSection && Classify(line) == Record
    requires MatchRule(line) == Some(f)
    requires forall k :: 0 <= k < 4 ==> Operands(f)[k] in b.names
    requires Key(f.left, f.current, f.right) in b.keys
    ensures Step(b, line, n) == Failure(DuplicateRule(Key(f.left, f.current, f.right), n))
  {
  }

  lemma {:induction false} StateStepDuplicateName(b: Builder, line: string, n: nat, f: StateFields)
    requires b.section == StateSection && Classify(line) == Record
    requires MatchState(line) == Some(f)
    requires f.name in b.names
    ensures Step(b, line, n) == Failure(DuplicateStateName(f.name, n))
  {
  }

  lemma {:induction false} StateStepDuplicateType(b: Builder, line: string, n: nat, f: StateFields)
    requires b.section == StateSection && Classify(line) == Record
    requires MatchState(line) == Some(f)
    requires f.name !in b.names && f.stateType != SharedType && f.stateType in b.types
    ensures Step(b, line, n) == Failure(DuplicateStateType(f.stateType, n))
  {
  }

  lemma {:induction false} RuleStepUndeclared(b: Builder, line: string, n: nat, f: RuleFields, x: string)
    requires b.section == RuleSection && Classify(line) == Record
    requires MatchRule(line) == Some(f)
    requires FirstUndeclared(Operands(f), b.names) == Some(x)
    ensures Step(b, line, n) == Failure(UndefinedState(x, n))
  {
  }

  /**
   * A rule record whose neighbourhood an earlier rule record already used
   * stops the reading on this second record, whatever either record's next
   * state is; `RunFailureIsLoadFailure` makes that the result of the whole
   * load.
   */
  lemma {:induction false} DuplicateRuleRejected(lines: seq<string>, j: nat, b: Builder, f: RuleFields, i: nat)
    requires ReadUpTo(lines, j, b)
    requires b.section == RuleSection && Classify(lines[j]) == Record
    requires MatchRule(lines[j]) == Some(f)
    requires forall k :: 0 <= k < 4 ==> Operands(f)[k] in NamesOf(b.states)
    requires i < |b.rules| && KeyOf(b.rules[i]) == Key(f.left, f.current, f.right)
    ensures Run(lines, j + 1) == Failure(DuplicateRule(Key(f.left, f.current, f.right), j + 1))
  {
    assert Key(f.left, f.current, f.right) in b.keys && forall k :: 0 <= k < 4 ==> Operands(f)[k] in b.names by {
      RunKeepsInv(lines, j);
      assert KeyOf(b.rules[i]) in KeysOf(b.rules);
    }
    RuleStepDuplicate(b, lines[j], j + 1, f);
    RunFailsAt(lines, j, b, DuplicateRule(Key(f.left, f.current, f.right), j + 1));
  }

  /**
   * When reading succeeds up to line `k`, it succeeded at every earlier
   * line `j`, and what it had read by then is a prefix of what it has read
   * by `k`.
   */
  lemma {:induction false} RunGrows(lines: seq<string>, j: nat, k: nat)
    requires 1 <= j <= k <= |lines|
    requires Run(lines, k).Success?
    ensures Run(lines, j).Success?
    ensures Run(lines, j).value.states <= Run(lines, k).value.states
    ensures Run(lines, j).value.rules <= Run(lines, k).value.rules
    decreases k
  {
    if k > j {
      assert Run(lines, k - 1).Success?;
      StepGrows(Run(lines, k - 1).value, lines[k - 1], k);
      RunGrows(lines, j, k - 1);
    }
  }

  /**
   * Every rule read on the way to an accepted file is installed at its own
   * index, and looking up its neighbourhood yields its declared next state.
   */
  lemma {:induction false} ReadRuleIsInstalled(g: Engine, lines: seq<string>, k: nat, i: nat)
    requires ReadLines(g, lines).1.None?
    requires 1 <= k <= |lines| && Run(lines, k).Success?
    requires i < |Run(lines, k).value.rules|
    ensures i < |ReadLines(g, lines).0.rules|
    ensures ReadLines(g, lines).0.rules[i] == Run(lines, k).value.rules[i]
    ensures var rule := Run(lines, k).value.rules[i];
            SearchNextState(ReadLines(g, lines).0, rule.left, rule.current, rule.right).1
              == Success(Transition(rule.next, i))
  {
    RunGrows(lines, k, |lines|);
    LoadedRulesAreFound(g, lines, i);
  }

  /**
   * After the last line, the load succeeds exactly when every one of
   * `external, general, soldier, others, firing` was used as a type; when
   * it fails, the error lists exactly the unused ones. Other types are
   * allowed and play no part.
   */
  lemma {:induction false} MissingTypesReported(lines: seq<string>, b: Builder)
    requires |lines| >= 1 && lines[0] == FormatTag
    requires Run(lines, |lines|) == Success(b)
    ensures Parse(lines).Success? <==> forall t :: t in RequiredTypes ==> t in TypesOf(b.states)
    ensures Parse(lines).Failure? ==>
      && Parse(lines).error.MissingTypes?
      && |Parse(lines).error.types| > 0
      && forall t :: t in Parse(lines).error.types <==> t in RequiredTypes && t !in TypesOf(b.states)
  {
    RunKeepsInv(lines, |lines|);
    var missing := Missing(RequiredTypes, b.types);
    if missing != [] {
      assert missing[0] in missing;
    }
  }

  /**
   * An accepted file installs tables in which every rule read from the
   * file is found by `searchNextState` at its own index, yielding exactly
   * the next state the file gave it.
   */
  lemma {:induction false} LoadedRulesAreFound(g: Engine, lines: seq<string>, i: nat)
    requires ReadLines(g, lines).1.None?
    requires i < |ReadLines(g, lines).0.rules|
    ensures var e := ReadLines(g, lines).0;
            var rule := e.rules[i];
            SearchNextState(e, rule.left, rule.current, rule.right).1 == Success(Transition(rule.next, i))
  {
  }

  /**
   * The tables a successful load installs do not depend on the engine it
   * replaced: in particular every counter starts again from zero, however
   * far lookups had advanced them.
   */
  lemma {:induction false} ReloadForgetsPrevious(g1: Engine, g2: Engine, lines: seq<string>)
    requires ReadLines(g1, lines).1.None?
    ensures ReadLines(g2, lines) == ReadLines(g1, lines)
    ensures CountsZero(ReadLines(g2, lines).0.rules)
  {
  }

  /** A lookup between two loads only counts: the next load of the same file gives the same tables. */
  lemma {:induction false} LookupThenReload(g: Engine, lines: seq<string>, l: string, c: string, r: string)
    requires Valid(g)
    requires ReadLines(g, lines).1.None?
    ensures ReadLines(SearchNextState(g, l, c, r).0, lines) == ReadLines(g, lines)
  {
  }
}
