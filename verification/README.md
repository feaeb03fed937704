# SL1 rule engine: loader and transition lookup

This project models the rule engine of the one-dimensional cellular
automaton editor in `cas.js`. The model has two parts:

- **`readLines`**, the loader for `SL1rule` rule files. The first line must
  be `SL1rule`. After that, the lines `state_number N`, `general_number N`
  and `rule_number N` choose which record parser reads the records that
  follow. Blank lines are skipped.
  - A state record (`name @fg,bg,type`) adds a state. The name must be new.
    The type must also be new, unless it is `others`.
  - A rule record (`left##current##right->next`) adds a rule. All four
    operands must be states declared on earlier lines, and the
    neighbourhood `(left, current, right)` must not already have a rule.
  - After the last line, each of the types `external`, `general`,
    `soldier`, `others` and `firing` must have been used. Only then do the
    loaded states, the loaded rules and the neighbourhood-to-index map
    `ruleMap` replace the engine's tables.
- **`searchNextState`**. It looks up the rule for a neighbourhood, returns
  that rule's next state and its index, and counts the use. On a miss it
  fails.

Modules, in dependency order:

| module | file | contents |
|---|---|---|
| `Wrappers` | wrappers.dfy | `Option` and `Result` |
| `Text` | text.dfy | the JavaScript `\s` class, `\S{1,5}` tokens, white-space and digit scans, header lines |
| `Patterns` | patterns.dfy | the state-record and rule-record regular expressions as backtracking matchers, each with a declarative reading and proofs relating the two |
| `Colour` | colour.dfy | the byte-pair swap applied to both colours of a state |
| `RuleTable` | rule_table.dfy | `State`, `Rule`, the neighbourhood `Key`, the `Engine` globals, the `ruleMap` construction, `searchNextState`, the built-in tables |
| `Loader` | loader.dfy | `readLines` as a fold over the lines, the invariant of the fold, the all-or-nothing replacement of the globals |
| `LoaderProperties` | loader_properties.dfy | what each kind of line does to a load, and how a load interacts with lookups |

How the model is set up:

- The engine's three globals are a value `Engine(states, rules, ruleMap)`.
  `ReadLines(g, lines)` returns the new engine together with the error, if
  any. `SearchNextState(e, l, c, r)` returns the engine with the updated
  count together with the transition or the error.
- A thrown error is a `LoadError` that carries the 1-based line number the
  source's message quotes. The message text is not modelled.
- The regular expressions are hand-written matchers. They try the
  alternatives in the order JavaScript's backtracking does: greedy
  `\S{1,5}` tries lengths 5 down to 1, and `\s*` in front of a non-space
  literal takes the whole white-space run.
  - `StateLineUnique` shows that the state-record pattern has only one
    reading.
  - `MatchFromGreedy` shows that the rule-record matcher finds a reading
    whenever one exists. The reading it returns has the longest left
    operand, then the longest current operand, then the longest right
    operand. That is the reading JavaScript's `match` reports.

Two points of the code that are easy to misread:

- `others` is the one type that several states may share (cas.js:138).
  Even so, the code lists `others` among the mandatory types
  (cas.js:85-98), so a file without any `others` state is rejected.
- A bad first line and a record before any header are rejected. The code
  reaches both failures by calling an undefined `reject` or `parser`, so
  the model has its own error kinds for them (`UnrecognizedFormat` and
  `NoSection`).

## Model

| member | source | states |
|---|---|---|
| Text.HeaderShape | cas.js:43-45 | A line is a header when it is the keyword, then at least one white-space character, then at least one digit, then only white space. |
| Text.HeaderParts | cas.js:43-45 | Conversely, every header is the keyword at column 0, then a non-empty white-space run, a non-empty digit run and trailing white space, and nothing else. |
| Loader.ClassifyKinds | cas.js:64-80 | A line is blank exactly when it is all white space. A header line is the header of the section it selects. A line is a record exactly when it is neither blank nor any section's header. |
| LoaderProperties.IndentedLineIsRecord | cas.js:43-45 | A line that starts with white space and is not blank is a record, even if a header keyword follows the indentation. |
| LoaderProperties.HeaderSelectsSection | cas.js:69-80 | Each of `state_number`, `general_number` and `rule_number`, followed by white space and a number, selects its own section. |
| LoaderProperties.BlankLineSkipped | cas.js:65-67 | A line of white space only leaves the reader's state unchanged, in any section. |
| LoaderProperties.GeneralRecordIgnored | cas.js:149-151 | A record in the `general_number` section is accepted and changes nothing. |
| LoaderProperties.UnsetUntilHeader | cas.js:55-80 | No record parser is active exactly as long as no header line has been read. |
| LoaderProperties.StepSection | cas.js:69-80 | Only a header line changes the active parser, and never back to "none". |
| LoaderProperties.RecordBeforeHeaderRejected | cas.js:82 | A record line before any header makes the load fail at that line. |
| Patterns.MatchState | cas.js:111-115 | A matched state record has a name of 1-5 non-space characters, two colours of six upper-case hexadecimal digits, and a non-empty non-space type. |
| Patterns.MatchStateSound | cas.js:111-115 | Every match is a reading of the whole line: name, white space, `@`, colour, `,`, colour, `,`, type. No trailing white space is allowed. |
| Patterns.StateLineUnique | cas.js:111-115 | Any reading of a line as a state record is exactly what the matcher returns. The pattern accepts every such line and has only one reading. |
| Patterns.StateFromFinds | cas.js:112 | When the name length `t` gives a match and every longer name length fails, the backtracking search returns the match at `t`. |
| Patterns.MatchFrom | cas.js:155 | Trying first-token lengths from `k` down yields, on success, one piece per operand with a first token no longer than `k`. `Patterns.MatchFromSound` and `Patterns.MatchFromGreedy` state what the pieces are and which reading is chosen. |
| Patterns.MatchAt | cas.js:155 | An attempt with a first token of length `k` yields one piece per operand, and its first token has length `k`. |
| Patterns.MatchFromSound | cas.js:155 | Whatever the backtracking matcher returns reads back as the whole input: tokens of 1-5 non-space characters, white space after each, and the separators between them. |
| Patterns.MatchFromGreedy | cas.js:155 | Whenever some reading of the input exists, the matcher succeeds. Its result is preferred or equal to every reading in backtracking order. |
| Patterns.MatchRule | cas.js:154-158 | All four operands of a matched rule record are 1-5 non-space characters. |
| Patterns.MatchRuleSound | cas.js:154-158 | Every match is a reading of the whole line as `left##current##right->next`, with optional white space after each operand. |
| Patterns.RuleLineGreedy | cas.js:154-158 | Every line that can be read as a rule record is accepted. The operands returned are those of the reading JavaScript reports first. |
| Colour.SwapPairs | cas.js:121-127 | The on-disk colour `c0..c5` becomes `c4 c5 c2 c3 c0 c1`. It keeps its length and its characters. |
| Colour.SwapPairsInvolution | cas.js:126-127 | Swapping twice gives back the original colour. |
| Colour.SwapPairsKeepsHex | cas.js:126-127 | A six-digit upper-case hexadecimal colour stays one after the swap. |
| Loader.NewState | cas.js:121-128 | The state keeps the record's name and type. Swapping each stored colour again gives back the colour written in the record. |
| Loader.ParseStateOutcome | cas.js:110-147 | `ParseState` accepts a line exactly when it matches, its name is new, and its type is `others` or new. It then appends the state built from the record and leaves the rules and the section alone. A line that does not match fails as malformed. Every failure names the line. |
| Loader.ParseRuleOutcome | cas.js:153-195 | `ParseRule` accepts a line exactly when it matches, all four operands are declared, and the neighbourhood is new. It then appends the rule with zero counts and leaves the states and the section alone. A line that does not match fails as malformed. Every failure names the line. |
| Loader.StepOutcome | cas.js:64-83 | For `Step`, blank and header lines always pass and leave the states and rules alone. Only a record outside the `general_number` section can fail, and the failure names that line. |
| Loader.StepGrows | cas.js:82 | An accepted line only appends to the states and rules read so far. |
| Loader.RunErrorLine | cas.js:64-83 | A failed reading of the lines before `j` names a line from 2 to `j`, which is one that has been read. |
| Loader.FirstUndeclared | cas.js:169-175 | There is no result exactly when every operand is declared. Otherwise the result is an undeclared operand, and every operand before it is declared. |
| Loader.Missing | cas.js:85-98 | A type is reported exactly when it is required and no state used it. |
| Loader.RunKeepsInv | cas.js:47-53 | After every accepted line, the name, type and key sets describe exactly the states and rules read so far. Names are distinct and non-`others` types are distinct. Neighbourhoods are distinct. Every rule operand is a declared state. Every count is zero. |
| Loader.FailurePersists | cas.js:82 | Once a line has failed, later lines do not change the outcome. |
| LoaderProperties.RunFailureIsLoadFailure | cas.js:64-83 | A failure on any line is the result of the whole load. |
| Loader.Parse | cas.js:57-98 | A first line other than `SL1rule` fails with `UnrecognizedFormat`. An accepted file starts with `SL1rule`, and its tables are exactly the states and rules read from its lines. They have distinct names, distinct non-`others` types and distinct neighbourhoods. The rules use only declared states and all have count zero. |
| Loader.ReadLines | cas.js:99-106 | The globals change exactly when the whole file is accepted. They then hold the checked tables, and `ruleMap` sends the neighbourhood of every rule `i` to `i`. On failure the engine is returned unchanged. |
| LoaderProperties.BadFormatKeepsEngine | cas.js:57-61 | A bad or missing first line fails the load and leaves the engine as it was. |
| LoaderProperties.FailedLoadKeepsEngine | cas.js:93-100 | Any failed load leaves the states, rules and `ruleMap` untouched. |
| LoaderProperties.DuplicateNameRejected | cas.js:130-136 | A state record whose name an earlier record declared fails the load at that line, whatever its type. |
| LoaderProperties.DuplicateTypeRejected | cas.js:138-144 | A new name with an already-used type other than `others` fails the load at that line. The error names the type. |
| LoaderProperties.FreshStateAccepted | cas.js:121-146 | A new name with a new type, or with type `others`, appends exactly the state with swapped colours. The rules are left alone. |
| LoaderProperties.FreshRuleAccepted | cas.js:164-194 | A rule record whose four operands were declared on earlier lines and whose neighbourhood is new is accepted. It appends exactly that rule with zero counts, and the states are left alone. |
| LoaderProperties.RunGrows | cas.js:64-83 | If reading succeeds up to line `k`, it succeeded at every earlier line. What had been read by then is a prefix of the states and rules read by `k`. |
| LoaderProperties.ReadRuleIsInstalled | cas.js:99-106 | After a successful load, every rule read on the way is installed at its own index. Looking up its neighbourhood yields its declared next state. |
| LoaderProperties.UndeclaredOperandRejected | cas.js:169-175 | A rule record with an operand that no earlier line declared stops the reading at that line. It reports the first such operand in the order left, current, right, next. |
| LoaderProperties.DuplicateRuleRejected | cas.js:177-185 | A second rule record for a neighbourhood stops the reading at that line, even if its next state differs. |
| LoaderProperties.MissingTypesReported | cas.js:85-98 | After the last line, the load succeeds exactly when all five required types were used. Otherwise the error lists exactly the unused ones, and extra types play no part. |
| RuleTable.IndexRules | cas.js:102-106 | The map's keys are exactly the rules' neighbourhoods. Each key maps to the last index whose rule has that neighbourhood. |
| RuleTable.IndexRulesInverts | cas.js:18-22 | With distinct neighbourhoods, the map sends every rule's neighbourhood back to that rule's index. |
| RuleTable.Install | cas.js:99-106 | The installed engine holds the given tables, and the map inverts the rule list. |
| RuleTable.RuleMapInjective | cas.js:102-106 | Distinct neighbourhoods map to distinct indices. |
| RuleTable.SearchNextState | cas.js:198-211 | It fails exactly when no rule has the neighbourhood, and then nothing changes. On success it returns that rule's next state and index, adds one to that rule's count, and changes nothing else. |
| LoaderProperties.LoadedRulesAreFound | cas.js:198-210 | After a successful load, looking up any loaded rule's neighbourhood yields its own index and next state. |
| LoaderProperties.ReloadForgetsPrevious | cas.js:99-106 | A successful load does not depend on the engine it replaces, so every count restarts from zero. |
| LoaderProperties.LookupThenReload | cas.js:99-106 | Lookups between two loads of the same file do not affect what the second load installs. |
| RuleTable.Initial | cas.js:3-22 | The built-in engine satisfies the engine invariant, and all of its counts are zero. |
| RuleTable.InitialWellFormed | cas.js:3-16 | The built-in tables pass every check a loaded file must pass. |

## Left out

- `loadRuleFile` (cas.js:24-40) is not modelled: the `FileReader`, the `Promise` and the `/[\r\n]+/` split. `ReadLines` takes the lines already split.
- web-cas.js is not part of this model. It is page construction and styling.
- The Japanese message texts are not modelled. Each error is a `LoadError` or `LookupError` kind that carries the line number or operands the message quotes.
- The source builds keys by joining the three operands with `\0`. The model keys on the triple instead. In the source, operands that contain NUL could make two distinct neighbourhoods share one joined key. The model does not show that collision.
- `totalCount` is carried but never changed, because the source never advances it.
- The numbers after the section headers are read as digits but never checked, as in the source.
- The cellular-automaton step evaluator has no code in the source, so nothing beyond lookup is modelled.
- Dafny characters are Unicode scalar values, while JavaScript strings count UTF-16 code units. For names containing characters outside the Basic Multilingual Plane, the 1-5 length limit therefore differs. The model counts scalar values.
- Rule counts are unbounded naturals. The source uses JavaScript numbers, which lose precision above 2^53.
- Loader.Missing: states which types are reported, not that they come in the order `external, general, soldier, others, firing`, although the model keeps that order.
- LoaderProperties.UndeclaredOperandRejected: states that the reading stops at the offending line, one step short of the whole load. `LoaderProperties.RunFailureIsLoadFailure` supplies that step, so the load fails with the same error.
- LoaderProperties.DuplicateRuleRejected: states that the reading stops at the second record, one step short of the whole load. `LoaderProperties.RunFailureIsLoadFailure` supplies that step.
