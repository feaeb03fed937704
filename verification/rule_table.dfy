/**
 * The engine's global tables of cas.js: the state list, the rule list and
 * the map from a neighbourhood `(left, current, right)` to the index of its
 * rule, together with the transition lookup `searchNextState`.
 */
module RuleTable {
  import opened Wrappers

  /** One state record; the colours are kept as opaque display data. */
  datatype State = State(name: string, stateType: string, bgColor: string, fgColor: string)

  /** A neighbourhood: the lookup key of a rule (cas.js builds it as a `\0`-joined string). */
  datatype Key = Key(left: string, current: string, right: string)

  /** One transition rule with its usage counters. */
  datatype Rule = Rule(left: string, current: string, right: string, next: string, count: nat, totalCount: nat)

  /** The globals `states`, `rules` and `ruleMap`. */
  datatype Engine = Engine(states: seq<State>, rules: seq<Rule>, ruleMap: map<Key, nat>)

  /** A successful `searchNextState`: the next state and the index of the rule used. */
  datatype Transition = Transition(next: string, index: nat)

  datatype LookupError = UndefinedRule(left: string, current: string, right: string)

  /** The type every loaded rule file must use at least once (cas.js:85-91). */
  const RequiredTypes: seq<string> := ["external", "general", "soldier", "others", "firing"]

  /** The one type that any number of states may share (cas.js:138). */
  const SharedType := "others"

  function KeyOf(r: Rule): Key {
    Key(r.left, r.current, r.right)
  }

  function NamesOf(states: seq<State>): set<string> {
    set i | 0 <= i < |states| :: states[i].name
  }

  function TypesOf(states: seq<State>): set<string> {
    set i | 0 <= i < |states| :: states[i].stateType
  }

  function KeysOf(rules: seq<Rule>): set<Key> {
    set i | 0 <= i < |rules| :: KeyOf(rules[i])
  }

  predicate KeysDistinct(rules: seq<Rule>) {
    forall i, j :: 0 <= i < j < |rules| ==> KeyOf(rules[i]) != KeyOf(rules[j])
  }

  predicate NamesDistinct(states: seq<State>) {
    forall i, j :: 0 <= i < j < |states| ==> states[i].name != states[j].name
  }

  /** No type other than `others` is used by two states. */
  predicate TypesDistinct(states: seq<State>) {
    forall i, j :: 0 <= i < j < |states| && states[i].stateType == states[j].stateType ==>
      states[i].stateType == SharedType
  }

  /** Every operand of every rule names a state of the catalog. */
  predicate OperandsDeclared(rules: seq<Rule>, names: set<string>) {
    forall i :: 0 <= i < |rules| ==>
      && rules[i].left in names && rules[i].current in names
      && rules[i].right in names && rules[i].next in names
  }

  predicate CountsZero(rules: seq<Rule>) {
    forall i :: 0 <= i < |rules| ==> rules[i].count == 0 && rules[i].totalCount == 0
  }

  /** What a successful load guarantees about the tables it installs. */
  predicate WellFormed(states: seq<State>, rules: seq<Rule>) {
    && NamesDistinct(states)
    && TypesDistinct(states)
    && (forall t :: t in RequiredTypes ==> t in TypesOf(states))
    && KeysDistinct(rules)
    && OperandsDeclared(rules, NamesOf(states))
  }

  /**
   * The `rules.forEach((rule, index) => ruleMap.set(key, index))` loop of
   * cas.js:103-106: every key is mapped to the LAST index carrying it.
   */
  function IndexRules(rules: seq<Rule>): (m: map<Key, nat>)
    ensures IndexesLast(rules, m)
  {
    if rules == [] then map[]
    else
      var init := rules[..|rules| - 1];
      var m := IndexRules(init);
      IndexRulesStep(rules, m);
      m[KeyOf(rules[|rules| - 1]) := |rules| - 1]
  }

  /**
   * `m` is what the loop leaves behind: its keys are the rules' keys, and
   * each key is mapped to the last index whose rule has that key.
   */
  ghost predicate IndexesLast(rules: seq<Rule>, m: map<Key, nat>) {
    && m.Keys == KeysOf(rules)
    && (forall k :: k in m ==> m[k] < |rules| && KeyOf(rules[m[k]]) == k)
    && (forall k, j :: k in m && m[k] < j < |rules| ==> KeyOf(rules[j]) != k)
  }

  /** Setting the last rule's key after indexing the earlier rules indexes them all. */
  lemma IndexRulesStep(rules: seq<Rule>, m: map<Key, nat>)
    requires |rules| > 0
    requires IndexesLast(rules[..|rules| - 1], m)
    ensures IndexesLast(rules, m[KeyOf(rules[|rules| - 1]) := |rules| - 1])
  {
  }

  lemma AppendRule(rules: seq<Rule>, r: Rule)
    ensures KeysOf(rules + [r]) == KeysOf(rules) + {KeyOf(r)}
  {
    var all := rules + [r];
    assert forall i :: 0 <= i < |rules| ==> all[i] == rules[i];
    assert all[|rules|] == r;
  }

  lemma AppendState(states: seq<State>, s: State)
    ensures NamesOf(states + [s]) == NamesOf(states) + {s.name}
    ensures TypesOf(states + [s]) == TypesOf(states) + {s.stateType}
  {
    var all := states + [s];
    assert forall i :: 0 <= i < |states| ==> all[i] == states[i];
    assert all[|states|] == s;
  }

  /** With distinct keys, the map sends the key of each rule to that rule's own index. */
  lemma IndexRulesInverts(rules: seq<Rule>)
    requires KeysDistinct(rules)
    ensures forall i :: 0 <= i < |rules| ==> IndexRules(rules)[KeyOf(rules[i])] == i
  {
    var m := IndexRules(rules);
    forall i | 0 <= i < |rules|
      ensures m[KeyOf(rules[i])] == i
    {
      assert KeyOf(rules[i]) in KeysOf(rules);
    }
  }

  /**
   * The correspondence the engine keeps between `rules` and `ruleMap`:
   * the map's keys are exactly the rules' keys, each key leads to the one
   * rule that has it, and no two rules share a key.
   */
  predicate Valid(e: Engine) {
    && KeysDistinct(e.rules)
    && e.ruleMap.Keys == KeysOf(e.rules)
    && (forall k :: k in e.ruleMap ==> e.ruleMap[k] < |e.rules| && KeyOf(e.rules[e.ruleMap[k]]) == k)
  }

  /** Installs a rule list: the map is rebuilt from scratch, as after `ruleMap.clear()`. */
  function Install(states: seq<State>, rules: seq<Rule>): (e: Engine)
    requires KeysDistinct(rules)
    ensures Valid(e)
    ensures e.states == states && e.rules == rules
    ensures forall i :: 0 <= i < |rules| ==> KeyOf(rules[i]) in e.ruleMap && e.ruleMap[KeyOf(rules[i])] == i
  {
    IndexRulesInverts(rules);
    Engine(states, rules, IndexRules(rules))
  }

  /** In a valid engine, distinct keys lead to distinct rules: the map is injective. */
  lemma RuleMapInjective(e: Engine, k1: Key, k2: Key)
    requires Valid(e)
    requires k1 in e.ruleMap && k2 in e.ruleMap && k1 != k2
    ensures e.ruleMap[k1] != e.ruleMap[k2]
  {
  }

  /**
   * `searchNextState` (cas.js:198-211). On a hit it yields the next state of
   * the rule whose key is the neighbourhood, with that rule's index, and
   * increments that rule's `count` and nothing else. On a miss it throws and
   * the engine is left as it was.
   */
  function SearchNextState(e: Engine, left: string, current: string, right: string)
    : (r: (Engine, Result<Transition, LookupError>))
    requires Valid(e)
    ensures Valid(r.0)
    ensures r.1.Failure? <==> forall i :: 0 <= i < |e.rules| ==> KeyOf(e.rules[i]) != Key(left, current, right)
    ensures r.1.Failure? ==> r.0 == e && r.1.error == UndefinedRule(left, current, right)
    ensures r.1.Success? ==>
      var i := r.1.value.index;
      && i < |e.rules|
      && KeyOf(e.rules[i]) == Key(left, current, right)
      && r.1.value.next == e.rules[i].next
      && r.0.states == e.states && r.0.ruleMap == e.ruleMap
      && |r.0.rules| == |e.rules|
      && r.0.rules[i].count == e.rules[i].count + 1
      && r.0.rules[i] == e.rules[i].(count := r.0.rules[i].count)
      && (forall j :: 0 <= j < |e.rules| && j != i ==> r.0.rules[j] == e.rules[j])
  {
    var key := Key(left, current, right);
    if key !in e.ruleMap then
      assert key !in KeysOf(e.rules);
      (e, Failure(UndefinedRule(left, current, right)))
    else
      var i := e.ruleMap[key];
      var rule := e.rules[i];
      var e' := e.(rules := e.rules[i := rule.(count := rule.count + 1)]);
      assert forall j :: 0 <= j < |e.rules| ==> KeyOf(e'.rules[j]) == KeyOf(e.rules[j]);
      assert KeysOf(e'.rules) == KeysOf(e.rules);
      (e', Success(Transition(rule.next, i)))
  }

  /** The tables cas.js starts with (cas.js:3-22), before any rule file is loaded. */
  function InitialStates(): seq<State> {
    [ State("G", "general", "FFFF00", "000000"),
      State("Q", "soldier", "FFFFFF", "000000"),
      State("A", "others", "FF5555", "000000"),
      State("F", "firing", "FF9900", "000000"),
      State("w", "external", "808080", "000000") ]
  }

  function InitialRules(): seq<Rule> {
    [ Rule("w", "G", "Q", "G", 0, 0),
      Rule("G", "Q", "Q", "Q", 0, 0),
      Rule("Q", "Q", "Q", "Q", 0, 0),
      Rule("Q", "Q", "w", "Q", 0, 0) ]
  }

  function Initial(): (e: Engine)
    ensures Valid(e)
    ensures CountsZero(e.rules)
  {
    var rules := InitialRules();
    InitialKeysDistinct();
    assert CountsZero(rules);
    Install(InitialStates(), rules)
  }

  lemma InitialKeysDistinct()
    ensures KeysDistinct(InitialRules())
  {
    var r := InitialRules();
    assert KeyOf(r[0]) == Key("w", "G", "Q");
    assert KeyOf(r[1]) == Key("G", "Q", "Q");
    assert KeyOf(r[2]) == Key("Q", "Q", "Q");
    assert KeyOf(r[3]) == Key("Q", "Q", "w");
  }

  /** The built-in tables already satisfy everything a rule file is checked for. */
  lemma InitialWellFormed()
    ensures WellFormed(InitialStates(), InitialRules())
  {
    var s := InitialStates();
    assert s[0].name == "G" && s[1].name == "Q" && s[2].name == "A";
    assert s[3].name == "F" && s[4].name == "w";
    assert s[0].stateType == "general" && s[1].stateType == "soldier" && s[2].stateType == "others";
    assert s[3].stateType == "firing" && s[4].stateType == "external";
    assert NamesDistinct(s);
    assert TypesDistinct(s);
    assert forall t :: t in RequiredTypes ==> t in TypesOf(s);
    var names := NamesOf(s);
    assert "G" in names && "Q" in names && "w" in names;
    InitialKeysDistinct();
  }
}
