/** `RuleLookupTable` and `Engine::buildSubstitutionTable`: the table of compiled
    rules refines a list of source rules tried in order. */
module LookupTable {
  import opened Words
  import opened ModifierStates
  import opened Keyboards
  import opened RuleCompiler

  function FirstMatch(rules: seq<CompiledRule>, state: Bits): Option<CompiledRule> {
    if rules == [] then None
    else if rules[0].Matches(state) then Some(rules[0])
    else FirstMatch(rules[1..], state)
  }

  type Buckets = map<uint16, seq<CompiledRule>>

  function RulesAt(buckets: Buckets, scan: uint16): seq<CompiledRule> {
    if scan in buckets then buckets[scan] else []
  }

  class RuleLookupTable {
    var buckets: Buckets

    constructor ()
      ensures buckets == map[]
    {
      buckets := map[];
    }

    method AddRule(scan: uint16, rule: CompiledRule)
      modifies this
      ensures forall s: uint16 :: RulesAt(buckets, s)
                == RulesAt(old(buckets), s) + if s == scan then [rule] else []
    {
      buckets := buckets[scan := RulesAt(buckets, scan) + [rule]];
    }

    method Clear()
      modifies this
      ensures buckets == map[]
    {
      buckets := map[];
    }

    method FindMatch(scan: uint16, state: Bits) returns (r: Option<CompiledRule>)
      ensures r == FirstMatch(RulesAt(buckets, scan), state)
    {
      if scan !in buckets {
        return None;
      }
      var rules := buckets[scan];
      for i := 0 to |rules|
        invariant FirstMatch(rules, state) == FirstMatch(rules[i..], state)
      {
        if rules[i].Matches(state) {
          return Some(rules[i]);
        }
        assert rules[i..][1..] == rules[i + 1..];
      }
      return None;
    }
  }

  // ---- The source rules, in priority order ----

  datatype SourceRule = SourceRule(scan: uint16, from: ModifiedKey, output: uint16)

  function SourceRuleOf(from: ModifiedKey, target: Option<ModifiedKey>): Option<SourceRule> {
    if from.key == null || |from.key.scanCodes| == 0 || target.None? then None
    else Some(SourceRule(from.key.scanCodes[0].scan, from, OutputOf(target.value)))
  }

  function Listed(r: Option<SourceRule>): seq<SourceRule> {
    if r.Some? then [r.value] else []
  }

  function SubstituteRules(subs: seq<Substitute>): seq<SourceRule> {
    if subs == [] then []
    else
      var i := |subs| - 1;
      SubstituteRules(subs[..i]) + Listed(SourceRuleOf(subs[i].from, Some(subs[i].to)))
  }

  function AssignmentRules(assignments: seq<KeyAssignment>): seq<SourceRule> {
    if assignments == [] then []
    else
      var i := |assignments| - 1;
      AssignmentRules(assignments[..i]) + Listed(SourceRuleOf(assignments[i].from, CompiledTarget(assignments[i])))
  }

  /** Substitutes first, then the assignments of the global keymap if there is one. */
  function SourceRules(subs: seq<Substitute>, keymap: Option<seq<KeyAssignment>>): seq<SourceRule> {
    SubstituteRules(subs) + if keymap.Some? then AssignmentRules(keymap.value) else []
  }

  /** The output of the first source rule for the scan code whose condition holds. */
  function FirstHolding(rules: seq<SourceRule>, scan: uint16, state: Bits): Option<uint16> {
    if rules == [] then None
    else if rules[0].scan == scan && ConditionHolds(rules[0].from, state) then Some(rules[0].output)
    else FirstHolding(rules[1..], scan, state)
  }

  function OutputFor(rules: seq<CompiledRule>, state: Bits): Option<uint16> {
    var r := FirstMatch(rules, state);
    if r.Some? then Some(r.value.output) else None
  }

  /** A table answers every query as the list of source rules does. */
  ghost predicate Refines(buckets: Buckets, rules: seq<SourceRule>) {
    forall scan: uint16, state: Bits :: OutputFor(RulesAt(buckets, scan), state) == FirstHolding(rules, scan, state)
  }

  lemma {:induction false} FirstMatchAppend(a: seq<CompiledRule>, b: seq<CompiledRule>, state: Bits)
    ensures FirstMatch(a + b, state)
         == if FirstMatch(a, state).Some? then FirstMatch(a, state) else FirstMatch(b, state)
  {
    if a == [] {
      assert a + b == b;
    } else {
      assert (a + b)[1..] == a[1..] + b;
      FirstMatchAppend(a[1..], b, state);
    }
  }

  lemma {:induction false} FirstHoldingAppend(a: seq<SourceRule>, b: seq<SourceRule>, scan: uint16, state: Bits)
    ensures FirstHolding(a + b, scan, state)
         == if FirstHolding(a, scan, state).Some? then FirstHolding(a, scan, state) else FirstHolding(b, scan, state)
  {
    if a == [] {
      assert a + b == b;
    } else {
      assert (a + b)[1..] == a[1..] + b;
      FirstHoldingAppend(a[1..], b, scan, state);
    }
  }

  lemma {:induction false} FirstMatchSome(rules: seq<CompiledRule>, state: Bits)
    ensures FirstMatch(rules, state).Some? <==> exists i :: 0 <= i < |rules| && rules[i].Matches(state)
    ensures FirstMatch(rules, state).Some? ==> FirstMatch(rules, state).value in rules
  {
    if rules != [] {
      FirstMatchSome(rules[1..], state);
      if i :| 0 <= i < |rules| && rules[i].Matches(state) {
        assert i > 0 ==> rules[1..][i - 1].Matches(state);
      }
      assert forall i :: 0 <= i < |rules[1..]| ==> rules[1..][i] == rules[i + 1];
    }
  }

  /** The bucket of a scan code got more rules at its end; the others stayed. */
  ghost predicate Extends(after: Buckets, before: Buckets, scan: uint16, more: seq<CompiledRule>) {
    forall s: uint16 :: RulesAt(after, s) == RulesAt(before, s) + if s == scan then more else []
  }

  lemma ExtendsOneMore(after: Buckets, mid: Buckets, before: Buckets, scan: uint16, more: seq<CompiledRule>,
                       rule: CompiledRule)
    requires Extends(mid, before, scan, more) && Extends(after, mid, scan, [rule])
    ensures Extends(after, before, scan, more + [rule])
  {
    forall s: uint16 ensures RulesAt(after, s) == RulesAt(before, s) + if s == scan then more + [rule] else [] {
      assert RulesAt(mid, s) == RulesAt(before, s) + if s == scan then more else [];
      assert RulesAt(after, s) == RulesAt(mid, s) + if s == scan then [rule] else [];
    }
  }

  /** Appending the compiled form of a source rule keeps the refinement. */
  lemma AddSource(before: Buckets, after: Buckets, rules: seq<SourceRule>, source: SourceRule,
                  compiled: seq<CompiledRule>)
    requires Refines(before, rules)
    requires Represents(compiled, source.from, source.output)
    requires Extends(after, before, source.scan, compiled)
    ensures Refines(after, rules + [source])
  {
    forall scan: uint16, state: Bits
      ensures OutputFor(RulesAt(after, scan), state) == FirstHolding(rules + [source], scan, state)
    {
      var more := if scan == source.scan then compiled else [];
      assert RulesAt(after, scan) == RulesAt(before, scan) + more;
      FirstMatchAppend(RulesAt(before, scan), more, state);
      FirstHoldingAppend(rules, [source], scan, state);
      FirstMatchSome(compiled, state);
      assert OutputFor(RulesAt(before, scan), state) == FirstHolding(rules, scan, state);
    }
  }

  /** Adds the rules of one source rule to the bucket of its scan code. */
  method AddRules(table: RuleLookupTable, scan: uint16, rules: seq<CompiledRule>)
    modifies table
    ensures Extends(table.buckets, old(table.buckets), scan, rules)
  {
    for i := 0 to |rules|
      invariant Extends(table.buckets, old(table.buckets), scan, rules[..i])
    {
      ghost var mid := table.buckets;
      table.AddRule(scan, rules[i]);
      ExtendsOneMore(table.buckets, mid, old(table.buckets), scan, rules[..i], rules[i]);
      assert rules[..i + 1] == rules[..i] + [rules[i]];
    }
    assert rules[..|rules|] == rules;
  }

  /** One round of the substitute loop. */
  method AddSubstitute(table: RuleLookupTable, sub: Substitute, ghost soFar: seq<SourceRule>)
    requires Refines(table.buckets, soFar)
    modifies table
    ensures Refines(table.buckets, soFar + Listed(SourceRuleOf(sub.from, Some(sub.to))))
  {
    var fromKey := sub.from.key;
    if fromKey == null || |fromKey.scanCodes| == 0 {
      assert soFar + [] == soFar;
      return;
    }
    var rules := CompileSubstitute(sub);
    AddRules(table, fromKey.scanCodes[0].scan, rules);
    AddSource(old(table.buckets), table.buckets, soFar, SourceRuleOf(sub.from, Some(sub.to)).value, rules);
  }

  /** One round of the assignment loop. */
  method AddAssignment(table: RuleLookupTable, a: KeyAssignment, ghost soFar: seq<SourceRule>)
    requires Refines(table.buckets, soFar)
    modifies table
    ensures Refines(table.buckets, soFar + Listed(SourceRuleOf(a.from, CompiledTarget(a))))
  {
    var fromKey := a.from.key;
    if fromKey == null || |fromKey.scanCodes| == 0 {
      assert soFar + [] == soFar;
      return;
    }
    var rules := CompileKeyAssignment(a);
    AddRules(table, fromKey.scanCodes[0].scan, rules);
    if CompiledTarget(a).Some? {
      AddSource(old(table.buckets), table.buckets, soFar, SourceRuleOf(a.from, CompiledTarget(a)).value, rules);
    } else {
      assert forall s: uint16 :: RulesAt(table.buckets, s) == RulesAt(old(table.buckets), s);
      assert soFar + [] == soFar;
    }
  }

  /** `buildSubstitutionTable`.  While an event is being generated the published
      table stays as it is. */
  method BuildSubstitutionTable(recursionGuard: int, published: RuleLookupTable,
                                subs: seq<Substitute>, keymap: Option<seq<KeyAssignment>>)
    returns (table: RuleLookupTable)
    ensures recursionGuard > 0 ==> table == published
    ensures recursionGuard <= 0 ==> fresh(table) && Refines(table.buckets, SourceRules(subs, keymap))
  {
    if recursionGuard > 0 {
      return published;
    }
    table := new RuleLookupTable();
    table.Clear();
    for i := 0 to |subs|
      invariant fresh(table) && Refines(table.buckets, SubstituteRules(subs[..i]))
    {
      AddSubstitute(table, subs[i], SubstituteRules(subs[..i]));
      assert subs[..i + 1][..i] == subs[..i];
    }
    assert subs[..|subs|] == subs;
    ghost var fromSubs := SubstituteRules(subs);
    assert fromSubs + [] == fromSubs;
    if keymap.Some? {
      var assignments := keymap.value;
      for i := 0 to |assignments|
        invariant fresh(table) && Refines(table.buckets, fromSubs + AssignmentRules(assignments[..i]))
      {
        ghost var soFar := fromSubs + AssignmentRules(assignments[..i]);
        AddAssignment(table, assignments[i], soFar);
        assert assignments[..i + 1][..i] == assignments[..i];
        assert fromSubs + AssignmentRules(assignments[..i + 1])
            == soFar + Listed(SourceRuleOf(assignments[i].from, CompiledTarget(assignments[i])));
      }
      assert assignments[..|assignments|] == assignments;
    }
  }
}
