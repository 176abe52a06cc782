/** What the built table answers, told from the two input lists alone. */
module RulePriority {
  import opened Words
  import opened ModifierStates
  import opened Keyboards
  import opened RuleCompiler
  import opened LookupTable

  predicate SameFirstScan(k: Key?, scan: uint16) {
    k != null && |k.scanCodes| > 0 && k.scanCodes[0].scan == scan
  }

  /** A condition on a key with this first scan code holds. */
  predicate Applies(from: ModifiedKey, scan: uint16, state: Bits) {
    SameFirstScan(from.key, scan) && ConditionHolds(from, state)
  }

  /** Substitute i is the first that applies. */
  predicate FirstSubstitute(subs: seq<Substitute>, i: int, scan: uint16, state: Bits) {
    && 0 <= i < |subs| && Applies(subs[i].from, scan, state)
    && forall j :: 0 <= j < i ==> !Applies(subs[j].from, scan, state)
  }

  predicate NoSubstitute(subs: seq<Substitute>, scan: uint16, state: Bits) {
    forall j :: 0 <= j < |subs| ==> !Applies(subs[j].from, scan, state)
  }

  /** Only assignments that start with a key are in the table. */
  predicate AssignmentApplies(a: KeyAssignment, scan: uint16, state: Bits) {
    StartsWithKey(a) && Applies(a.from, scan, state)
  }

  predicate FirstAssignment(assignments: seq<KeyAssignment>, i: int, scan: uint16, state: Bits) {
    && 0 <= i < |assignments| && AssignmentApplies(assignments[i], scan, state)
    && forall j :: 0 <= j < i ==> !AssignmentApplies(assignments[j], scan, state)
  }

  predicate NoAssignment(assignments: seq<KeyAssignment>, scan: uint16, state: Bits) {
    forall j :: 0 <= j < |assignments| ==> !AssignmentApplies(assignments[j], scan, state)
  }

  /** The first scan code of the target key, 0 without one. */
  predicate IsTarget(output: uint16, to: ModifiedKey) {
    if to.key != null && |to.key.scanCodes| > 0 then output == to.key.scanCodes[0].scan else output == 0
  }

  /** The output of a query is the target of this modified key. */
  predicate Gives(found: Option<uint16>, to: ModifiedKey) {
    found.Some? && IsTarget(found.value, to)
  }

  /** Substitutes come first, each kind in list order; nothing else is found. */
  ghost predicate Answers(found: Option<uint16>, subs: seq<Substitute>, keymap: Option<seq<KeyAssignment>>,
                          scan: uint16, state: Bits)
  {
    && (forall i :: FirstSubstitute(subs, i, scan, state) ==> Gives(found, subs[i].to))
    && (NoSubstitute(subs, scan, state) && keymap.Some? ==>
          forall i :: FirstAssignment(keymap.value, i, scan, state) ==>
            Gives(found, keymap.value[i].keySeq.value[0].mkey))
    && (NoSubstitute(subs, scan, state) && (keymap.Some? ==> NoAssignment(keymap.value, scan, state)) ==> found.None?)
  }

  lemma OneRule(from: ModifiedKey, target: Option<ModifiedKey>, scan: uint16, state: Bits)
    ensures FirstHolding(Listed(SourceRuleOf(from, target)), scan, state)
         == if target.Some? && Applies(from, scan, state) then Some(OutputOf(target.value)) else None
  {
    var rules := Listed(SourceRuleOf(from, target));
    if rules != [] {
      assert rules[1..] == [];
    }
  }

  lemma {:induction false} NoSubstituteNone(subs: seq<Substitute>, scan: uint16, state: Bits)
    ensures NoSubstitute(subs, scan, state) <==> FirstHolding(SubstituteRules(subs), scan, state).None?
  {
    if subs != [] {
      var n := |subs| - 1;
      NoSubstituteNone(subs[..n], scan, state);
      FirstHoldingAppend(SubstituteRules(subs[..n]), Listed(SourceRuleOf(subs[n].from, Some(subs[n].to))), scan, state);
      OneRule(subs[n].from, Some(subs[n].to), scan, state);
      assert NoSubstitute(subs, scan, state) <==>
        NoSubstitute(subs[..n], scan, state) && !Applies(subs[n].from, scan, state);
    }
  }

  lemma {:induction false} FirstSubstituteGives(subs: seq<Substitute>, i: int, scan: uint16, state: Bits)
    requires FirstSubstitute(subs, i, scan, state)
    ensures Gives(FirstHolding(SubstituteRules(subs), scan, state), subs[i].to)
  {
    var n := |subs| - 1;
    FirstHoldingAppend(SubstituteRules(subs[..n]), Listed(SourceRuleOf(subs[n].from, Some(subs[n].to))), scan, state);
    OneRule(subs[n].from, Some(subs[n].to), scan, state);
    if i == n {
      NoSubstituteNone(subs[..n], scan, state);
    } else {
      FirstSubstituteGives(subs[..n], i, scan, state);
    }
  }

  lemma NoneInLonger(assignments: seq<KeyAssignment>, scan: uint16, state: Bits)
    requires assignments != []
    ensures var n := |assignments| - 1;
      NoAssignment(assignments, scan, state) <==>
        NoAssignment(assignments[..n], scan, state) && !AssignmentApplies(assignments[n], scan, state)
  {
  }

  lemma {:induction false} NoAssignmentNone(assignments: seq<KeyAssignment>, scan: uint16, state: Bits)
    ensures NoAssignment(assignments, scan, state) <==> FirstHolding(AssignmentRules(assignments), scan, state).None?
  {
    if assignments != [] {
      var n := |assignments| - 1;
      var front, a := assignments[..n], assignments[n];
      NoAssignmentNone(front, scan, state);
      FirstHoldingAppend(AssignmentRules(front), Listed(SourceRuleOf(a.from, CompiledTarget(a))), scan, state);
      OneRule(a.from, CompiledTarget(a), scan, state);
      NoneInLonger(assignments, scan, state);
    }
  }

  lemma {:induction false} FirstAssignmentGives(assignments: seq<KeyAssignment>, i: int, scan: uint16, state: Bits)
    requires FirstAssignment(assignments, i, scan, state)
    ensures Gives(FirstHolding(AssignmentRules(assignments), scan, state), assignments[i].keySeq.value[0].mkey)
  {
    var n := |assignments| - 1;
    var front, a := assignments[..n], assignments[n];
    FirstHoldingAppend(AssignmentRules(front), Listed(SourceRuleOf(a.from, CompiledTarget(a))), scan, state);
    OneRule(a.from, CompiledTarget(a), scan, state);
    if i == n {
      NoAssignmentNone(front, scan, state);
    } else {
      FirstAssignmentGives(front, i, scan, state);
    }
  }

  lemma RulesAnswer(subs: seq<Substitute>, keymap: Option<seq<KeyAssignment>>, scan: uint16, state: Bits)
    ensures Answers(FirstHolding(SourceRules(subs, keymap), scan, state), subs, keymap, scan, state)
  {
    var assignments := if keymap.Some? then keymap.value else [];
    FirstHoldingAppend(SubstituteRules(subs), AssignmentRules(assignments), scan, state);
    NoSubstituteNone(subs, scan, state);
    NoAssignmentNone(assignments, scan, state);
    forall i | FirstSubstitute(subs, i, scan, state)
      ensures Gives(FirstHolding(SubstituteRules(subs), scan, state), subs[i].to)
    {
      FirstSubstituteGives(subs, i, scan, state);
    }
    forall i | FirstAssignment(assignments, i, scan, state)
      ensures Gives(FirstHolding(AssignmentRules(assignments), scan, state), assignments[i].keySeq.value[0].mkey)
    {
      FirstAssignmentGives(assignments, i, scan, state);
    }
  }

  /** The rule found in a built table is that of the first applying substitute, else that
      of the first applying assignment, with the first scan code of its target. */
  lemma TableAnswers(buckets: Buckets, subs: seq<Substitute>, keymap: Option<seq<KeyAssignment>>,
                     scan: uint16, state: Bits)
    requires Refines(buckets, SourceRules(subs, keymap))
    ensures var rule := FirstMatch(RulesAt(buckets, scan), state);
      Answers(if rule.Some? then Some(rule.value.output) else None, subs, keymap, scan, state)
  {
    RulesAnswer(subs, keymap, scan, state);
    assert OutputFor(RulesAt(buckets, scan), state) == FirstHolding(SourceRules(subs, keymap), scan, state);
  }
}
