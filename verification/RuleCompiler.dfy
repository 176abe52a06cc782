/** `CompiledRule` and the compile functions of engine.cpp. */
module RuleCompiler {
  import opened Words
  import opened Modifiers
  import opened ModifierStates
  import opened Keyboards

  datatype CompiledRule = CompiledRule(requiredOn: Bits, requiredOff: Bits, output: uint16) {
    predicate Matches(state: Bits) {
      && state * requiredOn == requiredOn
      && state * requiredOff == {}
    }
  }

  // ---- The source condition ----

  /** A modifier type that has a left and a right key. */
  datatype Generic = Generic(typ: nat, left: nat, right: nat)

  const GENERIC_SHIFT := Generic(TYPE_SHIFT, LSHIFT, RSHIFT)
  const GENERIC_CONTROL := Generic(TYPE_CONTROL, LCTRL, RCTRL)
  const GENERIC_ALT := Generic(TYPE_ALT, LALT, RALT)
  const GENERIC_WINDOWS := Generic(TYPE_WINDOWS, LWIN, RWIN)

  /** A three-valued condition on one type, given whether the state has that type. */
  predicate TypeHolds(m: Modifier, t: nat, has: bool) {
    if m.IsOn(t) then has else m.IsDontcare(t) || !has
  }

  predicate GenericHolds(m: Modifier, g: Generic, state: Bits) {
    TypeHolds(m, g.typ, g.left in state || g.right in state)
  }

  predicate TypesHold(m: Modifier, state: Bits) {
    && GenericHolds(m, GENERIC_SHIFT, state)
    && GenericHolds(m, GENERIC_CONTROL, state)
    && GenericHolds(m, GENERIC_ALT, state)
    && GenericHolds(m, GENERIC_WINDOWS, state)
    && TypeHolds(m, TYPE_CAPSLOCK, CAPSLOCK in state)
    && TypeHolds(m, TYPE_NUMLOCK, NUMLOCK in state)
    && TypeHolds(m, TYPE_SCROLLLOCK, SCROLLLOCK in state)
    && TypeHolds(m, TYPE_UP, UP in state)
  }

  predicate VirtualsHold(required: set<uint8>, n: nat, state: Bits) {
    forall i: uint8 :: i < n && i in required ==> VIRTUAL_OFFSET + i in state
  }

  predicate LockHolds(m: Modifier, i: nat, state: Bits) {
    TypeHolds(m, TYPE_LOCK0 + i, LOCK_OFFSET + i in state)
  }

  predicate LocksHold(m: Modifier, n: nat, state: Bits) {
    forall i: nat :: i < n ==> LockHolds(m, i, state)
  }

  /** What a user's condition says about a full modifier state. */
  predicate ConditionHolds(from: ModifiedKey, state: Bits) {
    && TypesHold(from.modifier, state)
    && VirtualsHold(from.virtualMods, 256, state)
    && LocksHold(from.modifier, LOCK_TYPES, state)
  }

  // ---- Expansion of left/right choices ----

  type Pair = (nat, nat)

  /** The bits that expansion i of the generic modifiers adds: bit j of i chooses
      the right-hand key of modifier j. */
  function Picks(generics: seq<Pair>, i: nat): Bits {
    if generics == [] then {}
    else {if i % 2 == 1 then generics[0].1 else generics[0].0} + Picks(generics[1..], i / 2)
  }

  predicate AnySide(generics: seq<Pair>, state: Bits) {
    forall j :: 0 <= j < |generics| ==> generics[j].0 in state || generics[j].1 in state
  }

  /** A partly compiled condition: the base rule plus the generic modifiers still
      to be expanded. */
  predicate Means(base: CompiledRule, generics: seq<Pair>, state: Bits) {
    base.Matches(state) && AnySide(generics, state)
  }

  predicate Chosen(generics: seq<Pair>, i: nat, state: Bits) {
    i < Pow2(|generics|) && Picks(generics, i) <= state
  }

  /** The numbers 0 .. 2^k - 1 run through every left/right choice. */
  lemma {:induction false} PicksCoverChoices(generics: seq<Pair>, state: Bits)
    ensures AnySide(generics, state) <==> exists i: nat :: Chosen(generics, i, state)
  {
    if generics == [] {
      assert Chosen(generics, 0, state);
    } else {
      var first, rest := generics[0], generics[1..];
      PicksCoverChoices(rest, state);
      if AnySide(generics, state) {
        assert AnySide(rest, state);
        var i: nat :| Chosen(rest, i, state);
        var b := if first.1 in state then 1 else 0;
        assert (2 * i + b) / 2 == i && (2 * i + b) % 2 == b;
        assert Chosen(generics, 2 * i + b, state);
      }
      if i: nat :| Chosen(generics, i, state) {
        var pick := if i % 2 == 1 then first.1 else first.0;
        assert pick in Picks(generics, i) && Picks(rest, i / 2) <= Picks(generics, i);
        assert Chosen(rest, i / 2, state);
        forall j | 0 <= j < |generics| ensures generics[j].0 in state || generics[j].1 in state {
          assert j > 0 ==> generics[j] == rest[j - 1];
        }
      }
    }
  }

  // ---- The compiler ----

  lemma MatchesBits(r: CompiledRule, state: Bits)
    ensures r.Matches(state) <==>
      (forall b :: b in r.requiredOn ==> b in state) && (forall b :: b in r.requiredOff ==> b !in state)
  {
    if r.Matches(state) {
      assert forall b :: b in r.requiredOff ==> b !in state * r.requiredOff;
    }
  }

  /** One generic modifier: expand it later, forbid both sides, or skip it. */
  method CompileGeneric(m: Modifier, g: Generic, base: CompiledRule, generics: seq<Pair>)
    returns (base': CompiledRule, generics': seq<Pair>)
    ensures base'.output == base.output
    ensures |generics'| == |generics| + if m.IsOn(g.typ) then 1 else 0
    ensures forall state :: Means(base', generics', state)
              <==> Means(base, generics, state) && GenericHolds(m, g, state)
  {
    base', generics' := base, generics;
    if m.IsOn(g.typ) {
      generics' := generics + [(g.left, g.right)];
      forall state
        ensures AnySide(generics', state) <==> AnySide(generics, state) && (g.left in state || g.right in state)
      {
        assert generics'[|generics|] == (g.left, g.right);
        assert forall j :: 0 <= j < |generics| ==> generics'[j] == generics[j];
      }
    } else if !m.IsDontcare(g.typ) {
      base' := base.(requiredOff := base.requiredOff + {g.left, g.right});
      forall state ensures base'.Matches(state) <==> base.Matches(state) && g.left !in state && g.right !in state {
        MatchesBits(base, state);
        MatchesBits(base', state);
      }
    }
  }

  /** One type with a bit of its own: require it, forbid it, or skip it. */
  method CompileSpecific(m: Modifier, t: nat, bit: nat, base: CompiledRule) returns (base': CompiledRule)
    ensures base'.output == base.output
    ensures forall state :: base'.Matches(state) <==> base.Matches(state) && TypeHolds(m, t, bit in state)
  {
    base' := base;
    if m.IsOn(t) {
      base' := base.(requiredOn := base.requiredOn + {bit});
    } else if !m.IsDontcare(t) {
      base' := base.(requiredOff := base.requiredOff + {bit});
    }
    forall state ensures base'.Matches(state) <==> base.Matches(state) && TypeHolds(m, t, bit in state) {
      MatchesBits(base, state);
      MatchesBits(base', state);
    }
  }

  function OutputOf(to: ModifiedKey): uint16 {
    if to.key != null && |to.key.scanCodes| > 0 then to.key.scanCodes[0].scan else 0
  }

  /** The compiled rules say what the source condition says, with one output. */
  ghost predicate Represents(rules: seq<CompiledRule>, from: ModifiedKey, output: uint16) {
    && (forall r :: r in rules ==> r.output == output)
    && (forall state :: (exists i :: 0 <= i < |rules| && rules[i].Matches(state)) <==> ConditionHolds(from, state))
  }

  function OnGenerics(m: Modifier): nat {
    (if m.IsOn(TYPE_SHIFT) then 1 else 0) + (if m.IsOn(TYPE_CONTROL) then 1 else 0)
    + (if m.IsOn(TYPE_ALT) then 1 else 0) + (if m.IsOn(TYPE_WINDOWS) then 1 else 0)
  }

  /** The base rule and the generic modifiers left for expansion. */
  method CompileMasks(from: ModifiedKey, output: uint16) returns (base: CompiledRule, generics: seq<Pair>)
    ensures base.output == output && |generics| == OnGenerics(from.modifier)
    ensures forall state :: Means(base, generics, state) <==> ConditionHolds(from, state)
  {
    var m := from.modifier;
    base, generics := CompiledRule({}, {}, output), [];
    assert forall state :: Means(base, generics, state);
    base, generics := CompileGeneric(m, GENERIC_SHIFT, base, generics);
    base, generics := CompileGeneric(m, GENERIC_CONTROL, base, generics);
    base, generics := CompileGeneric(m, GENERIC_ALT, base, generics);
    base, generics := CompileGeneric(m, GENERIC_WINDOWS, base, generics);
    base := CompileSpecific(m, TYPE_CAPSLOCK, CAPSLOCK, base);
    base := CompileSpecific(m, TYPE_NUMLOCK, NUMLOCK, base);
    base := CompileSpecific(m, TYPE_SCROLLLOCK, SCROLLLOCK, base);
    base := CompileSpecific(m, TYPE_UP, UP, base);
    ghost var afterTypes := base;
    for i := 0 to 256
      invariant base.output == output
      invariant forall state :: base.Matches(state)
                  <==> (afterTypes.Matches(state) && VirtualsHold(from.virtualMods, i, state))
    {
      if i in from.virtualMods {
        ghost var before := base;
        base := base.(requiredOn := base.requiredOn + {VIRTUAL_OFFSET + i});
        forall state ensures base.Matches(state) <==> before.Matches(state) && VIRTUAL_OFFSET + i in state {
          MatchesBits(base, state);
          MatchesBits(before, state);
        }
      }
    }
    ghost var afterVirtuals := base;
    for i := 0 to LOCK_TYPES
      invariant base.output == output
      invariant forall state :: base.Matches(state) <==> (afterVirtuals.Matches(state) && LocksHold(m, i, state))
    {
      base := CompileSpecific(m, TYPE_LOCK0 + i, LOCK_OFFSET + i, base);
      assert forall state :: LockHolds(m, i, state) <==> TypeHolds(m, TYPE_LOCK0 + i, LOCK_OFFSET + i in state);
      assert forall state :: LocksHold(m, i + 1, state) <==> (LocksHold(m, i, state) && LockHolds(m, i, state));
    }
  }

  /** The 2^k loop over left/right choices. */
  method Expand(base: CompiledRule, generics: seq<Pair>) returns (rules: seq<CompiledRule>)
    ensures |rules| == Pow2(|generics|)
    ensures forall i :: 0 <= i < |rules| ==> rules[i] == base.(requiredOn := base.requiredOn + Picks(generics, i))
  {
    rules := [];
    if generics == [] {
      rules := rules + [base];
    } else {
      var numExpansions := Pow2(|generics|);
      for i := 0 to numExpansions
        invariant |rules| == i
        invariant forall k :: 0 <= k < i ==> rules[k] == base.(requiredOn := base.requiredOn + Picks(generics, k))
      {
        var newRule := base;
        for j := 0 to |generics|
          invariant newRule.requiredOff == base.requiredOff && newRule.output == base.output
          invariant newRule.requiredOn + Picks(generics[j..], Shr(i, j)) == base.requiredOn + Picks(generics, i)
        {
          assert generics[j..][1..] == generics[j + 1..];
          if Bit(i, j) {
            newRule := newRule.(requiredOn := newRule.requiredOn + {generics[j].1});
          } else {
            newRule := newRule.(requiredOn := newRule.requiredOn + {generics[j].0});
          }
        }
        rules := rules + [newRule];
      }
    }
  }

  /** Some expansion matches exactly when the partly compiled condition holds. */
  lemma ExpansionMeaning(base: CompiledRule, generics: seq<Pair>, rules: seq<CompiledRule>, state: Bits)
    requires |rules| == Pow2(|generics|)
    requires forall i :: 0 <= i < |rules| ==> rules[i] == base.(requiredOn := base.requiredOn + Picks(generics, i))
    ensures (exists i :: 0 <= i < |rules| && rules[i].Matches(state)) <==> Means(base, generics, state)
  {
    PicksCoverChoices(generics, state);
    MatchesBits(base, state);
    forall i | 0 <= i < |rules| ensures rules[i].Matches(state) <==> base.Matches(state) && Chosen(generics, i, state) {
      MatchesBits(rules[i], state);
    }
    if Means(base, generics, state) {
      var i: nat :| Chosen(generics, i, state);
      assert rules[i].Matches(state);
    }
  }

  /** The common part of the two compile functions. */
  method CompileCondition(from: ModifiedKey, output: uint16) returns (rules: seq<CompiledRule>)
    ensures |rules| == Pow2(OnGenerics(from.modifier))
    ensures Represents(rules, from, output)
  {
    var base, generics := CompileMasks(from, output);
    rules := Expand(base, generics);
    forall state ensures (exists i :: 0 <= i < |rules| && rules[i].Matches(state)) <==> ConditionHolds(from, state) {
      ExpansionMeaning(base, generics, rules, state);
    }
  }

  method CompileSubstitute(sub: Substitute) returns (rules: seq<CompiledRule>)
    ensures |rules| == Pow2(OnGenerics(sub.from.modifier))
    ensures sub.to.key != null && |sub.to.key.scanCodes| > 0 ==>
      Represents(rules, sub.from, sub.to.key.scanCodes[0].scan)
    ensures sub.to.key == null || |sub.to.key.scanCodes| == 0 ==> Represents(rules, sub.from, 0)
  {
    rules := CompileCondition(sub.from, OutputOf(sub.to));
  }

  predicate StartsWithKey(a: KeyAssignment) {
    a.keySeq.Some? && |a.keySeq.value| > 0 && a.keySeq.value[0].KeyAction?
  }

  /** An assignment is compiled when its first action is a key, whatever follows. */
  function CompiledTarget(a: KeyAssignment): Option<ModifiedKey> {
    if a.keySeq.None? || a.keySeq.value == [] || !a.keySeq.value[0].KeyAction? then None
    else Some(a.keySeq.value[0].mkey)
  }

  method CompileKeyAssignment(a: KeyAssignment) returns (rules: seq<CompiledRule>)
    ensures !StartsWithKey(a) ==> rules == []
    ensures StartsWithKey(a) ==>
      var key := a.keySeq.value[0].mkey.key;
      Represents(rules, a.from, if key != null && |key.scanCodes| > 0 then key.scanCodes[0].scan else 0)
  {
    rules := [];
    if a.keySeq.None? || a.keySeq.value == [] {
      return;
    }
    var firstAction := a.keySeq.value[0];
    if !firstAction.KeyAction? {
      return;
    }
    rules := CompileCondition(a.from, OutputOf(firstAction.mkey));
  }
}
