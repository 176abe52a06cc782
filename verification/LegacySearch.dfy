/** The linear `Keyboard::searchSubstitute` against the compiled table: for which
    rules the two readings of a condition are the same. */
module LegacySearch {
  import opened Words
  import opened Modifiers
  import opened ModifierStates
  import opened Keyboards
  import opened RuleCompiler
  import opened LookupTable

  /** The modifier types that the compiler looks at. */
  predicate IsCompiled(t: nat) {
    || t in {TYPE_SHIFT, TYPE_ALT, TYPE_CONTROL, TYPE_WINDOWS, TYPE_UP, TYPE_NUMLOCK, TYPE_CAPSLOCK, TYPE_SCROLLLOCK}
    || TYPE_LOCK0 <= t < TYPE_LOCK0 + LOCK_TYPES
  }

  /** The bit that stands for a type, the left-hand one where there are two. */
  function BitOf(t: nat): nat {
    if t == TYPE_SHIFT then LSHIFT
    else if t == TYPE_CONTROL then LCTRL
    else if t == TYPE_ALT then LALT
    else if t == TYPE_WINDOWS then LWIN
    else if t == TYPE_CAPSLOCK then CAPSLOCK
    else if t == TYPE_NUMLOCK then NUMLOCK
    else if t == TYPE_SCROLLLOCK then SCROLLLOCK
    else if t == TYPE_UP then UP
    else LOCK_OFFSET + if t < TYPE_LOCK0 then 0 else t - TYPE_LOCK0
  }

  predicate HasType(t: nat, state: Bits) {
    BitOf(t) in state || (t < TYPE_BASIC && BitOf(t) + 1 in state)
  }

  /** Only bits of existing types are ever pressed in the 64-bit word. */
  predicate WellFormed(m: Modifier) {
    forall t :: t in m.modifiers ==> t < TYPE_END
  }

  /** The legacy modifier says about the compiled types what the full state says. */
  predicate Abstracts(a: Modifier, state: Bits) {
    WellFormed(a) && forall t: nat :: t < TYPE_END && IsCompiled(t) ==> (a.IsOn(t) <==> HasType(t, state))
  }

  lemma ConditionPerType(from: ModifiedKey, state: Bits)
    ensures ConditionHolds(from, state) <==>
      && (forall t: nat :: t < TYPE_END && IsCompiled(t) ==> TypeHolds(from.modifier, t, HasType(t, state)))
      && VirtualsHold(from.virtualMods, 256, state)
  {
    var m := from.modifier;
    if forall t: nat :: t < TYPE_END && IsCompiled(t) ==> TypeHolds(m, t, HasType(t, state)) {
      assert TypesHold(m, state) by {
        assert IsCompiled(TYPE_SHIFT) && IsCompiled(TYPE_CONTROL) && IsCompiled(TYPE_ALT) && IsCompiled(TYPE_WINDOWS);
        assert IsCompiled(TYPE_CAPSLOCK) && IsCompiled(TYPE_NUMLOCK);
        assert IsCompiled(TYPE_SCROLLLOCK) && IsCompiled(TYPE_UP);
      }
      forall i: nat | i < LOCK_TYPES ensures LockHolds(m, i, state) {
        assert IsCompiled(TYPE_LOCK0 + i);
      }
    }
    if ConditionHolds(from, state) {
      forall t: nat | t < TYPE_END && IsCompiled(t) ensures TypeHolds(m, t, HasType(t, state)) {
        if t >= TYPE_LOCK0 {
          assert LockHolds(m, t - TYPE_LOCK0, state);
        }
      }
    }
  }

  // ---- One rule: exactly when the two readings agree ----

  predicate Agree(from: ModifiedKey, state: Bits, a: Modifier) {
    ConditionHolds(from, state) <==> from.modifier.DoesMatch(a)
  }

  /** Cares only about compiled types, needs no virtual modifier, and has no
      compiled type both pressed and don't-care. */
  predicate Faithful(from: ModifiedKey) {
    && (forall t: nat :: t < TYPE_END && !IsCompiled(t) ==> from.modifier.IsDontcare(t))
    && from.virtualMods == {}
    && (forall t: nat :: t < TYPE_END && IsCompiled(t) ==> !(from.modifier.IsOn(t) && from.modifier.IsDontcare(t)))
  }

  /** A state with exactly the given compiled types and virtual modifiers. */
  function StateWith(types: set<nat>, virtualMods: set<uint8>): Bits {
    (set t | t in types && t < TYPE_END && IsCompiled(t) :: BitOf(t)) + (set v | v in virtualMods :: VIRTUAL_OFFSET + v)
  }

  lemma StateWithHas(types: set<nat>, virtualMods: set<uint8>, t: nat)
    requires t < TYPE_END && IsCompiled(t)
    ensures HasType(t, StateWith(types, virtualMods)) <==> t in types
    ensures VirtualsHold(virtualMods, 256, StateWith(types, virtualMods))
    ensures forall v: uint8 :: VIRTUAL_OFFSET + v in StateWith(types, virtualMods) ==> v in virtualMods
  {
  }

  lemma FaithfulAgrees(from: ModifiedKey, state: Bits, a: Modifier)
    requires WellFormed(from.modifier) && Faithful(from) && Abstracts(a, state)
    ensures Agree(from, state, a)
  {
    ConditionPerType(from, state);
    DoesMatchPerType(from.modifier, a);
    var m := from.modifier;
    if m.DoesMatch(a) {
      forall t: nat | t < TYPE_END && IsCompiled(t) ensures TypeHolds(m, t, HasType(t, state)) {}
    }
    if ConditionHolds(from, state) {
      forall t: nat | t !in m.dontcares ensures t in m.modifiers <==> t in a.modifiers {
        if t < TYPE_END {
          assert IsCompiled(t) && TypeHolds(m, t, HasType(t, state));
        }
      }
    }
  }

  /** A state and a legacy modifier on which an unfaithful rule is read in two ways. */
  lemma UnfaithfulDiffers(from: ModifiedKey) returns (state: Bits, a: Modifier)
    requires WellFormed(from.modifier) && !Faithful(from)
    ensures Abstracts(a, state) && !Agree(from, state, a)
  {
    var m := from.modifier;
    var on := m.modifiers;
    if t: nat :| t < TYPE_END && !IsCompiled(t) && !m.IsDontcare(t) {
      state := StateWith(on, from.virtualMods);
      a := Modifier(if t in on then on - {t} else on + {t}, {});
      forall u: nat | u < TYPE_END && IsCompiled(u) ensures HasType(u, state) <==> u in on {
        StateWithHas(on, from.virtualMods, u);
      }
      StateWithHas(on, from.virtualMods, TYPE_SHIFT);
    } else if v :| v in from.virtualMods {
      state := StateWith(on, {});
      a := Modifier(on, {});
      forall u: nat | u < TYPE_END && IsCompiled(u) ensures HasType(u, state) <==> u in on {
        StateWithHas(on, {}, u);
      }
      StateWithHas(on, {}, TYPE_SHIFT);
      assert VIRTUAL_OFFSET + v !in state;
    } else {
      var t: nat :| t < TYPE_END && IsCompiled(t) && m.IsOn(t) && m.IsDontcare(t);
      state := StateWith(on - {t}, {});
      a := Modifier(on - {t}, {});
      forall u: nat | u < TYPE_END && IsCompiled(u) ensures HasType(u, state) <==> u in on - {t} {
        StateWithHas(on - {t}, {}, u);
      }
      assert !TypeHolds(m, t, HasType(t, state));
    }
    ConditionPerType(from, state);
    DoesMatchPerType(m, a);
  }

  /** The compiled reading of a condition is the legacy reading, on every state and
      every legacy modifier for it, exactly for the faithful conditions. */
  lemma FaithfulIffAgrees(from: ModifiedKey)
    requires WellFormed(from.modifier)
    ensures Faithful(from) <==> forall state: Bits, a: Modifier :: Abstracts(a, state) ==> Agree(from, state, a)
  {
    if Faithful(from) {
      forall state: Bits, a: Modifier | Abstracts(a, state) ensures Agree(from, state, a) {
        FaithfulAgrees(from, state, a);
      }
    } else {
      var state, a := UnfaithfulDiffers(from);
    }
  }

  // ---- The whole list ----

  /** The target of the first substitute for the key whose modifier matches. */
  function FirstLegacy(subs: seq<Substitute>, mkey: ModifiedKey): Option<ModifiedKey> {
    if subs == [] then None
    else
      var i := |subs| - 1;
      var earlier := FirstLegacy(subs[..i], mkey);
      if earlier.Some? then earlier
      else if subs[i].from.key == mkey.key && subs[i].from.modifier.DoesMatch(mkey.modifier) then Some(subs[i].to)
      else None
  }

  lemma {:induction false} FirstLegacyStays(subs: seq<Substitute>, n: nat, mkey: ModifiedKey)
    requires n <= |subs| && FirstLegacy(subs[..n], mkey).Some?
    ensures FirstLegacy(subs, mkey) == FirstLegacy(subs[..n], mkey)
  {
    if n == |subs| {
      assert subs[..n] == subs;
    } else {
      assert subs[..|subs| - 1][..n] == subs[..n];
      FirstLegacyStays(subs[..|subs| - 1], n, mkey);
    }
  }

  predicate LegacyMatch(sub: Substitute, mkey: ModifiedKey) {
    sub.from.key == mkey.key && sub.from.modifier.DoesMatch(mkey.modifier)
  }

  /** Substitute i is the first for the key whose modifier matches. */
  predicate IsFirstLegacy(subs: seq<Substitute>, i: int, mkey: ModifiedKey) {
    0 <= i < |subs| && LegacyMatch(subs[i], mkey) && forall j :: 0 <= j < i ==> !LegacyMatch(subs[j], mkey)
  }

  lemma {:induction false} NoLegacyMatch(subs: seq<Substitute>, mkey: ModifiedKey)
    ensures FirstLegacy(subs, mkey).None? <==> forall j :: 0 <= j < |subs| ==> !LegacyMatch(subs[j], mkey)
  {
    if subs != [] {
      var n := |subs| - 1;
      NoLegacyMatch(subs[..n], mkey);
      assert forall j :: 0 <= j < n ==> subs[..n][j] == subs[j];
    }
  }

  lemma FirstLegacyAt(subs: seq<Substitute>, i: int, mkey: ModifiedKey)
    requires IsFirstLegacy(subs, i, mkey)
    ensures FirstLegacy(subs, mkey) == Some(subs[i].to)
  {
    assert subs[..i + 1][..i] == subs[..i];
    NoLegacyMatch(subs[..i], mkey);
    FirstLegacyStays(subs, i + 1, mkey);
  }

  /** `searchSubstitute`; without a match the result has no key. */
  method SearchSubstitute(subs: seq<Substitute>, mkey: ModifiedKey) returns (r: ModifiedKey)
    ensures FirstLegacy(subs, mkey).Some? ==> r == FirstLegacy(subs, mkey).value
    ensures FirstLegacy(subs, mkey).None? ==> r.key == null
    ensures forall i :: IsFirstLegacy(subs, i, mkey) ==> r == subs[i].to
    ensures (forall j :: 0 <= j < |subs| ==> !LegacyMatch(subs[j], mkey)) ==> r.key == null
  {
    NoLegacyMatch(subs, mkey);
    forall i | IsFirstLegacy(subs, i, mkey) ensures FirstLegacy(subs, mkey) == Some(subs[i].to) {
      FirstLegacyAt(subs, i, mkey);
    }
    for i := 0 to |subs|
      invariant FirstLegacy(subs[..i], mkey).None?
    {
      assert subs[..i + 1][..i] == subs[..i];
      if subs[i].from.key == mkey.key && subs[i].from.modifier.DoesMatch(mkey.modifier) {
        FirstLegacyStays(subs, i + 1, mkey);
        return subs[i].to;
      }
    }
    assert subs[..|subs|] == subs;
    return ModifiedKey(DEFAULT_MODIFIER, null, {});
  }

  predicate SameFirstCode(k: Key?, key: Key) {
    k != null && |k.scanCodes| > 0 && |key.scanCodes| > 0 && k.scanCodes[0].scan == key.scanCodes[0].scan
  }

  /** Among the substitutes for the key's first scan code: faithful conditions, real
      targets, and no other key. */
  predicate Comparable(subs: seq<Substitute>, key: Key) {
    forall i :: 0 <= i < |subs| && SameFirstCode(subs[i].from.key, key) ==>
      && WellFormed(subs[i].from.modifier) && Faithful(subs[i].from)
      && subs[i].to.key != null && |subs[i].to.key.scanCodes| > 0
      && subs[i].from.key == key
  }

  function LegacyOutput(subs: seq<Substitute>, key: Key, a: Modifier): Option<uint16> {
    var legacy := FirstLegacy(subs, ModifiedKey(a, key, {}));
    if legacy.Some? then Some(OutputOf(legacy.value)) else None
  }

  lemma {:induction false} RealTarget(subs: seq<Substitute>, key: Key, a: Modifier)
    requires |key.scanCodes| > 0 && Comparable(subs, key)
    ensures var legacy := FirstLegacy(subs, ModifiedKey(a, key, {}));
      legacy.Some? ==> legacy.value.key != null && |legacy.value.key.scanCodes| > 0
  {
    if subs != [] {
      RealTarget(subs[..|subs| - 1], key, a);
    }
  }

  /** The first holding source rule is the first match of the linear search. */
  lemma {:induction false} FastIsLegacy(subs: seq<Substitute>, key: Key, state: Bits, a: Modifier)
    requires |key.scanCodes| > 0 && Comparable(subs, key) && Abstracts(a, state)
    ensures FirstHolding(SubstituteRules(subs), key.scanCodes[0].scan, state) == LegacyOutput(subs, key, a)
  {
    if subs != [] {
      var i := |subs| - 1;
      FastIsLegacy(subs[..i], key, state, a);
      var more := Listed(SourceRuleOf(subs[i].from, Some(subs[i].to)));
      FirstHoldingAppend(SubstituteRules(subs[..i]), more, key.scanCodes[0].scan, state);
      if SameFirstCode(subs[i].from.key, key) {
        FaithfulAgrees(subs[i].from, state, a);
      }
    }
  }

  /** The table built from the substitutes alone answers what the linear search answers:
      the rule it finds has the first scan code of the target that the search returns, and
      it finds none when the search does not. */
  lemma TableIsLegacy(buckets: Buckets, subs: seq<Substitute>, key: Key, state: Bits, a: Modifier)
    requires Refines(buckets, SourceRules(subs, None))
    requires |key.scanCodes| > 0 && Comparable(subs, key) && Abstracts(a, state)
    ensures var rule := FirstMatch(RulesAt(buckets, key.scanCodes[0].scan), state);
      var legacy := FirstLegacy(subs, ModifiedKey(a, key, {}));
      && (rule.None? <==> legacy.None?)
      && (legacy.Some? ==>
            && legacy.value.key != null && |legacy.value.key.scanCodes| > 0
            && rule.Some? && rule.value.output == legacy.value.key.scanCodes[0].scan)
  {
    FastIsLegacy(subs, key, state, a);
    RealTarget(subs, key, a);
    assert OutputFor(RulesAt(buckets, key.scanCodes[0].scan), state)
        == FirstHolding(SourceRules(subs, None), key.scanCodes[0].scan, state);
    assert SourceRules(subs, None) == SubstituteRules(subs);
  }

  /** `ModifierState::toModifier` is such a legacy modifier exactly while no state bit
      for Up and for the first ten locks is set: it reports neither. */
  lemma ToModifierAbstracts(state: Bits)
    ensures Abstracts(ToModifierOf(state), state)
       <==> forall b :: b in state ==> b != UP && !(LOCK_OFFSET <= b < LOCK_OFFSET + LOCK_TYPES)
  {
    var a := ToModifierOf(state);
    if b :| b in state && (b == UP || LOCK_OFFSET <= b < LOCK_OFFSET + LOCK_TYPES) {
      var t := if b == UP then TYPE_UP else TYPE_LOCK0 + (b - LOCK_OFFSET);
      assert IsCompiled(t) && HasType(t, state) && !a.IsOn(t);
    }
  }
}
