/** `ModifierState` of modifier_state.h: one bitset with the standard, the
    virtual (M00-MFF) and the lock (L00-LFF) ranges.  The bitset is the set of
    the indices that are set. */
module ModifierStates {
  import opened Words
  import opened Modifiers

  const STD_MOD_COUNT: nat := 16
  const VIRTUAL_OFFSET: nat := 16
  const LOCK_OFFSET: nat := 272
  const TOTAL_BITS: nat := 528

  const LSHIFT: nat := 0
  const RSHIFT: nat := 1
  const LCTRL: nat := 2
  const RCTRL: nat := 3
  const LALT: nat := 4
  const RALT: nat := 5
  const LWIN: nat := 6
  const RWIN: nat := 7
  const CAPSLOCK: nat := 8
  const NUMLOCK: nat := 9
  const SCROLLLOCK: nat := 10
  const UP: nat := 11

  type Bits = set<nat>

  /** The bit of virtual modifier v. */
  function VirtualBit(v: uint8): nat {
    VIRTUAL_OFFSET + v
  }

  predicate IsVirtualBit(b: nat) {
    VIRTUAL_OFFSET <= b < LOCK_OFFSET
  }

  /** The types that `toModifier` reports as pressed. */
  predicate Reports(state: Bits, t: nat) {
    || (t == TYPE_SHIFT && (LSHIFT in state || RSHIFT in state))
    || (t == TYPE_CONTROL && (LCTRL in state || RCTRL in state))
    || (t == TYPE_ALT && (LALT in state || RALT in state))
    || (t == TYPE_WINDOWS && (LWIN in state || RWIN in state))
    || (t == TYPE_CAPSLOCK && CAPSLOCK in state)
    || (t == TYPE_NUMLOCK && NUMLOCK in state)
    || (t == TYPE_SCROLLLOCK && SCROLLLOCK in state)
  }

  function ReportedIn(state: Bits, types: set<nat>): Modifier {
    var reported := set t | t in types && Reports(state, t);
    Modifier(reported, DEFAULT_MODIFIER.dontcares - reported)
  }

  const REPORTED_TYPES: set<nat> := {TYPE_SHIFT, TYPE_CONTROL, TYPE_ALT, TYPE_WINDOWS,
                                     TYPE_CAPSLOCK, TYPE_NUMLOCK, TYPE_SCROLLLOCK}

  function ToModifierOf(state: Bits): Modifier {
    ReportedIn(state, REPORTED_TYPES)
  }

  class ModifierState {
    var bits: Bits

    constructor ()
      ensures bits == {}
    {
      bits := {};
    }

    method ActivateModifier(modNum: uint8)
      modifies this
      ensures bits == old(bits) + {VIRTUAL_OFFSET + modNum}
    {
      bits := bits + {VirtualBit(modNum)};
    }

    method DeactivateModifier(modNum: uint8)
      modifies this
      ensures bits == old(bits) - {VIRTUAL_OFFSET + modNum}
    {
      bits := bits - {VirtualBit(modNum)};
    }

    /** One more type is pressed if the state reports it. */
    static method PressIf(m: Modifier, t: nat, isOn: bool, ghost state: Bits, ghost done: set<nat>)
      returns (r: Modifier)
      requires m == ReportedIn(state, done) && isOn == Reports(state, t)
      ensures r == ReportedIn(state, done + {t})
    {
      r := m;
      if isOn {
        r := r.Press(t);
      }
    }

    method ToModifier() returns (m: Modifier)
      ensures m == ToModifierOf(bits)
    {
      m := DEFAULT_MODIFIER;
      m := PressIf(m, TYPE_SHIFT, LSHIFT in bits || RSHIFT in bits, bits, {});
      m := PressIf(m, TYPE_CONTROL, LCTRL in bits || RCTRL in bits, bits, {TYPE_SHIFT});
      m := PressIf(m, TYPE_ALT, LALT in bits || RALT in bits, bits, {TYPE_SHIFT, TYPE_CONTROL});
      ghost var done := {TYPE_SHIFT, TYPE_CONTROL, TYPE_ALT};
      m := PressIf(m, TYPE_WINDOWS, LWIN in bits || RWIN in bits, bits, done);
      m := PressIf(m, TYPE_CAPSLOCK, CAPSLOCK in bits, bits, done + {TYPE_WINDOWS});
      m := PressIf(m, TYPE_NUMLOCK, NUMLOCK in bits, bits, done + {TYPE_WINDOWS, TYPE_CAPSLOCK});
      m := PressIf(m, TYPE_SCROLLLOCK, SCROLLLOCK in bits, bits, done + {TYPE_WINDOWS, TYPE_CAPSLOCK, TYPE_NUMLOCK});
      assert done + {TYPE_WINDOWS, TYPE_CAPSLOCK, TYPE_NUMLOCK} + {TYPE_SCROLLLOCK} == REPORTED_TYPES;
    }
  }
}
