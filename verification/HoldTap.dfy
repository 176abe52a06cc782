/** `ModifierKeyHandler`: hold-or-tap detection from timestamps, without timers.
    Times are in nanoseconds; the source's clock is read once per event. */
module HoldTap {
  import opened Words

  datatype EventType = RELEASE | PRESS | REPEAT

  datatype HardwareModifier =
    NO_HW | HW_LSHIFT | HW_RSHIFT | HW_LCTRL | HW_RCTRL | HW_LALT | HW_RALT | HW_LWIN | HW_RWIN {
    function VKCode(): uint16 {
      match this
      case NO_HW => 0
      case HW_LSHIFT => 0xA0
      case HW_RSHIFT => 0xA1
      case HW_LCTRL => 0xA2
      case HW_RCTRL => 0xA3
      case HW_LALT => 0xA4
      case HW_RALT => 0xA5
      case HW_LWIN => 0x5B
      case HW_RWIN => 0x5C
    }
  }

  /** Every hardware modifier has a key code of its own. */
  lemma VKCodesDiffer(a: HardwareModifier, b: HardwareModifier)
    ensures a.VKCode() == b.VKCode() <==> a == b
  {
  }

  datatype NumberKeyState = IDLE | WAITING | MODIFIER_ACTIVE | TAP_DETECTED

  datatype ProcessingAction =
    | NOT_A_NUMBER_MODIFIER
    | ACTIVATE_MODIFIER
    | DEACTIVATE_MODIFIER
    | APPLY_SUBSTITUTION_PRESS
    | APPLY_SUBSTITUTION_RELEASE
    | WAITING_FOR_THRESHOLD

  /** modifierType is a virtual modifier number, or -1. */
  datatype NumberKeyResult = NumberKeyResult(action: ProcessingAction, output: uint16, modifierType: int, valid: bool)

  datatype KeyState = KeyState(
    state: NumberKeyState,
    pressTime: nat,
    targetModifier: HardwareModifier,
    isVirtual: bool,
    virtualModNum: uint8,
    tapOutput: uint16)

  const INITIAL_KEY_STATE := KeyState(IDLE, 0, NO_HW, false, 0, 0)

  type KeyStates = map<uint16, KeyState>

  const NS_PER_MS: nat := 1_000_000
  const NS_PER_SEC: nat := 1_000_000_000

  /** `duration_cast` drops the fraction, so the 5 s maximum is passed at 6 s. */
  predicate ExceededThreshold(threshold: uint32, pressTime: nat, now: nat) {
    now >= pressTime && (now - pressTime) / NS_PER_MS >= threshold
  }

  predicate ExceededMaximum(pressTime: nat, now: nat) {
    now >= pressTime && (now - pressTime) / NS_PER_SEC > 5
  }

  // ---- What the handler does to one key ----

  function Activated(k: KeyState, threshold: uint32, now: nat): KeyState {
    if k.state.WAITING? && ExceededThreshold(threshold, k.pressTime, now) then k.(state := MODIFIER_ACTIVE) else k
  }

  function ActivateWaiting(ks: KeyStates, threshold: uint32, now: nat): KeyStates {
    map c | c in ks :: Activated(ks[c], threshold, now)
  }

  /** The virtual keys whose waiting period ended. */
  function NewlyActive(ks: KeyStates, threshold: uint32, now: nat): set<uint16> {
    set c | c in ks && ks[c].isVirtual && ks[c].state.WAITING? && ExceededThreshold(threshold, ks[c].pressTime, now)
  }

  function ActiveResult(k: KeyState, action: ProcessingAction): NumberKeyResult {
    if k.isVirtual then NumberKeyResult(action, 0, k.virtualModNum, true)
    else NumberKeyResult(action, k.targetModifier.VKCode(), -1, true)
  }

  const IGNORED := NumberKeyResult(NOT_A_NUMBER_MODIFIER, 0, -1, false)
  const SUPPRESSED := NumberKeyResult(WAITING_FOR_THRESHOLD, 0, -1, false)

  function PressKey(k: KeyState, threshold: uint32, now: nat): (KeyState, NumberKeyResult) {
    match k.state
    case IDLE => (k.(state := WAITING, pressTime := now), SUPPRESSED)
    case WAITING =>
      if ExceededMaximum(k.pressTime, now) then (k.(state := IDLE), IGNORED)
      else if ExceededThreshold(threshold, k.pressTime, now) then
        (k.(state := MODIFIER_ACTIVE), ActiveResult(k, ACTIVATE_MODIFIER))
      else (k, SUPPRESSED)
    case MODIFIER_ACTIVE => (k, SUPPRESSED)
    case TAP_DETECTED => (k.(state := WAITING, pressTime := now), SUPPRESSED)
  }

  function ReleaseKey(k: KeyState, threshold: uint32, now: nat): (KeyState, NumberKeyResult) {
    var idle := k.(state := IDLE);
    match k.state
    case IDLE => (k, IGNORED)
    case WAITING =>
      if ExceededThreshold(threshold, k.pressTime, now) then (idle, SUPPRESSED)
      else if k.isVirtual && k.tapOutput == 0 then (idle, SUPPRESSED)
      else (idle, NumberKeyResult(APPLY_SUBSTITUTION_RELEASE, if k.isVirtual then k.tapOutput else 0, -1, true))
    case MODIFIER_ACTIVE => (idle, ActiveResult(k, DEACTIVATE_MODIFIER))
    case TAP_DETECTED => (idle, NumberKeyResult(APPLY_SUBSTITUTION_RELEASE, 0, -1, true))
  }

  /** One event of a registered key: its new state and the result. */
  function KeyStep(k: KeyState, threshold: uint32, typ: EventType, now: nat): (KeyState, NumberKeyResult) {
    match typ
    case PRESS => PressKey(k, threshold, now)
    case RELEASE => ReleaseKey(k, threshold, now)
    case REPEAT => (k, IGNORED)
  }

  class ModifierKeyHandler {
    var numberToModifier: map<uint16, HardwareModifier>
    var keyStates: KeyStates
    const threshold: uint32

    constructor (threshold: uint32)
      ensures numberToModifier == map[] && keyStates == map[] && this.threshold == threshold
    {
      this.threshold := threshold;
      numberToModifier := map[];
      keyStates := map[];
    }

    method RegisterNumberModifier(code: uint16, modifier: HardwareModifier)
      modifies this
      ensures numberToModifier == old(numberToModifier)[code := modifier]
      ensures keyStates == old(keyStates)[code := INITIAL_KEY_STATE.(targetModifier := modifier)]
    {
      numberToModifier := numberToModifier[code := modifier];
      keyStates := keyStates[code := INITIAL_KEY_STATE];
      keyStates := keyStates[code := keyStates[code].(targetModifier := modifier)];
    }

    predicate IsNumberModifier(code: uint16)
      reads this
    {
      code in numberToModifier
    }

    /** Keeps the other fields of a key that is registered already. */
    method RegisterVirtualModifierTrigger(trigger: uint16, modNum: uint8, tapOutput: uint16)
      modifies this`keyStates
      ensures keyStates.Keys == old(keyStates).Keys + {trigger}
      ensures forall c :: c in old(keyStates) && c != trigger ==> keyStates[c] == old(keyStates)[c]
      ensures keyStates[trigger].state == IDLE && keyStates[trigger].isVirtual
      ensures keyStates[trigger].virtualModNum == modNum && keyStates[trigger].tapOutput == tapOutput
      ensures var before := if trigger in old(keyStates) then old(keyStates)[trigger] else INITIAL_KEY_STATE;
        keyStates[trigger].targetModifier == before.targetModifier && keyStates[trigger].pressTime == before.pressTime
    {
      var k := if trigger in keyStates then keyStates[trigger] else INITIAL_KEY_STATE;
      k := k.(isVirtual := true, virtualModNum := modNum, tapOutput := tapOutput, state := IDLE);
      keyStates := keyStates[trigger := k];
    }

    /** `checkAndActivateWaitingModifiers`; the map is walked in no particular order. */
    method CheckAndActivateWaitingModifiers(now: nat) returns (toActivate: seq<(uint16, uint8)>)
      modifies this`keyStates
      ensures keyStates == ActivateWaiting(old(keyStates), threshold, now)
      ensures forall p :: p in toActivate <==>
                p.0 in NewlyActive(old(keyStates), threshold, now) && p.1 == old(keyStates)[p.0].virtualModNum
    {
      toActivate := [];
      var todo := keyStates.Keys;
      while todo != {}
        invariant todo <= keyStates.Keys == old(keyStates).Keys
        invariant forall c :: c in keyStates ==>
                    keyStates[c] == if c in todo then old(keyStates)[c]
                                    else Activated(old(keyStates)[c], threshold, now)
        invariant forall p :: p in toActivate <==>
                    p.0 in NewlyActive(old(keyStates), threshold, now) - todo
                    && p.1 == old(keyStates)[p.0].virtualModNum
      {
        var code :| code in todo;
        todo := todo - {code};
        var k := keyStates[code];
        if k.state.WAITING? {
          if ExceededThreshold(threshold, k.pressTime, now) {
            keyStates := keyStates[code := k.(state := MODIFIER_ACTIVE)];
            if k.isVirtual {
              toActivate := toActivate + [(code, k.virtualModNum)];
            }
          }
        }
      }
    }

    method ProcessNumberKey(code: uint16, typ: EventType, now: nat) returns (r: NumberKeyResult)
      modifies this`keyStates
      ensures code !in old(keyStates) ==> keyStates == old(keyStates) && r == IGNORED
      ensures code in old(keyStates) ==>
        var step := KeyStep(old(keyStates)[code], threshold, typ, now);
        keyStates == old(keyStates)[code := step.0] && r == step.1
    {
      if code !in keyStates {
        return IGNORED;
      }
      var k := keyStates[code];
      if typ.PRESS? {
        match k.state {
          case IDLE =>
            keyStates := keyStates[code := k.(state := WAITING, pressTime := now)];
            return SUPPRESSED;
          case WAITING =>
            if ExceededMaximum(k.pressTime, now) {
              keyStates := keyStates[code := k.(state := IDLE)];
              return IGNORED;
            }
            if ExceededThreshold(threshold, k.pressTime, now) {
              keyStates := keyStates[code := k.(state := MODIFIER_ACTIVE)];
              return ActiveResult(k, ACTIVATE_MODIFIER);
            }
            return SUPPRESSED;
          case MODIFIER_ACTIVE =>
            return SUPPRESSED;
          case TAP_DETECTED =>
            keyStates := keyStates[code := k.(state := WAITING, pressTime := now)];
            return SUPPRESSED;
        }
      } else if typ.RELEASE? {
        match k.state {
          case IDLE =>
            return IGNORED;
          case WAITING =>
            keyStates := keyStates[code := k.(state := IDLE)];
            if ExceededThreshold(threshold, k.pressTime, now) {
              return SUPPRESSED;
            }
            if k.isVirtual {
              if k.tapOutput != 0 {
                return NumberKeyResult(APPLY_SUBSTITUTION_RELEASE, k.tapOutput, -1, true);
              }
              return SUPPRESSED;
            }
            return NumberKeyResult(APPLY_SUBSTITUTION_RELEASE, 0, -1, true);
          case MODIFIER_ACTIVE =>
            keyStates := keyStates[code := k.(state := IDLE)];
            return ActiveResult(k, DEACTIVATE_MODIFIER);
          case TAP_DETECTED =>
            keyStates := keyStates[code := k.(state := IDLE)];
            return NumberKeyResult(APPLY_SUBSTITUTION_RELEASE, 0, -1, true);
        }
      }
      return IGNORED;
    }
  }
}
