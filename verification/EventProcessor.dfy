/** `EventProcessor::processEvent`: scan code mapping, hold/tap handling and rule
    lookup for one key event. */
module EventProcessing {
  import opened Words
  import opened ModifierStates
  import opened LookupTable
  import opened HoldTap

  /** The two keycode tables; 0 stands for "no such key" in both. */
  datatype CodeMaps = CodeMaps(evdevToYamy: uint16 -> uint16, yamyToEvdev: uint16 -> uint16) {
    predicate ZeroIsNoKey() {
      evdevToYamy(0) == 0 && yamyToEvdev(0) == 0
    }
  }

  datatype ProcessedEvent = ProcessedEvent(evdev: uint16, yamy: uint16, typ: EventType, valid: bool, isTap: bool)

  /** Virtual keys, modal modifiers and lock keys have no evdev code. */
  predicate HasNoEvdev(yamy: uint16) {
    0xD000 <= yamy <= 0xDFFF || 0xF000 <= yamy <= 0xF0FF || 0xF100 <= yamy <= 0xF1FF
  }

  function Layer3(maps: CodeMaps, yamy: uint16): uint16 {
    if HasNoEvdev(yamy) then 0 else maps.yamyToEvdev(yamy)
  }

  function Suppressed(typ: EventType): ProcessedEvent {
    ProcessedEvent(0, 0, typ, false, false)
  }

  /** The processed event for the code that layer 2 produced. */
  function Emitted(maps: CodeMaps, yamy: uint16, typ: EventType, isTap: bool): ProcessedEvent {
    if Layer3(maps, yamy) == 0 then Suppressed(typ) else ProcessedEvent(Layer3(maps, yamy), yamy, typ, true, isTap)
  }

  /** First matching rule, or the code itself. */
  function Substituted(buckets: Buckets, yamy: uint16, state: Bits): uint16 {
    match OutputFor(RulesAt(buckets, yamy), state)
    case Some(output) => output
    case None => yamy
  }

  // ---- One event as a step of the pair (handler keys, modifier bits) ----

  datatype ProcessorState = ProcessorState(keys: KeyStates, bits: Bits)

  /** After the lazy activation at the start of an event: what rule lookup reads. */
  function AfterCheck(s: ProcessorState, threshold: uint32, now: nat): ProcessorState {
    ProcessorState(
      ActivateWaiting(s.keys, threshold, now),
      s.bits + set c | c in NewlyActive(s.keys, threshold, now) :: VirtualBit(s.keys[c].virtualModNum))
  }

  /** What layer 2 makes of a handler result: new bits, code, tap flag. */
  function ApplyResult(buckets: Buckets, bits: Bits, yamy: uint16, r: NumberKeyResult): (Bits, uint16, bool)
    requires r.modifierType < 0x100
  {
    match r.action
    case NOT_A_NUMBER_MODIFIER => (bits, Substituted(buckets, yamy, bits), false)
    case WAITING_FOR_THRESHOLD => (bits, 0, false)
    case ACTIVATE_MODIFIER => (if r.modifierType >= 0 then bits + {VirtualBit(r.modifierType)} else bits, 0, false)
    case DEACTIVATE_MODIFIER => (if r.modifierType >= 0 then bits - {VirtualBit(r.modifierType)} else bits, 0, false)
    case APPLY_SUBSTITUTION_PRESS =>
      if r.output != 0 then (bits, r.output, true) else (bits, Substituted(buckets, yamy, bits), false)
    case APPLY_SUBSTITUTION_RELEASE =>
      if r.output != 0 then (bits, r.output, true) else (bits, Substituted(buckets, yamy, bits), false)
  }

  function HandlerStep(keys: KeyStates, threshold: uint32, yamy: uint16, typ: EventType, now: nat)
    : (r: (KeyStates, NumberKeyResult))
    ensures r.1.modifierType < 0x100
  {
    if yamy !in keys then (keys, IGNORED)
    else
      var step := KeyStep(keys[yamy], threshold, typ, now);
      (keys[yamy := step.0], step.1)
  }

  function Layer2(buckets: Buckets, threshold: uint32, s: ProcessorState, yamy: uint16, typ: EventType, now: nat)
    : (ProcessorState, uint16, bool)
  {
    var handled := HandlerStep(s.keys, threshold, yamy, typ, now);
    var applied := ApplyResult(buckets, s.bits, yamy, handled.1);
    (ProcessorState(handled.0, applied.0), applied.1, applied.2)
  }

  function Step(buckets: Buckets, threshold: uint32, maps: CodeMaps, s: ProcessorState, evdev: uint16,
                typ: EventType, now: nat)
    : (ProcessorState, ProcessedEvent)
  {
    var checked := AfterCheck(s, threshold, now);
    var yamy := maps.evdevToYamy(evdev);
    if yamy == 0 then (checked, Suppressed(typ))
    else
      var l2 := Layer2(buckets, threshold, checked, yamy, typ, now);
      (l2.0, Emitted(maps, l2.1, typ, l2.2))
  }

  class EventProcessor {
    const handler: ModifierKeyHandler
    const lookupTable: RuleLookupTable
    const maps: CodeMaps
    var currentEventIsTap: bool

    constructor (handler: ModifierKeyHandler, lookupTable: RuleLookupTable, maps: CodeMaps)
      ensures this.handler == handler && this.lookupTable == lookupTable && this.maps == maps
    {
      this.handler, this.lookupTable, this.maps := handler, lookupTable, maps;
      currentEventIsTap := false;
    }

    ghost function State(mods: ModifierState): ProcessorState
      reads handler, mods
    {
      ProcessorState(handler.keyStates, mods.bits)
    }

    method Lookup(yamy: uint16, mods: ModifierState) returns (out: uint16)
      ensures out == Substituted(lookupTable.buckets, yamy, mods.bits)
    {
      var m := lookupTable.FindMatch(yamy, mods.bits);
      match m {
        case Some(rule) => out := rule.output;
        case None => out := yamy;
      }
    }

    method Layer2ApplySubstitution(yamy: uint16, typ: EventType, mods: ModifierState?, now: nat) returns (out: uint16)
      requires !currentEventIsTap
      modifies this, handler, mods
      ensures mods == null ==> out == yamy && !currentEventIsTap && unchanged(handler)
      ensures mods != null ==>
        (State(mods), out, currentEventIsTap)
        == Layer2(lookupTable.buckets, handler.threshold, old(State(mods)), yamy, typ, now)
    {
      if mods == null {
        return yamy;
      }
      var r := handler.ProcessNumberKey(yamy, typ, now);
      match r.action {
        case NOT_A_NUMBER_MODIFIER =>
        case WAITING_FOR_THRESHOLD =>
          return 0;
        case ACTIVATE_MODIFIER =>
          if r.modifierType >= 0 {
            mods.ActivateModifier(r.modifierType);
          }
          return 0;
        case DEACTIVATE_MODIFIER =>
          if r.modifierType >= 0 {
            mods.DeactivateModifier(r.modifierType);
          }
          return 0;
        case APPLY_SUBSTITUTION_PRESS =>
          if r.output != 0 {
            currentEventIsTap := true;
            return r.output;
          }
        case APPLY_SUBSTITUTION_RELEASE =>
          if r.output != 0 {
            currentEventIsTap := true;
            return r.output;
          }
      }
      out := Lookup(yamy, mods);
    }

    method ActivateHeld(mods: ModifierState, now: nat)
      modifies handler, mods
      ensures State(mods) == AfterCheck(old(State(mods)), handler.threshold, now)
    {
      var toActivate := handler.CheckAndActivateWaitingModifiers(now);
      ghost var keys := old(handler.keyStates);
      for i := 0 to |toActivate|
        invariant handler.keyStates == ActivateWaiting(keys, handler.threshold, now)
        invariant mods.bits == old(mods.bits) + set j | 0 <= j < i :: VirtualBit(toActivate[j].1)
      {
        mods.ActivateModifier(toActivate[i].1);
      }
      ghost var activated := set j | 0 <= j < |toActivate| :: VirtualBit(toActivate[j].1);
      ghost var newly := set c | c in NewlyActive(keys, handler.threshold, now) :: VirtualBit(keys[c].virtualModNum);
      forall b | b in newly ensures b in activated {
        var c :| c in NewlyActive(keys, handler.threshold, now) && b == VirtualBit(keys[c].virtualModNum);
        assert (c, keys[c].virtualModNum) in toActivate;
      }
      forall b | b in activated ensures b in newly {
        var j :| 0 <= j < |toActivate| && b == VirtualBit(toActivate[j].1);
        assert toActivate[j] in toActivate;
      }
      assert activated == newly;
    }

    /** Without a modifier state there is neither hold detection nor lookup. */
    method ProcessEvent(evdev: uint16, typ: EventType, mods: ModifierState?, now: nat) returns (r: ProcessedEvent)
      modifies this, handler, mods
      ensures mods == null ==> unchanged(handler)
      ensures mods == null ==>
        r == if maps.evdevToYamy(evdev) == 0 then Suppressed(typ)
             else Emitted(maps, maps.evdevToYamy(evdev), typ, false)
      ensures mods != null ==>
        (State(mods), r) == Step(lookupTable.buckets, handler.threshold, maps, old(State(mods)), evdev, typ, now)
    {
      currentEventIsTap := false;
      if mods != null {
        ActivateHeld(mods, now);
      }
      var l1 := maps.evdevToYamy(evdev);
      if l1 == 0 {
        return ProcessedEvent(0, 0, typ, false, false);
      }
      var l2 := Layer2ApplySubstitution(l1, typ, mods, now);
      var output := Layer3(maps, l2);
      if output == 0 {
        return ProcessedEvent(0, 0, typ, false, false);
      }
      return ProcessedEvent(output, l2, typ, true, currentEventIsTap);
    }
  }
}
