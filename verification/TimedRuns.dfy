/** Timed runs of `processEvent`: the lazy, stateful machine computes a function of
    the event history alone. */
module TimedRuns {
  import opened Words
  import opened ModifierStates
  import opened Keyboards
  import opened LookupTable
  import opened HoldTap
  import opened EventProcessing

  /** otherBits are the standard and lock bits at the time of the event. */
  datatype TimedEvent = TimedEvent(now: nat, evdev: uint16, typ: EventType, otherBits: Bits)

  /** What a run starts from: registered keys, rules, and the modifier bits that an
      earlier processor may have left set. */
  datatype Config = Config(keys: KeyStates, bits: Bits, threshold: uint32, buckets: Buckets, maps: CodeMaps)

  type History = seq<TimedEvent>

  // ---- The machine ----

  function Virtuals(bits: Bits): Bits {
    set b | b in bits && IsVirtualBit(b)
  }

  /** Between two events the standard and lock bits may change at will. */
  function WithOthers(s: ProcessorState, others: Bits): ProcessorState {
    s.(bits := Virtuals(s.bits) + (others - Virtuals(others)))
  }

  function Next(cfg: Config, s: ProcessorState, e: TimedEvent): (ProcessorState, ProcessedEvent) {
    Step(cfg.buckets, cfg.threshold, cfg.maps, WithOthers(s, e.otherBits), e.evdev, e.typ, e.now)
  }

  /** The state after a history. */
  function Run(cfg: Config, h: History): ProcessorState {
    if h == [] then ProcessorState(cfg.keys, cfg.bits)
    else Next(cfg, Run(cfg, h[..|h| - 1]), h[|h| - 1]).0
  }

  /** The modifier state that rule lookup reads while event e is handled after h. */
  function SeenBits(cfg: Config, h: History, e: TimedEvent): Bits {
    AfterCheck(WithOthers(Run(cfg, h), e.otherBits), cfg.threshold, e.now).bits
  }

  ghost predicate Monotone(h: History) {
    forall i, j :: 0 <= i < j < |h| ==> h[i].now <= h[j].now
  }

  /** The keys of a new processor. */
  predicate Fresh(cfg: Config) {
    forall c :: c in cfg.keys ==> cfg.keys[c].state.IDLE?
  }

  /** No virtual modifier was on when the processor was replaced. */
  predicate NoLeftover(cfg: Config) {
    Virtuals(cfg.bits) == {}
  }

  /** No two virtual triggers share a modifier number. */
  predicate Distinct(cfg: Config) {
    forall c, d :: c in cfg.keys && d in cfg.keys && c != d && cfg.keys[c].isVirtual && cfg.keys[d].isVirtual
      ==> cfg.keys[c].virtualModNum != cfg.keys[d].virtualModNum
  }

  // ---- The specification: holding a key, told from the history ----

  predicate Presses(cfg: Config, e: TimedEvent, c: uint16) {
    e.typ.PRESS? && c != 0 && cfg.maps.evdevToYamy(e.evdev) == c
  }

  predicate Releases(cfg: Config, e: TimedEvent, c: uint16) {
    e.typ.RELEASE? && c != 0 && cfg.maps.evdevToYamy(e.evdev) == c
  }

  /** Event i pressed key c, it was not released since, and i was the first press
      since the previous release. */
  ghost predicate HeldFrom(cfg: Config, h: History, c: uint16, i: int) {
    && 0 <= i < |h| && Presses(cfg, h[i], c)
    && (forall j :: i < j < |h| ==> !Releases(cfg, h[j], c))
    && (forall j :: 0 <= j < i && Presses(cfg, h[j], c) ==> exists k :: j < k < i && Releases(cfg, h[k], c))
  }

  ghost predicate Held(cfg: Config, h: History, c: uint16) {
    exists i :: HeldFrom(cfg, h, c, i)
  }

  /** Held, and for at least the threshold at time now. */
  ghost predicate HeldLong(cfg: Config, h: History, c: uint16, now: nat) {
    exists i :: HeldFrom(cfg, h, c, i) && ExceededThreshold(cfg.threshold, h[i].now, now)
  }

  ghost function HeldBits(cfg: Config, h: History, now: nat): Bits {
    set c | c in cfg.keys && cfg.keys[c].isVirtual && HeldLong(cfg, h, c, now) :: VirtualBit(cfg.keys[c].virtualModNum)
  }

  /** The state a user expects lookup to read: modifiers held long enough. */
  ghost function ExpectedBits(cfg: Config, h: History, e: TimedEvent): Bits {
    HeldBits(cfg, h, e.now) + (e.otherBits - Virtuals(e.otherBits))
  }

  /** A hold of trigger c that lasted for the threshold ended at event r. */
  ghost predicate EndsHold(cfg: Config, h: History, c: uint16, r: int) {
    0 <= r < |h| && Releases(cfg, h[r], c) && HeldLong(cfg, h[..r], c, h[r].now)
  }

  predicate TriggerOf(cfg: Config, c: uint16, b: nat) {
    c in cfg.keys && cfg.keys[c].isVirtual && VirtualBit(cfg.keys[c].virtualModNum) == b
  }

  /** Some trigger of bit b was held for the threshold and released. */
  ghost predicate Cleared(cfg: Config, h: History, b: nat) {
    exists c: uint16, r: int :: TriggerOf(cfg, c, b) && EndsHold(cfg, h, c, r)
  }

  /** The inherited bits that are still set. */
  ghost function Leftover(cfg: Config, h: History): Bits {
    set b | b in Virtuals(cfg.bits) && !Cleared(cfg, h, b)
  }

  /** A trigger event is swallowed, becomes a tap, or (None) is looked up like any key. */
  ghost function TriggerOutcome(cfg: Config, h: History, e: TimedEvent, c: uint16): Option<ProcessedEvent>
    requires c in cfg.keys
  {
    var k := cfg.keys[c];
    if e.typ.PRESS? then Some(Suppressed(e.typ))
    else if e.typ.REPEAT? || !Held(cfg, h, c) then None
    else if HeldLong(cfg, h, c, e.now) then Some(Suppressed(e.typ))
    else if !k.isVirtual then None
    else if k.tapOutput == 0 then Some(Suppressed(e.typ))
    else Some(Emitted(cfg.maps, k.tapOutput, e.typ, true))
  }

  /** The result of looking up key c under the given modifiers, with rules in priority order. */
  function LookedUp(cfg: Config, rules: seq<SourceRule>, c: uint16, bits: Bits, typ: EventType): ProcessedEvent {
    match FirstHolding(rules, c, bits)
    case Some(output) => Emitted(cfg.maps, output, typ, false)
    case None => Emitted(cfg.maps, c, typ, false)
  }

  /** The result of event e after history h, when lookup reads the given modifiers. */
  ghost function Outcome(cfg: Config, rules: seq<SourceRule>, h: History, e: TimedEvent, bits: Bits): ProcessedEvent {
    var c := cfg.maps.evdevToYamy(e.evdev);
    if c == 0 then Suppressed(e.typ)
    else if c in cfg.keys && TriggerOutcome(cfg, h, e, c).Some? then TriggerOutcome(cfg, h, e, c).value
    else LookedUp(cfg, rules, c, bits, e.typ)
  }

  /** The result that a user expects. */
  ghost function Expected(cfg: Config, rules: seq<SourceRule>, h: History, e: TimedEvent): ProcessedEvent {
    Outcome(cfg, rules, h, e, ExpectedBits(cfg, h, e))
  }

  // ---- Facts about holding ----

  lemma MonotonePrefix(h: History, e: TimedEvent)
    requires Monotone(h + [e])
    ensures Monotone(h)
  {
    assert forall i :: 0 <= i < |h| ==> h[i] == (h + [e])[i];
  }

  lemma HeldFromUnique(cfg: Config, h: History, c: uint16, i: int, j: int)
    requires HeldFrom(cfg, h, c, i) && HeldFrom(cfg, h, c, j)
    ensures i == j
  {
  }

  lemma {:induction false} UnreleasedPressIsHeld(cfg: Config, h: History, c: uint16, j: int)
    requires 0 <= j < |h| && Presses(cfg, h[j], c)
    requires forall k :: j < k < |h| ==> !Releases(cfg, h[k], c)
    ensures Held(cfg, h, c)
    decreases j
  {
    if i :| 0 <= i < j && Presses(cfg, h[i], c) && forall k :: i < k < j ==> !Releases(cfg, h[k], c) {
      UnreleasedPressIsHeld(cfg, h, c, i);
    } else {
      assert HeldFrom(cfg, h, c, j);
    }
  }

  /** How one more event changes what is held. */
  lemma HeldStep(cfg: Config, h: History, e: TimedEvent, c: uint16)
    ensures Releases(cfg, e, c) ==> !Held(cfg, h + [e], c)
    ensures Presses(cfg, e, c) && !Held(cfg, h, c) ==> HeldFrom(cfg, h + [e], c, |h|)
    ensures !Releases(cfg, e, c) ==> forall i :: HeldFrom(cfg, h, c, i) ==> HeldFrom(cfg, h + [e], c, i)
    ensures !Presses(cfg, e, c) ==> forall i :: HeldFrom(cfg, h + [e], c, i) ==> HeldFrom(cfg, h, c, i)
  {
    var g := h + [e];
    if Presses(cfg, e, c) && !Held(cfg, h, c) {
      forall j | 0 <= j < |h| && Presses(cfg, g[j], c) ensures exists k :: j < k < |h| && Releases(cfg, g[k], c) {
        assert g[j] == h[j];
        if forall k :: j < k < |h| ==> !Releases(cfg, h[k], c) {
          UnreleasedPressIsHeld(cfg, h, c, j);
        }
        var k :| j < k < |h| && Releases(cfg, h[k], c);
        assert g[k] == h[k];
      }
    }
    forall i | HeldFrom(cfg, h, c, i) && !Releases(cfg, e, c) ensures HeldFrom(cfg, g, c, i) {
      forall j | 0 <= j < i && Presses(cfg, g[j], c) ensures exists k :: j < k < i && Releases(cfg, g[k], c) {
        var k :| j < k < i && Releases(cfg, h[k], c);
        assert g[k] == h[k];
      }
    }
    forall i | HeldFrom(cfg, g, c, i) && !Presses(cfg, e, c) ensures HeldFrom(cfg, h, c, i) {
      forall j | 0 <= j < i && Presses(cfg, h[j], c) ensures exists k :: j < k < i && Releases(cfg, h[k], c) {
        assert g[j] == h[j];
        var k :| j < k < i && Releases(cfg, g[k], c);
        assert g[k] == h[k];
      }
      forall j | i < j < |h| ensures !Releases(cfg, h[j], c) {
        assert g[j] == h[j];
      }
    }
    assert g[|h|] == e;
  }

  /** One more event ends the holds that last long enough when it releases their trigger. */
  lemma ClearedStep(cfg: Config, h: History, e: TimedEvent, b: nat)
    ensures Cleared(cfg, h + [e], b) <==>
      Cleared(cfg, h, b)
      || exists c: uint16 :: TriggerOf(cfg, c, b) && Releases(cfg, e, c) && HeldLong(cfg, h, c, e.now)
  {
    var g := h + [e];
    assert g[..|h|] == h && g[|h|] == e;
    assert forall r :: 0 <= r < |h| ==> g[..r] == h[..r] && g[r] == h[r];
    if c: uint16, r: int :| TriggerOf(cfg, c, b) && EndsHold(cfg, g, c, r) {
      assert r < |h| ==> EndsHold(cfg, h, c, r);
    }
    if c: uint16, r: int :| TriggerOf(cfg, c, b) && EndsHold(cfg, h, c, r) {
      assert EndsHold(cfg, g, c, r);
    }
    if c: uint16 :| TriggerOf(cfg, c, b) && Releases(cfg, e, c) && HeldLong(cfg, h, c, e.now) {
      assert EndsHold(cfg, g, c, |h|);
    }
  }
}
