/** Timed runs: the invariant that couples the handler with the modifier bits, and the
    refinement of every run. */
module RunInvariant {
  import opened Words
  import opened ModifierStates
  import opened Keyboards
  import opened RuleCompiler
  import opened LookupTable
  import opened HoldTap
  import opened EventProcessing
  import opened TimedRuns

  // ---- The invariant of a run ----

  /** A key's state is what the history says about it; last is the time of the last event. */
  ghost predicate KeyAgrees(cfg: Config, h: History, c: uint16, k: KeyState)
    requires c in cfg.keys
  {
    && k == cfg.keys[c].(state := k.state, pressTime := k.pressTime)
    && !k.state.TAP_DETECTED?
    && (k.state.IDLE? <==> !Held(cfg, h, c))
    && (forall i :: HeldFrom(cfg, h, c, i) ==> h[i].now == k.pressTime)
    && (k.state.MODIFIER_ACTIVE? ==> h != [] && ExceededThreshold(cfg.threshold, k.pressTime, h[|h| - 1].now))
  }

  ghost predicate ActiveTrigger(keys: KeyStates, c: uint16, v: uint8) {
    c in keys && keys[c].isVirtual && keys[c].virtualModNum == v && keys[c].state.MODIFIER_ACTIVE?
  }

  /** A virtual modifier bit is set exactly when it is left over or a trigger of it is active. */
  ghost predicate BitsCoupled(s: ProcessorState, left: Bits) {
    forall v: uint8 ::
      VirtualBit(v) in s.bits <==> (VirtualBit(v) in left || exists c: uint16 :: ActiveTrigger(s.keys, c, v))
  }

  ghost predicate Inv(cfg: Config, h: History, s: ProcessorState) {
    && s.keys.Keys == cfg.keys.Keys
    && (forall c :: c in cfg.keys ==> KeyAgrees(cfg, h, c, s.keys[c]))
    && BitsCoupled(s, Leftover(cfg, h))
  }

  /** What the lazy activation makes of a key: active exactly when held long enough. */
  ghost predicate KeyChecked(cfg: Config, h: History, c: uint16, k: KeyState, now: nat)
    requires c in cfg.keys
  {
    && k == cfg.keys[c].(state := k.state, pressTime := k.pressTime)
    && !k.state.TAP_DETECTED?
    && (k.state.IDLE? <==> !Held(cfg, h, c))
    && (forall i :: HeldFrom(cfg, h, c, i) ==> h[i].now == k.pressTime)
    && (k.state.MODIFIER_ACTIVE? <==> HeldLong(cfg, h, c, now))
    && (k.state.WAITING? ==> !ExceededThreshold(cfg.threshold, k.pressTime, now))
  }

  function Checked(cfg: Config, s: ProcessorState, e: TimedEvent): ProcessorState {
    AfterCheck(WithOthers(s, e.otherBits), cfg.threshold, e.now)
  }

  lemma LaterStillExceeds(threshold: uint32, pressTime: nat, t: nat, now: nat)
    requires ExceededThreshold(threshold, pressTime, t) && t <= now
    ensures ExceededThreshold(threshold, pressTime, now)
  {
  }

  lemma CheckKeys(cfg: Config, h: History, s: ProcessorState, e: TimedEvent)
    requires Inv(cfg, h, s) && Monotone(h + [e])
    ensures forall c :: c in cfg.keys ==> KeyChecked(cfg, h, c, Checked(cfg, s, e).keys[c], e.now)
  {
    forall c | c in cfg.keys ensures KeyChecked(cfg, h, c, Checked(cfg, s, e).keys[c], e.now) {
      var k := s.keys[c];
      assert KeyAgrees(cfg, h, c, k);
      if k.state.MODIFIER_ACTIVE? {
        assert (h + [e])[|h| - 1] == h[|h| - 1] && (h + [e])[|h|] == e;
        LaterStillExceeds(cfg.threshold, k.pressTime, h[|h| - 1].now, e.now);
      }
    }
  }

  lemma CheckBits(cfg: Config, s: ProcessorState, e: TimedEvent, left: Bits)
    requires BitsCoupled(s, left)
    ensures BitsCoupled(Checked(cfg, s, e), left)
  {
    var t := Checked(cfg, s, e);
    var newly := NewlyActive(s.keys, cfg.threshold, e.now);
    forall v: uint8
      ensures VirtualBit(v) in t.bits <==> (VirtualBit(v) in left || exists c: uint16 :: ActiveTrigger(t.keys, c, v))
    {
      if c: uint16 :| ActiveTrigger(t.keys, c, v) {
        if c !in newly {
          assert ActiveTrigger(s.keys, c, v);
        }
      }
      if VirtualBit(v) in s.bits {
        if c: uint16 :| ActiveTrigger(s.keys, c, v) {
          assert ActiveTrigger(t.keys, c, v);
        }
      } else if VirtualBit(v) in t.bits {
        var c :| c in newly && VirtualBit(s.keys[c].virtualModNum) == VirtualBit(v);
        assert ActiveTrigger(t.keys, c, v);
      }
    }
  }

  /** A virtual bit is on exactly when a trigger of it is held long enough, or it is left over. */
  lemma CoupledBit(cfg: Config, h: History, t: ProcessorState, now: nat, left: Bits, v: uint8)
    requires t.keys.Keys == cfg.keys.Keys && BitsCoupled(t, left)
    requires forall c :: c in cfg.keys ==> KeyChecked(cfg, h, c, t.keys[c], now)
    ensures VirtualBit(v) in t.bits <==> VirtualBit(v) in HeldBits(cfg, h, now) + left
  {
    if c: uint16 :| ActiveTrigger(t.keys, c, v) {
      assert KeyChecked(cfg, h, c, t.keys[c], now);
    }
    if VirtualBit(v) in HeldBits(cfg, h, now) {
      var c :| c in cfg.keys && cfg.keys[c].isVirtual && HeldLong(cfg, h, c, now)
               && VirtualBit(v) == VirtualBit(cfg.keys[c].virtualModNum);
      assert KeyChecked(cfg, h, c, t.keys[c], now);
      assert ActiveTrigger(t.keys, c, v);
    }
  }

  lemma OtherBits(cfg: Config, s: ProcessorState, e: TimedEvent, b: nat)
    requires !IsVirtualBit(b)
    ensures b in Checked(cfg, s, e).bits <==> b in e.otherBits
  {
  }

  lemma BitByBit(bits: Bits, virtuals: Bits, others: Bits)
    requires forall b: nat :: b in virtuals ==> IsVirtualBit(b)
    requires forall v: uint8 :: VirtualBit(v) in bits <==> VirtualBit(v) in virtuals
    requires forall b: nat :: !IsVirtualBit(b) ==> (b in bits <==> b in others)
    ensures bits == virtuals + (others - Virtuals(others))
  {
    forall b: nat ensures b in bits <==> b in virtuals + (others - Virtuals(others)) {
      if IsVirtualBit(b) {
        var v: uint8 := b - VIRTUAL_OFFSET;
        assert b == VirtualBit(v);
      }
    }
  }

  /** After the check the modifier bits are those of the keys held long enough, and those left over. */
  lemma CheckedBitsExpected(cfg: Config, h: History, s: ProcessorState, e: TimedEvent)
    requires Inv(cfg, h, s) && Monotone(h + [e])
    ensures Checked(cfg, s, e).bits == ExpectedBits(cfg, h, e) + Leftover(cfg, h)
  {
    var t, left, held := Checked(cfg, s, e), Leftover(cfg, h), HeldBits(cfg, h, e.now);
    assert forall v: uint8 :: VirtualBit(v) in t.bits <==> VirtualBit(v) in held + left by {
      CheckKeys(cfg, h, s, e);
      CheckBits(cfg, s, e, left);
      forall v: uint8 ensures VirtualBit(v) in t.bits <==> VirtualBit(v) in held + left {
        CoupledBit(cfg, h, t, e.now, left, v);
      }
    }
    assert forall b: nat :: !IsVirtualBit(b) ==> (b in t.bits <==> b in e.otherBits) by {
      forall b: nat | !IsVirtualBit(b) ensures b in t.bits <==> b in e.otherBits {
        OtherBits(cfg, s, e, b);
      }
    }
    BitByBit(t.bits, held + left, e.otherBits);
  }

  // ---- One event keeps the invariant and gives the expected result ----

  predicate WellFormed(cfg: Config) {
    Fresh(cfg) && Distinct(cfg) && cfg.threshold <= 6000 && cfg.maps.ZeroIsNoKey()
  }

  /** A key that waits has not waited for the maximum when the threshold is at most 6 s. */
  lemma WaitingIsBelowMaximum(threshold: uint32, pressTime: nat, now: nat)
    requires threshold <= 6000 && !ExceededThreshold(threshold, pressTime, now)
    ensures !ExceededMaximum(pressTime, now)
  {
  }

  /** A key that the event is not about keeps its state. */
  lemma OtherKeyAgrees(cfg: Config, h: History, e: TimedEvent, c: uint16, k: KeyState)
    requires c in cfg.keys && KeyChecked(cfg, h, c, k, e.now) && !Presses(cfg, e, c) && !Releases(cfg, e, c)
    ensures KeyAgrees(cfg, h + [e], c, k)
  {
    HeldStep(cfg, h, e, c);
    if k.state.MODIFIER_ACTIVE? {
      var i :| HeldFrom(cfg, h, c, i) && ExceededThreshold(cfg.threshold, h[i].now, e.now);
    }
    forall i | HeldFrom(cfg, h + [e], c, i) ensures (h + [e])[i].now == k.pressTime {
      assert HeldFrom(cfg, h, c, i);
    }
    if Held(cfg, h, c) {
      var i :| HeldFrom(cfg, h, c, i);
      assert HeldFrom(cfg, h + [e], c, i);
    }
  }

  lemma PressedKeyAgrees(cfg: Config, h: History, e: TimedEvent, c: uint16, k: KeyState)
    requires cfg.threshold <= 6000 && c in cfg.keys && KeyChecked(cfg, h, c, k, e.now) && Presses(cfg, e, c)
    ensures KeyAgrees(cfg, h + [e], c, PressKey(k, cfg.threshold, e.now).0)
    ensures PressKey(k, cfg.threshold, e.now).1 == SUPPRESSED
    ensures PressKey(k, cfg.threshold, e.now).0.state.MODIFIER_ACTIVE? <==> k.state.MODIFIER_ACTIVE?
  {
    HeldStep(cfg, h, e, c);
    var g := h + [e];
    if k.state.WAITING? {
      WaitingIsBelowMaximum(cfg.threshold, k.pressTime, e.now);
    }
    if Held(cfg, h, c) {
      var i :| HeldFrom(cfg, h, c, i);
      assert HeldFrom(cfg, g, c, i);
      forall j | HeldFrom(cfg, g, c, j) ensures g[j].now == k.pressTime {
        HeldFromUnique(cfg, g, c, i, j);
      }
    } else {
      forall j | HeldFrom(cfg, g, c, j) ensures g[j].now == e.now {
        HeldFromUnique(cfg, g, c, |h|, j);
      }
    }
  }

  lemma ReleasedKeyAgrees(cfg: Config, h: History, e: TimedEvent, c: uint16, k: KeyState)
    requires c in cfg.keys && KeyChecked(cfg, h, c, k, e.now) && Releases(cfg, e, c)
    ensures KeyAgrees(cfg, h + [e], c, ReleaseKey(k, cfg.threshold, e.now).0)
    ensures ReleaseKey(k, cfg.threshold, e.now).0.state.IDLE?
  {
    HeldStep(cfg, h, e, c);
  }

  /** What event e makes of key c in state k. */
  function KeyAfter(cfg: Config, e: TimedEvent, c: uint16, k: KeyState): KeyState {
    if c != 0 && cfg.maps.evdevToYamy(e.evdev) == c then KeyStep(k, cfg.threshold, e.typ, e.now).0 else k
  }

  lemma NextKeys(cfg: Config, s: ProcessorState, e: TimedEvent)
    ensures Next(cfg, s, e).0.keys.Keys == s.keys.Keys
    ensures forall c :: c in s.keys ==> Next(cfg, s, e).0.keys[c] == KeyAfter(cfg, e, c, Checked(cfg, s, e).keys[c])
  {
  }

  lemma KeyAfterAgrees(cfg: Config, h: History, e: TimedEvent, c: uint16, k: KeyState)
    requires cfg.threshold <= 6000 && c in cfg.keys && KeyChecked(cfg, h, c, k, e.now)
    ensures KeyAgrees(cfg, h + [e], c, KeyAfter(cfg, e, c, k))
  {
    if Presses(cfg, e, c) {
      PressedKeyAgrees(cfg, h, e, c, k);
    } else if Releases(cfg, e, c) {
      ReleasedKeyAgrees(cfg, h, e, c, k);
    } else {
      OtherKeyAgrees(cfg, h, e, c, k);
    }
  }

  /** The keys after one event. */
  lemma StepKeys(cfg: Config, h: History, s: ProcessorState, e: TimedEvent)
    requires WellFormed(cfg) && Inv(cfg, h, s) && Monotone(h + [e])
    ensures Next(cfg, s, e).0.keys.Keys == cfg.keys.Keys
    ensures forall c :: c in cfg.keys ==> KeyAgrees(cfg, h + [e], c, Next(cfg, s, e).0.keys[c])
  {
    CheckKeys(cfg, h, s, e);
    NextKeys(cfg, s, e);
    forall c | c in cfg.keys ensures KeyAgrees(cfg, h + [e], c, Next(cfg, s, e).0.keys[c]) {
      KeyAfterAgrees(cfg, h, e, c, Checked(cfg, s, e).keys[c]);
    }
  }

  /** The virtual modifier that event e switches off when it is about key y. */
  function SwitchedOff(e: TimedEvent, k: KeyState): Bits {
    if e.typ.RELEASE? && k.isVirtual && k.state.MODIFIER_ACTIVE? then {VirtualBit(k.virtualModNum)} else {}
  }

  lemma NextBits(cfg: Config, s: ProcessorState, e: TimedEvent)
    ensures var y := cfg.maps.evdevToYamy(e.evdev);
      var t := Checked(cfg, s, e);
      Next(cfg, s, e).0.bits ==
        if y == 0 || y !in t.keys then t.bits
        else ApplyResult(cfg.buckets, t.bits, y, KeyStep(t.keys[y], cfg.threshold, e.typ, e.now).1).0
  {
  }

  lemma KeyStepBits(cfg: Config, h: History, e: TimedEvent, c: uint16, k: KeyState, bits: Bits)
    requires cfg.threshold <= 6000 && c in cfg.keys && c != 0 && KeyChecked(cfg, h, c, k, e.now)
    requires cfg.maps.evdevToYamy(e.evdev) == c
    ensures ApplyResult(cfg.buckets, bits, c, KeyStep(k, cfg.threshold, e.typ, e.now).1).0 == bits - SwitchedOff(e, k)
  {
  }

  predicate SameTriggers(cfg: Config, keys: KeyStates) {
    forall d :: d in cfg.keys && d in keys ==>
      keys[d].isVirtual == cfg.keys[d].isVirtual && keys[d].virtualModNum == cfg.keys[d].virtualModNum
  }

  lemma CheckedTriggers(cfg: Config, h: History, s: ProcessorState, e: TimedEvent)
    requires Inv(cfg, h, s)
    ensures SameTriggers(cfg, Checked(cfg, s, e).keys)
  {
  }

  /** Only an active trigger can be deactivated, and no other trigger has its number. */
  lemma SwitchingOffKeepsCoupling(cfg: Config, e: TimedEvent, c: uint16, t: ProcessorState, n: ProcessorState,
                                  left: Bits)
    requires Distinct(cfg) && BitsCoupled(t, left) && c in t.keys && t.keys.Keys == cfg.keys.Keys
    requires SameTriggers(cfg, t.keys)
    requires n.bits == t.bits - SwitchedOff(e, t.keys[c])
    requires n.keys.Keys == t.keys.Keys && forall d :: d in t.keys && d != c ==> n.keys[d] == t.keys[d]
    requires n.keys[c] == t.keys[c].(state := n.keys[c].state, pressTime := n.keys[c].pressTime)
    requires n.keys[c].state.MODIFIER_ACTIVE? <==> (!e.typ.RELEASE? && t.keys[c].state.MODIFIER_ACTIVE?)
    ensures BitsCoupled(n, left - SwitchedOff(e, t.keys[c]))
  {
    var left' := left - SwitchedOff(e, t.keys[c]);
    forall v: uint8
      ensures VirtualBit(v) in n.bits <==> (VirtualBit(v) in left' || exists d: uint16 :: ActiveTrigger(n.keys, d, v))
    {
      if d: uint16 :| ActiveTrigger(n.keys, d, v) {
        assert ActiveTrigger(t.keys, d, v);
      }
      if VirtualBit(v) in n.bits && VirtualBit(v) !in left {
        var d: uint16 :| ActiveTrigger(t.keys, d, v);
        assert ActiveTrigger(n.keys, d, v);
      }
    }
  }

  lemma ActiveAfter(cfg: Config, h: History, e: TimedEvent, c: uint16, k: KeyState)
    requires cfg.threshold <= 6000 && c in cfg.keys && c != 0 && KeyChecked(cfg, h, c, k, e.now)
    requires cfg.maps.evdevToYamy(e.evdev) == c
    ensures var n := KeyStep(k, cfg.threshold, e.typ, e.now).0;
      && n == k.(state := n.state, pressTime := n.pressTime)
      && (n.state.MODIFIER_ACTIVE? <==> (!e.typ.RELEASE? && k.state.MODIFIER_ACTIVE?))
  {
  }

  lemma TriggerBits(cfg: Config, h: History, e: TimedEvent, c: uint16, t: ProcessorState, n: ProcessorState, left: Bits)
    requires Distinct(cfg) && cfg.threshold <= 6000 && BitsCoupled(t, left) && SameTriggers(cfg, t.keys)
    requires t.keys.Keys == n.keys.Keys == cfg.keys.Keys && c in cfg.keys && c != 0
    requires KeyChecked(cfg, h, c, t.keys[c], e.now) && cfg.maps.evdevToYamy(e.evdev) == c
    requires forall d :: d in t.keys ==> n.keys[d] == KeyAfter(cfg, e, d, t.keys[d])
    requires n.bits == ApplyResult(cfg.buckets, t.bits, c, KeyStep(t.keys[c], cfg.threshold, e.typ, e.now).1).0
    ensures BitsCoupled(n, left - SwitchedOff(e, t.keys[c]))
  {
    KeyStepBits(cfg, h, e, c, t.keys[c], t.bits);
    ActiveAfter(cfg, h, e, c, t.keys[c]);
    SwitchingOffKeepsCoupling(cfg, e, c, t, n, left);
  }

  /** An event about no registered key leaves what is left over. */
  lemma LeftoverStays(cfg: Config, h: History, e: TimedEvent)
    requires cfg.maps.evdevToYamy(e.evdev) == 0 || cfg.maps.evdevToYamy(e.evdev) !in cfg.keys
    ensures Leftover(cfg, h + [e]) == Leftover(cfg, h)
  {
    forall b: nat ensures Cleared(cfg, h + [e], b) <==> Cleared(cfg, h, b) {
      ClearedStep(cfg, h, e, b);
    }
  }

  /** A leftover bit goes with the first full hold of a trigger of it. */
  lemma LeftoverStep(cfg: Config, h: History, e: TimedEvent, c: uint16, k: KeyState)
    requires c in cfg.keys && c != 0 && KeyChecked(cfg, h, c, k, e.now) && cfg.maps.evdevToYamy(e.evdev) == c
    ensures Leftover(cfg, h + [e]) == Leftover(cfg, h) - SwitchedOff(e, k)
  {
    forall b: nat ensures Cleared(cfg, h + [e], b) <==> Cleared(cfg, h, b) || b in SwitchedOff(e, k) {
      ClearedStep(cfg, h, e, b);
      assert b in SwitchedOff(e, k) <==> TriggerOf(cfg, c, b) && Releases(cfg, e, c) && HeldLong(cfg, h, c, e.now);
    }
  }

  lemma TriggerEventBits(cfg: Config, h: History, s: ProcessorState, e: TimedEvent, c: uint16)
    requires WellFormed(cfg) && c != 0 && c in cfg.keys && cfg.maps.evdevToYamy(e.evdev) == c
    requires Checked(cfg, s, e).keys.Keys == cfg.keys.Keys && SameTriggers(cfg, Checked(cfg, s, e).keys)
    requires BitsCoupled(Checked(cfg, s, e), Leftover(cfg, h))
    requires KeyChecked(cfg, h, c, Checked(cfg, s, e).keys[c], e.now)
    ensures BitsCoupled(Next(cfg, s, e).0, Leftover(cfg, h + [e]))
  {
    var t := Checked(cfg, s, e);
    NextKeys(cfg, s, e);
    NextBits(cfg, s, e);
    LeftoverStep(cfg, h, e, c, t.keys[c]);
    TriggerBits(cfg, h, e, c, t, Next(cfg, s, e).0, Leftover(cfg, h));
  }

  lemma ElsewhereBits(cfg: Config, h: History, s: ProcessorState, e: TimedEvent)
    requires var y := cfg.maps.evdevToYamy(e.evdev); y == 0 || (y !in cfg.keys && s.keys.Keys == cfg.keys.Keys)
    requires BitsCoupled(Checked(cfg, s, e), Leftover(cfg, h))
    ensures BitsCoupled(Next(cfg, s, e).0, Leftover(cfg, h + [e]))
  {
    NextBits(cfg, s, e);
    LeftoverStays(cfg, h, e);
    assert Next(cfg, s, e).0.keys == Checked(cfg, s, e).keys;
  }

  /** The virtual modifier bits after one event. */
  lemma StepBits(cfg: Config, h: History, s: ProcessorState, e: TimedEvent)
    requires WellFormed(cfg) && Inv(cfg, h, s) && Monotone(h + [e])
    ensures BitsCoupled(Next(cfg, s, e).0, Leftover(cfg, h + [e]))
  {
    var t := Checked(cfg, s, e);
    var y := cfg.maps.evdevToYamy(e.evdev);
    var left := Leftover(cfg, h);
    CheckBits(cfg, s, e, left);
    if y == 0 || y !in cfg.keys {
      ElsewhereBits(cfg, h, s, e);
    } else {
      assert KeyChecked(cfg, h, y, t.keys[y], e.now) by { CheckKeys(cfg, h, s, e); }
      CheckedTriggers(cfg, h, s, e);
      TriggerEventBits(cfg, h, s, e, y);
    }
  }

  lemma NextResult(cfg: Config, s: ProcessorState, e: TimedEvent)
    ensures var y := cfg.maps.evdevToYamy(e.evdev);
      var t := Checked(cfg, s, e);
      Next(cfg, s, e).1 ==
        if y == 0 then Suppressed(e.typ)
        else
          var handled := HandlerStep(t.keys, cfg.threshold, y, e.typ, e.now);
          var applied := ApplyResult(cfg.buckets, t.bits, y, handled.1);
          Emitted(cfg.maps, applied.1, e.typ, applied.2)
  {
  }

  /** What layer 2 emits for a registered key is the outcome its history determines. */
  lemma TriggerResult(cfg: Config, h: History, e: TimedEvent, c: uint16, k: KeyState, bits: Bits)
    requires cfg.threshold <= 6000 && cfg.maps.ZeroIsNoKey()
    requires c in cfg.keys && c != 0 && KeyChecked(cfg, h, c, k, e.now) && cfg.maps.evdevToYamy(e.evdev) == c
    ensures var applied := ApplyResult(cfg.buckets, bits, c, KeyStep(k, cfg.threshold, e.typ, e.now).1);
      var outcome := TriggerOutcome(cfg, h, e, c);
      if outcome.Some? then Emitted(cfg.maps, applied.1, e.typ, applied.2) == outcome.value
      else applied == (bits, Substituted(cfg.buckets, c, bits), false)
  {
  }

  lemma StepResult(cfg: Config, rules: seq<SourceRule>, h: History, s: ProcessorState, e: TimedEvent)
    requires WellFormed(cfg) && Inv(cfg, h, s) && Monotone(h + [e])
    requires Refines(cfg.buckets, rules)
    ensures Next(cfg, s, e).1 == Outcome(cfg, rules, h, e, ExpectedBits(cfg, h, e) + Leftover(cfg, h))
  {
    var y := cfg.maps.evdevToYamy(e.evdev);
    var t := Checked(cfg, s, e);
    CheckKeys(cfg, h, s, e);
    CheckedBitsExpected(cfg, h, s, e);
    NextResult(cfg, s, e);
    assert OutputFor(RulesAt(cfg.buckets, y), t.bits) == FirstHolding(rules, y, t.bits);
    if y != 0 && y in cfg.keys {
      TriggerResult(cfg, h, e, y, t.keys[y], t.bits);
    }
  }

  lemma {:induction false} RunKeepsInv(cfg: Config, h: History)
    requires WellFormed(cfg) && Monotone(h)
    ensures Inv(cfg, h, Run(cfg, h))
  {
    if h != [] {
      var before, e := h[..|h| - 1], h[|h| - 1];
      RunKeepsInv(cfg, before);
      assert before + [e] == h;
      StepKeys(cfg, before, Run(cfg, before), e);
      StepBits(cfg, before, Run(cfg, before), e);
    }
  }

  lemma NothingLeftOver(cfg: Config, h: History, bits: Bits)
    requires NoLeftover(cfg)
    ensures bits + Leftover(cfg, h) == bits
  {
  }

  lemma RunOutcome(cfg: Config, rules: seq<SourceRule>, h: History, e: TimedEvent)
    requires WellFormed(cfg) && Monotone(h + [e]) && Refines(cfg.buckets, rules)
    ensures Next(cfg, Run(cfg, h), e).1 == Outcome(cfg, rules, h, e, ExpectedBits(cfg, h, e) + Leftover(cfg, h))
  {
    MonotonePrefix(h, e);
    RunKeepsInv(cfg, h);
    StepResult(cfg, rules, h, Run(cfg, h), e);
  }

  /** Every event of every run gives the result that the history alone determines: the
      expected one, unless inherited modifiers are still on. */
  lemma RunRefines(cfg: Config, subs: seq<Substitute>, keymap: Option<seq<KeyAssignment>>, h: History, e: TimedEvent)
    requires WellFormed(cfg) && Monotone(h + [e])
    requires Refines(cfg.buckets, SourceRules(subs, keymap))
    ensures Next(cfg, Run(cfg, h), e).1
         == Outcome(cfg, SourceRules(subs, keymap), h, e, ExpectedBits(cfg, h, e) + Leftover(cfg, h))
    ensures NoLeftover(cfg) ==> Next(cfg, Run(cfg, h), e).1 == Expected(cfg, SourceRules(subs, keymap), h, e)
  {
    if NoLeftover(cfg) {
      NothingLeftOver(cfg, h, ExpectedBits(cfg, h, e));
    }
    RunOutcome(cfg, SourceRules(subs, keymap), h, e);
  }

  /** The modifier state that lookup reads is the one a user expects: a virtual
      modifier is on exactly while a trigger of it is held for the threshold.  On top
      of that an inherited modifier is on until a full hold of its trigger ends. */
  lemma SeenIsExpected(cfg: Config, h: History, e: TimedEvent)
    requires WellFormed(cfg) && Monotone(h + [e])
    ensures SeenBits(cfg, h, e) == ExpectedBits(cfg, h, e) + Leftover(cfg, h)
    ensures NoLeftover(cfg) ==> SeenBits(cfg, h, e) == ExpectedBits(cfg, h, e)
  {
    MonotonePrefix(h, e);
    RunKeepsInv(cfg, h);
    CheckedBitsExpected(cfg, h, Run(cfg, h), e);
  }

  /** For one trigger: its bit is read exactly while it is held for the threshold, or
      while the bit is left over. */
  lemma SeenForTrigger(cfg: Config, h: History, e: TimedEvent, c: uint16)
    requires WellFormed(cfg) && Monotone(h + [e]) && c in cfg.keys && cfg.keys[c].isVirtual
    ensures var b := VirtualBit(cfg.keys[c].virtualModNum);
      b in SeenBits(cfg, h, e) <==> HeldLong(cfg, h, c, e.now) || b in Leftover(cfg, h)
  {
    SeenIsExpected(cfg, h, e);
  }

  /** In every run no key is ever in TAP_DETECTED, and no key that still waits after
      the lazy check has passed the maximum. */
  lemma UnreachableBranches(cfg: Config, h: History, e: TimedEvent, c: uint16)
    requires WellFormed(cfg) && Monotone(h + [e]) && c in cfg.keys
    ensures var keys := Checked(cfg, Run(cfg, h), e).keys;
      && c in keys && !keys[c].state.TAP_DETECTED?
      && (keys[c].state.WAITING? ==> !ExceededMaximum(keys[c].pressTime, e.now))
  {
    MonotonePrefix(h, e);
    RunKeepsInv(cfg, h);
    CheckKeys(cfg, h, Run(cfg, h), e);
    var k := Checked(cfg, Run(cfg, h), e).keys[c];
    assert KeyChecked(cfg, h, c, k, e.now);
    if k.state.WAITING? {
      WaitingIsBelowMaximum(cfg.threshold, k.pressTime, e.now);
    }
  }
}
