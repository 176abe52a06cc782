/** The hypotheses of the hold theorem are exact: distinct modifier numbers, a threshold
    of at most 6 seconds, and no modifier left on by an earlier processor. */
module ExactHypotheses {
  import opened Words
  import opened ModifierStates
  import opened Keyboards
  import opened HoldTap
  import opened EventProcessing
  import opened TimedRuns
  import opened RunInvariant

  /** Every registered trigger is a key that can be pressed. */
  predicate Reachable(cfg: Config, evdevOf: map<uint16, uint16>) {
    forall c :: c in cfg.keys ==> c != 0 && c in evdevOf && cfg.maps.evdevToYamy(evdevOf[c]) == c
  }

  ghost predicate AlwaysAsExpected(cfg: Config) {
    forall h: History, e: TimedEvent :: Monotone(h + [e]) ==> SeenBits(cfg, h, e) == ExpectedBits(cfg, h, e)
  }

  function At(now: nat, evdev: uint16, typ: EventType): TimedEvent {
    TimedEvent(now, evdev, typ, {})
  }

  lemma AfterFirstPress(cfg: Config, s: ProcessorState, e: TimedEvent, c: uint16)
    requires c in s.keys && s.keys[c].state.IDLE? && Presses(cfg, e, c)
    ensures var n := Next(cfg, s, e).0; c in n.keys && n.keys[c] == s.keys[c].(state := WAITING, pressTime := e.now)
  {
  }

  lemma AfterOtherKey(cfg: Config, s: ProcessorState, e: TimedEvent, c: uint16)
    requires c in s.keys && cfg.maps.evdevToYamy(e.evdev) != c
    ensures var n := Next(cfg, s, e).0; c in n.keys && n.keys[c] == Activated(s.keys[c], cfg.threshold, e.now)
  {
  }

  /** Releasing an active trigger switches its modifier off, whoever else holds it. */
  lemma AfterRelease(cfg: Config, s: ProcessorState, e: TimedEvent, c: uint16)
    requires c in s.keys && s.keys[c].isVirtual && Releases(cfg, e, c)
    requires Activated(s.keys[c], cfg.threshold, e.now).state.MODIFIER_ACTIVE?
    ensures VirtualBit(s.keys[c].virtualModNum) !in Next(cfg, s, e).0.bits
  {
  }

  /** Nothing switches a modifier on at an event when no trigger of it ends its wait. */
  lemma SeenStaysOff(cfg: Config, s: ProcessorState, e: TimedEvent, v: uint8)
    requires VirtualBit(v) !in s.bits
    requires forall c :: c in s.keys && s.keys[c].isVirtual && s.keys[c].virtualModNum == v
               ==> !s.keys[c].state.WAITING?
    ensures VirtualBit(v) !in Checked(cfg, s, e).bits
  {
  }

  /** c and d share modifier v; all keys but c and d are idle. */
  ghost predicate OnlyTheseTwo(s: ProcessorState, c: uint16, d: uint16, v: uint8) {
    && c in s.keys && d in s.keys && c != d
    && s.keys[c].isVirtual && s.keys[d].isVirtual
    && s.keys[c].virtualModNum == s.keys[d].virtualModNum == v
    && forall f :: f in s.keys && f != c && f != d ==> s.keys[f].state.IDLE?
  }

  /** Events change the state and the press time of a key, nothing else. */
  lemma KeyAfterStatic(cfg: Config, e: TimedEvent, c: uint16, k: KeyState)
    ensures var n := KeyAfter(cfg, e, c, k); n == k.(state := n.state, pressTime := n.pressTime)
  {
  }

  lemma NextOnlyTheseTwo(cfg: Config, s: ProcessorState, e: TimedEvent, c: uint16, d: uint16, v: uint8)
    requires OnlyTheseTwo(s, c, d, v) && cfg.maps.evdevToYamy(e.evdev) in {c, d}
    ensures OnlyTheseTwo(Next(cfg, s, e).0, c, d, v)
  {
    var n := Next(cfg, s, e).0;
    NextKeys(cfg, s, e);
    forall f | f in s.keys
      ensures n.keys[f].isVirtual == s.keys[f].isVirtual && n.keys[f].virtualModNum == s.keys[f].virtualModNum
      ensures f != c && f != d && s.keys[f].state.IDLE? ==> n.keys[f].state.IDLE?
    {
      KeyAfterStatic(cfg, e, f, Checked(cfg, s, e).keys[f]);
    }
  }

  lemma SharedRunEnd(cfg: Config, s2: ProcessorState, e2: TimedEvent, e: TimedEvent, c: uint16, d: uint16, v: uint8)
    requires OnlyTheseTwo(s2, c, d, v) && Releases(cfg, e2, c)
    requires Activated(s2.keys[c], cfg.threshold, e2.now).state.MODIFIER_ACTIVE?
    requires Activated(s2.keys[d], cfg.threshold, e2.now).state.MODIFIER_ACTIVE?
    ensures VirtualBit(v) !in Checked(cfg, Next(cfg, s2, e2).0, e).bits
  {
    var s3 := Next(cfg, s2, e2).0;
    NextOnlyTheseTwo(cfg, s2, e2, c, d, v);
    NextKeys(cfg, s2, e2);
    AfterRelease(cfg, s2, e2, c);
    SeenStaysOff(cfg, s3, e, v);
  }

  lemma SharedRunTail(cfg: Config, s1: ProcessorState, e1: TimedEvent, e2: TimedEvent, e: TimedEvent,
                      c: uint16, d: uint16, v: uint8)
    requires OnlyTheseTwo(s1, c, d, v) && s1.keys[d].state.IDLE? && s1.keys[c].state.WAITING?
    requires Presses(cfg, e1, d) && Releases(cfg, e2, c)
    requires ExceededThreshold(cfg.threshold, s1.keys[c].pressTime, e2.now)
    requires ExceededThreshold(cfg.threshold, e1.now, e2.now)
    ensures VirtualBit(v) !in Checked(cfg, Next(cfg, Next(cfg, s1, e1).0, e2).0, e).bits
  {
    var s2 := Next(cfg, s1, e1).0;
    NextOnlyTheseTwo(cfg, s1, e1, c, d, v);
    AfterFirstPress(cfg, s1, e1, d);
    AfterOtherKey(cfg, s1, e1, c);
    SharedRunEnd(cfg, s2, e2, e, c, d, v);
  }

  /** Press c, press d, release c when both are held long enough: d is still held,
      yet its modifier is off. */
  lemma SharedRun(cfg: Config, s0: ProcessorState, e0: TimedEvent, e1: TimedEvent, e2: TimedEvent, e: TimedEvent,
                  c: uint16, d: uint16, v: uint8)
    requires OnlyTheseTwo(s0, c, d, v) && s0.keys[c].state.IDLE? && s0.keys[d].state.IDLE?
    requires Presses(cfg, e0, c) && Presses(cfg, e1, d) && Releases(cfg, e2, c)
    requires ExceededThreshold(cfg.threshold, e0.now, e2.now) && ExceededThreshold(cfg.threshold, e1.now, e2.now)
    ensures var s3 := Next(cfg, Next(cfg, Next(cfg, s0, e0).0, e1).0, e2).0;
      VirtualBit(v) !in Checked(cfg, s3, e).bits
  {
    var s1 := Next(cfg, s0, e0).0;
    NextOnlyTheseTwo(cfg, s0, e0, c, d, v);
    AfterFirstPress(cfg, s0, e0, c);
    AfterOtherKey(cfg, s0, e0, d);
    SharedRunTail(cfg, s1, e1, e2, e, c, d, v);
  }

  /** The bit of a held trigger is missing from what lookup reads: not as expected. */
  lemma MissingBitFails(cfg: Config, h: History, e: TimedEvent, d: uint16, i: nat)
    requires Monotone(h + [e]) && d in cfg.keys && cfg.keys[d].isVirtual
    requires HeldFrom(cfg, h, d, i) && ExceededThreshold(cfg.threshold, h[i].now, e.now)
    requires VirtualBit(cfg.keys[d].virtualModNum) !in SeenBits(cfg, h, e)
    ensures !AlwaysAsExpected(cfg)
  {
  }

  lemma RunOfTwo(cfg: Config, e0: TimedEvent, e1: TimedEvent)
    ensures Run(cfg, [e0, e1]) == Next(cfg, Next(cfg, ProcessorState(cfg.keys, cfg.bits), e0).0, e1).0
  {
    assert [e0, e1][..1] == [e0] && [e0][..0] == [];
    assert Run(cfg, [e0]) == Next(cfg, Run(cfg, []), e0).0;
  }

  lemma RunOfThree(cfg: Config, e0: TimedEvent, e1: TimedEvent, e2: TimedEvent)
    ensures Run(cfg, [e0, e1, e2])
         == Next(cfg, Next(cfg, Next(cfg, ProcessorState(cfg.keys, cfg.bits), e0).0, e1).0, e2).0
  {
    assert [e0, e1, e2][..2] == [e0, e1];
    RunOfTwo(cfg, e0, e1);
  }

  lemma SharedSeen(cfg: Config, e0: TimedEvent, e1: TimedEvent, e2: TimedEvent, e: TimedEvent, c: uint16, d: uint16)
    requires Fresh(cfg) && c in cfg.keys && d in cfg.keys && c != d && cfg.keys[c].isVirtual && cfg.keys[d].isVirtual
    requires cfg.keys[c].virtualModNum == cfg.keys[d].virtualModNum
    requires Presses(cfg, e0, c) && Presses(cfg, e1, d) && Releases(cfg, e2, c)
    requires ExceededThreshold(cfg.threshold, e0.now, e2.now) && ExceededThreshold(cfg.threshold, e1.now, e2.now)
    ensures VirtualBit(cfg.keys[d].virtualModNum) !in SeenBits(cfg, [e0, e1, e2], e)
  {
    SharedRun(cfg, ProcessorState(cfg.keys, cfg.bits), e0, e1, e2, e, c, d, cfg.keys[c].virtualModNum);
    RunOfThree(cfg, e0, e1, e2);
  }

  /** Releasing one of two triggers of a modifier switches it off under the other. */
  lemma SharedNumberFails(cfg: Config, evdevOf: map<uint16, uint16>, c: uint16, d: uint16)
    requires Fresh(cfg) && Reachable(cfg, evdevOf)
    requires c in cfg.keys && d in cfg.keys && c != d && cfg.keys[c].isVirtual && cfg.keys[d].isVirtual
    requires cfg.keys[c].virtualModNum == cfg.keys[d].virtualModNum
    ensures !AlwaysAsExpected(cfg)
  {
    var t := cfg.threshold * NS_PER_MS;
    assert t / NS_PER_MS == cfg.threshold;
    var e0, e1, e2 := At(0, evdevOf[c], PRESS), At(0, evdevOf[d], PRESS), At(t, evdevOf[c], RELEASE);
    var e := At(t, evdevOf[d], RELEASE);
    SharedSeen(cfg, e0, e1, e2, e, c, d);
    MissingBitFails(cfg, [e0, e1, e2], e, d, 1);
  }

  lemma PastMaximum(cfg: Config, s0: ProcessorState, e0: TimedEvent, e1: TimedEvent, c: uint16)
    requires c in s0.keys && s0.keys[c].state.IDLE? && Presses(cfg, e0, c) && Presses(cfg, e1, c)
    requires forall v: uint8 :: VirtualBit(v) !in s0.bits
    requires forall d :: d in s0.keys ==> s0.keys[d].state.IDLE?
    requires ExceededMaximum(e0.now, e1.now) && !ExceededThreshold(cfg.threshold, e0.now, e1.now)
    ensures var s2 := Next(cfg, Next(cfg, s0, e0).0, e1).0;
      && s2.keys.Keys == s0.keys.Keys
      && (forall d :: d in s0.keys ==> s2.keys[d].state.IDLE?)
      && forall v: uint8 :: VirtualBit(v) !in s2.bits
  {
  }

  /** A second press after the maximum forgets the hold when the threshold is longer still. */
  lemma PastMaximumSeen(cfg: Config, e0: TimedEvent, e1: TimedEvent, e: TimedEvent, c: uint16)
    requires Fresh(cfg) && NoLeftover(cfg) && c in cfg.keys && cfg.keys[c].isVirtual
    requires forall d :: d in cfg.keys && d != c && cfg.keys[d].isVirtual
               ==> cfg.keys[d].virtualModNum != cfg.keys[c].virtualModNum
    requires Presses(cfg, e0, c) && Presses(cfg, e1, c)
    requires ExceededMaximum(e0.now, e1.now) && !ExceededThreshold(cfg.threshold, e0.now, e1.now)
    ensures VirtualBit(cfg.keys[c].virtualModNum) !in SeenBits(cfg, [e0, e1], e)
  {
    var s0 := ProcessorState(cfg.keys, cfg.bits);
    assert forall v: uint8 :: VirtualBit(v) in cfg.bits ==> VirtualBit(v) in Virtuals(cfg.bits);
    RunOfTwo(cfg, e0, e1);
    PastMaximum(cfg, s0, e0, e1, c);
    SeenStaysOff(cfg, Run(cfg, [e0, e1]), e, cfg.keys[c].virtualModNum);
  }

  lemma LongThresholdFails(cfg: Config, evdevOf: map<uint16, uint16>, c: uint16)
    requires Fresh(cfg) && NoLeftover(cfg) && Reachable(cfg, evdevOf) && Distinct(cfg)
    requires c in cfg.keys && cfg.keys[c].isVirtual && cfg.threshold > 6000
    ensures !AlwaysAsExpected(cfg)
  {
    var t := cfg.threshold * NS_PER_MS;
    assert t / NS_PER_MS == cfg.threshold;
    var e0, e1, e := At(0, evdevOf[c], PRESS), At(6 * NS_PER_SEC, evdevOf[c], PRESS), At(t, evdevOf[c], RELEASE);
    PastMaximumSeen(cfg, e0, e1, e, c);
    MissingBitFails(cfg, [e0, e1], e, c, 0);
  }

  /** An inherited modifier is on at the very first event. */
  lemma LeftoverFails(cfg: Config, b: nat)
    requires b in Virtuals(cfg.bits)
    ensures !AlwaysAsExpected(cfg)
  {
    var e := At(0, 0, PRESS);
    assert b in SeenBits(cfg, [], e) && b !in ExpectedBits(cfg, [], e);
    assert Monotone([] + [e]);
  }

  /** With some virtual trigger registered, lookup reads the expected modifiers in
      every run exactly when no two triggers share a modifier, the threshold does not
      pass 6 seconds, and no modifier was left on. */
  lemma ExpectedIff(cfg: Config, evdevOf: map<uint16, uint16>, c: uint16)
    requires Fresh(cfg) && Reachable(cfg, evdevOf) && cfg.maps.ZeroIsNoKey()
    requires c in cfg.keys && cfg.keys[c].isVirtual
    ensures AlwaysAsExpected(cfg) <==> Distinct(cfg) && cfg.threshold <= 6000 && NoLeftover(cfg)
  {
    if b :| b in Virtuals(cfg.bits) {
      LeftoverFails(cfg, b);
    } else if Distinct(cfg) && cfg.threshold <= 6000 {
      forall h: History, e: TimedEvent | Monotone(h + [e]) ensures SeenBits(cfg, h, e) == ExpectedBits(cfg, h, e) {
        SeenIsExpected(cfg, h, e);
      }
    } else if !Distinct(cfg) {
      var d, f :| d in cfg.keys && f in cfg.keys && d != f && cfg.keys[d].isVirtual && cfg.keys[f].isVirtual
                  && cfg.keys[d].virtualModNum == cfg.keys[f].virtualModNum;
      SharedNumberFails(cfg, evdevOf, d, f);
    } else {
      LongThresholdFails(cfg, evdevOf, c);
    }
  }
}
