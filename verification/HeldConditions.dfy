/** The two halves meet: the bits that holding a trigger sets are the bits that a
    compiled condition reads.  Everything is told in numbers. */
module HeldConditions {
  import opened Words
  import opened Modifiers
  import opened ModifierStates
  import opened Keyboards
  import opened RuleCompiler
  import opened HoldTap
  import opened EventProcessing
  import opened TimedRuns
  import opened RunInvariant

  /** At least t milliseconds lie between two nanosecond times. */
  predicate Apart(t: nat, from: nat, to: nat) {
    from + t * 1_000_000 <= to
  }

  lemma ThresholdInNanoseconds(threshold: uint32, pressTime: nat, now: nat)
    ensures ExceededThreshold(threshold, pressTime, now) <==> Apart(threshold, pressTime, now)
  {
  }

  /** The maximum is six whole seconds. */
  lemma MaximumInNanoseconds(pressTime: nat, now: nat)
    ensures ExceededMaximum(pressTime, now) <==> pressTime + 6_000_000_000 <= now
  {
  }

  /** Key c triggers virtual modifier v. */
  predicate Triggers(cfg: Config, c: uint16, v: uint8) {
    c in cfg.keys && cfg.keys[c].isVirtual && cfg.keys[c].virtualModNum == v
  }

  /** At time now, key c is held, and its first press since the last release is long enough ago. */
  ghost predicate HeldFor(cfg: Config, h: History, c: uint16, now: nat) {
    exists i :: HeldFrom(cfg, h, c, i) && Apart(cfg.threshold, h[i].now, now)
  }

  ghost predicate HeldNumber(cfg: Config, h: History, v: uint8, now: nat) {
    exists c :: Triggers(cfg, c, v) && HeldFor(cfg, h, c, now)
  }

  /** Event r released trigger c after a full hold. */
  ghost predicate FullHoldEnds(cfg: Config, h: History, c: uint16, r: int) {
    0 <= r < |h| && Releases(cfg, h[r], c) && HeldFor(cfg, h[..r], c, h[r].now)
  }

  /** Modifier v was inherited and no trigger of it has ended a full hold. */
  ghost predicate InheritedNumber(cfg: Config, h: History, v: uint8) {
    && 16 + v in cfg.bits
    && forall c, r :: Triggers(cfg, c, v) ==> !FullHoldEnds(cfg, h, c, r)
  }

  lemma HeldForIsHeldLong(cfg: Config, h: History, c: uint16, now: nat)
    ensures HeldFor(cfg, h, c, now) <==> HeldLong(cfg, h, c, now)
  {
    forall i | HeldFrom(cfg, h, c, i)
      ensures ExceededThreshold(cfg.threshold, h[i].now, now) <==> Apart(cfg.threshold, h[i].now, now)
    {
      ThresholdInNanoseconds(cfg.threshold, h[i].now, now);
    }
  }

  lemma InheritedIsLeftover(cfg: Config, h: History, v: uint8)
    ensures InheritedNumber(cfg, h, v) <==> 16 + v in Leftover(cfg, h)
  {
    forall c: uint16, r: int
      ensures Triggers(cfg, c, v) && FullHoldEnds(cfg, h, c, r) <==> TriggerOf(cfg, c, 16 + v) && EndsHold(cfg, h, c, r)
    {
      if 0 <= r < |h| {
        HeldForIsHeldLong(cfg, h[..r], c, h[r].now);
      }
    }
  }

  lemma HeldNumberIsHeldBit(cfg: Config, h: History, v: uint8, now: nat)
    ensures HeldNumber(cfg, h, v, now) <==> 16 + v in HeldBits(cfg, h, now)
  {
    forall c: uint16 ensures HeldFor(cfg, h, c, now) <==> HeldLong(cfg, h, c, now) {
      HeldForIsHeldLong(cfg, h, c, now);
    }
  }

  /** Bit 16 + v is read exactly while modifier v is held for the threshold or inherited. */
  lemma SeenNumber(cfg: Config, h: History, e: TimedEvent, v: uint8)
    requires WellFormed(cfg) && Monotone(h + [e])
    ensures 16 + v in SeenBits(cfg, h, e) <==> HeldNumber(cfg, h, v, e.now) || InheritedNumber(cfg, h, v)
  {
    SeenIsExpected(cfg, h, e);
    InheritedIsLeftover(cfg, h, v);
    HeldNumberIsHeldBit(cfg, h, v, e.now);
    assert IsVirtualBit(16 + v);
  }

  /** The standard and lock bits that lookup reads are those of the event. */
  lemma SeenOthers(cfg: Config, h: History, e: TimedEvent, b: nat)
    requires b < 16 || b >= 272
    ensures b in SeenBits(cfg, h, e) <==> b in e.otherBits
  {
    OtherBits(cfg, Run(cfg, h), e, b);
  }

  /** What any user condition comes to in any run: its standard and lock part is read
      from the event, each virtual modifier it requires must be held or inherited. */
  lemma ConditionInRun(cfg: Config, h: History, e: TimedEvent, from: ModifiedKey)
    requires WellFormed(cfg) && Monotone(h + [e])
    ensures ConditionHolds(from, SeenBits(cfg, h, e)) <==>
      && TypesHold(from.modifier, e.otherBits) && LocksHold(from.modifier, 10, e.otherBits)
      && forall v :: v in from.virtualMods ==> HeldNumber(cfg, h, v, e.now) || InheritedNumber(cfg, h, v)
  {
    var seen := SeenBits(cfg, h, e);
    assert TypesHold(from.modifier, seen) <==> TypesHold(from.modifier, e.otherBits) by {
      forall b: nat | b < 16 ensures b in seen <==> b in e.otherBits {
        SeenOthers(cfg, h, e, b);
      }
    }
    assert LocksHold(from.modifier, LOCK_TYPES, seen) <==> LocksHold(from.modifier, LOCK_TYPES, e.otherBits) by {
      forall i: nat ensures LockHolds(from.modifier, i, seen) <==> LockHolds(from.modifier, i, e.otherBits) {
        SeenOthers(cfg, h, e, LOCK_OFFSET + i);
      }
    }
    forall v: uint8 ensures 16 + v in seen <==> HeldNumber(cfg, h, v, e.now) || InheritedNumber(cfg, h, v) {
      SeenNumber(cfg, h, e, v);
    }
    assert VirtualsHold(from.virtualMods, 256, seen) <==> forall v: uint8 :: v in from.virtualMods ==> 16 + v in seen;
  }

  /** A modifier that does not care about anything. */
  const ANY := Modifier({}, set t | 0 <= t < TYPE_END)

  /** A condition that requires modifier v and nothing else. */
  lemma VirtualConditionInRun(cfg: Config, h: History, e: TimedEvent, from: ModifiedKey, v: uint8)
    requires WellFormed(cfg) && Monotone(h + [e])
    requires from.virtualMods == {v} && from.modifier == ANY
    ensures ConditionHolds(from, SeenBits(cfg, h, e)) <==> HeldNumber(cfg, h, v, e.now) || InheritedNumber(cfg, h, v)
  {
    ConditionInRun(cfg, h, e, from);
    forall i: nat | i < LOCK_TYPES ensures LockHolds(from.modifier, i, e.otherBits) {
      assert TYPE_LOCK0 + i in from.modifier.dontcares;
    }
  }
}
