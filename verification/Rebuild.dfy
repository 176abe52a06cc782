/** A processor is replaced while a virtual modifier is on: the new one starts with idle
    keys, but the modifier state goes on. */
module Rebuild {
  import opened Words
  import opened ModifierStates
  import opened HoldTap
  import opened EventProcessing
  import opened TimedRuns
  import opened RunInvariant

  /** A bit that is on at an event stays on if the event does not release its trigger. */
  lemma BitStays(cfg: Config, h: History, s: ProcessorState, e: TimedEvent, c: uint16)
    requires Distinct(cfg) && cfg.threshold <= 6000 && c in cfg.keys && cfg.keys[c].isVirtual && !Releases(cfg, e, c)
    requires Checked(cfg, s, e).keys.Keys == cfg.keys.Keys && SameTriggers(cfg, Checked(cfg, s, e).keys)
    requires var y := cfg.maps.evdevToYamy(e.evdev);
      y in cfg.keys ==> KeyChecked(cfg, h, y, Checked(cfg, s, e).keys[y], e.now)
    requires VirtualBit(cfg.keys[c].virtualModNum) in Checked(cfg, s, e).bits
    ensures VirtualBit(cfg.keys[c].virtualModNum) in Next(cfg, s, e).0.bits
  {
    var t := Checked(cfg, s, e);
    var y := cfg.maps.evdevToYamy(e.evdev);
    NextBits(cfg, s, e);
    if y != 0 && y in cfg.keys {
      KeyStepBits(cfg, h, e, y, t.keys[y], t.bits);
    }
  }

  /** So in a run. */
  lemma RunBitStays(cfg: Config, h: History, e: TimedEvent, c: uint16)
    requires WellFormed(cfg) && Monotone(h + [e]) && c in cfg.keys && cfg.keys[c].isVirtual && !Releases(cfg, e, c)
    requires VirtualBit(cfg.keys[c].virtualModNum) in SeenBits(cfg, h, e)
    ensures VirtualBit(cfg.keys[c].virtualModNum) in Run(cfg, h + [e]).bits
  {
    var s := Run(cfg, h);
    MonotonePrefix(h, e);
    RunKeepsInv(cfg, h);
    assert SameTriggers(cfg, Checked(cfg, s, e).keys) by {
      CheckedTriggers(cfg, h, s, e);
    }
    var y := cfg.maps.evdevToYamy(e.evdev);
    assert y in cfg.keys ==> KeyChecked(cfg, h, y, Checked(cfg, s, e).keys[y], e.now) by {
      CheckKeys(cfg, h, s, e);
    }
    BitStays(cfg, h, s, e, c);
    assert (h + [e])[..|h|] == h;
  }

  /** A modifier that is on when the processor is replaced stays on for lookup until a
      trigger of it went through a full hold with the new processor. */
  lemma OnAcrossRebuild(cfg: Config, h: History, e: TimedEvent, c: uint16, cfg': Config, h': History, e': TimedEvent)
    requires WellFormed(cfg) && Monotone(h + [e]) && c in cfg.keys && cfg.keys[c].isVirtual
    requires HeldLong(cfg, h, c, e.now) && !Releases(cfg, e, c)
    requires WellFormed(cfg') && Monotone(h' + [e']) && cfg'.bits == Run(cfg, h + [e]).bits
    requires !Cleared(cfg', h', VirtualBit(cfg.keys[c].virtualModNum))
    ensures VirtualBit(cfg.keys[c].virtualModNum) in SeenBits(cfg', h', e')
  {
    SeenForTrigger(cfg, h, e, c);
    RunBitStays(cfg, h, e, c);
    SeenIsExpected(cfg', h', e');
  }

  /** Releasing the trigger is not enough: the new processor does not know that it was held. */
  lemma ReleaseAfterRebuild(cfg: Config, h: History, e: TimedEvent, c: uint16, cfg': Config,
                            release: TimedEvent, e': TimedEvent)
    requires WellFormed(cfg) && Monotone(h + [e]) && c in cfg.keys && cfg.keys[c].isVirtual
    requires HeldLong(cfg, h, c, e.now) && !Releases(cfg, e, c)
    requires WellFormed(cfg') && cfg'.bits == Run(cfg, h + [e]).bits
    requires Releases(cfg', release, c) && release.now <= e'.now
    ensures VirtualBit(cfg.keys[c].virtualModNum) in SeenBits(cfg', [release], e')
  {
    var b := VirtualBit(cfg.keys[c].virtualModNum);
    assert [] + [release] == [release];
    ClearedStep(cfg', [], release, b);
    OnAcrossRebuild(cfg, h, e, c, cfg', [release], e');
  }
}
