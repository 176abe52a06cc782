/** What `processEvent` hands out, field by field, from the tables, the rules and the
    history: no function of the code has a part in these statements. */
module Results {
  import opened Words
  import opened ModifierStates
  import opened Keyboards
  import opened RuleCompiler
  import opened LookupTable
  import opened RulePriority
  import opened HoldTap
  import opened EventProcessing
  import opened TimedRuns
  import opened RunInvariant
  import opened Episodes
  import opened HeldConditions

  predicate IsNothing(r: ProcessedEvent, typ: EventType) {
    r.evdev == 0 && r.yamy == 0 && !r.valid && !r.isTap && r.typ == typ
  }

  /** The key code goes out under its evdev code; virtual, modal and lock codes, and codes
      without an evdev code, give nothing. */
  predicate Emits(maps: CodeMaps, r: ProcessedEvent, yamy: uint16, typ: EventType, isTap: bool) {
    if 0xD000 <= yamy < 0xE000 || 0xF000 <= yamy < 0xF200 || maps.yamyToEvdev(yamy) == 0 then IsNothing(r, typ)
    else r.evdev == maps.yamyToEvdev(yamy) && r.yamy == yamy && r.valid && r.isTap == isTap && r.typ == typ
  }

  lemma EmittedFields(maps: CodeMaps, yamy: uint16, typ: EventType, isTap: bool)
    ensures Emits(maps, Emitted(maps, yamy, typ, isTap), yamy, typ, isTap)
  {
  }

  /** A key outside the tables gives nothing. */
  lemma UnknownKeyResult(cfg: Config, s: ProcessorState, e: TimedEvent)
    requires cfg.maps.evdevToYamy(e.evdev) == 0
    ensures IsNothing(Next(cfg, s, e).1, e.typ)
  {
  }

  /** The handler takes no part in the event: the key is not registered, the event is an
      auto-repeat or a stray release, or a hardware number modifier was only tapped. */
  ghost predicate PassesHandler(cfg: Config, h: History, e: TimedEvent, c: uint16) {
    || c !in cfg.keys
    || e.typ.REPEAT?
    || (e.typ.RELEASE? && !Held(cfg, h, c))
    || (e.typ.RELEASE? && !cfg.keys[c].isVirtual && !HeldFor(cfg, h, c, e.now))
  }

  /** Presses of a registered key, and its release after a full hold, give nothing. */
  lemma SwallowedResult(cfg: Config, rules: seq<SourceRule>, h: History, e: TimedEvent, c: uint16)
    requires WellFormed(cfg) && Monotone(h + [e]) && Refines(cfg.buckets, rules)
    requires c != 0 && cfg.maps.evdevToYamy(e.evdev) == c && c in cfg.keys
    requires e.typ.PRESS? || (e.typ.RELEASE? && HeldFor(cfg, h, c, e.now))
    ensures IsNothing(Next(cfg, Run(cfg, h), e).1, e.typ)
  {
    RunOutcome(cfg, rules, h, e);
    HeldForIsHeldLong(cfg, h, c, e.now);
  }

  lemma PassingOutcome(cfg: Config, rules: seq<SourceRule>, h: History, e: TimedEvent, bits: Bits)
    requires var y := cfg.maps.evdevToYamy(e.evdev); y != 0 && PassesHandler(cfg, h, e, y)
    ensures Outcome(cfg, rules, h, e, bits) == LookedUp(cfg, rules, cfg.maps.evdevToYamy(e.evdev), bits, e.typ)
  {
    HeldForIsHeldLong(cfg, h, cfg.maps.evdevToYamy(e.evdev), e.now);
  }

  /** A key event that passes the handler comes out as the target of the first rule that applies
      under the modifiers read, or as itself. */
  lemma KeyResult(cfg: Config, subs: seq<Substitute>, keymap: Option<seq<KeyAssignment>>, h: History, e: TimedEvent)
    returns (found: Option<uint16>)
    requires WellFormed(cfg) && Monotone(h + [e]) && Refines(cfg.buckets, SourceRules(subs, keymap))
    requires cfg.maps.evdevToYamy(e.evdev) != 0 && PassesHandler(cfg, h, e, cfg.maps.evdevToYamy(e.evdev))
    ensures var y := cfg.maps.evdevToYamy(e.evdev);
      && Answers(found, subs, keymap, y, SeenBits(cfg, h, e))
      && Emits(cfg.maps, Next(cfg, Run(cfg, h), e).1, if found.Some? then found.value else y, e.typ, false)
  {
    var y, state := cfg.maps.evdevToYamy(e.evdev), SeenBits(cfg, h, e);
    found := FirstHolding(SourceRules(subs, keymap), y, state);
    RunOutcome(cfg, SourceRules(subs, keymap), h, e);
    SeenIsExpected(cfg, h, e);
    PassingOutcome(cfg, SourceRules(subs, keymap), h, e, state);
    RulesAnswer(subs, keymap, y, state);
    EmittedFields(cfg.maps, if found.Some? then found.value else y, e.typ, false);
  }

  /** A rule that requires modifier v replaces its key exactly while v is held or inherited. */
  lemma HeldRuleFires(cfg: Config, sub: Substitute, h: History, e: TimedEvent, v: uint8)
    requires WellFormed(cfg) && Monotone(h + [e]) && Refines(cfg.buckets, SourceRules([sub], None))
    requires cfg.maps.evdevToYamy(e.evdev) != 0 && cfg.maps.evdevToYamy(e.evdev) !in cfg.keys
    requires SameFirstScan(sub.from.key, cfg.maps.evdevToYamy(e.evdev))
    requires sub.from.modifier == ANY && sub.from.virtualMods == {v}
    requires sub.to.key != null && |sub.to.key.scanCodes| > 0
    ensures var fires := HeldNumber(cfg, h, v, e.now) || InheritedNumber(cfg, h, v);
      var code := if fires then sub.to.key.scanCodes[0].scan else cfg.maps.evdevToYamy(e.evdev);
      Emits(cfg.maps, Next(cfg, Run(cfg, h), e).1, code, e.typ, false)
  {
    var y, state := cfg.maps.evdevToYamy(e.evdev), SeenBits(cfg, h, e);
    var found := KeyResult(cfg, [sub], None, h, e);
    VirtualConditionInRun(cfg, h, e, sub.from, v);
    assert Applies(sub.from, y, state) <==> HeldNumber(cfg, h, v, e.now) || InheritedNumber(cfg, h, v);
    if Applies(sub.from, y, state) {
      assert FirstSubstitute([sub], 0, y, state);
    } else {
      assert NoSubstitute([sub], y, state);
    }
  }

  /** The release that ends an episode of a virtual trigger: the tap key when it came
      before the threshold, nothing otherwise. */
  lemma TapResult(cfg: Config, rules: seq<SourceRule>, g: History, c: uint16, i: nat, r: nat)
    requires WellFormed(cfg) && Monotone(g) && Episode(cfg, g, c, i, r) && Refines(cfg.buckets, rules)
    requires c in cfg.keys && cfg.keys[c].isVirtual
    ensures if Apart(cfg.threshold, g[i].now, g[r].now) || cfg.keys[c].tapOutput == 0
      then IsNothing(OutputAt(cfg, g, r), RELEASE)
      else Emits(cfg.maps, OutputAt(cfg, g, r), cfg.keys[c].tapOutput, RELEASE, true)
  {
    EpisodeRelease(cfg, rules, g, c, i, r);
    ThresholdInNanoseconds(cfg.threshold, g[i].now, g[r].now);
    EmittedFields(cfg.maps, cfg.keys[c].tapOutput, RELEASE, true);
  }
}
