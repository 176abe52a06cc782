/** One press-to-release episode of a virtual trigger within a timed run. */
module Episodes {
  import opened Words
  import opened ModifierStates
  import opened Keyboards
  import opened LookupTable
  import opened HoldTap
  import opened EventProcessing
  import opened TimedRuns
  import opened RunInvariant

  /** The result of event j of a history. */
  function OutputAt(cfg: Config, g: History, j: nat): ProcessedEvent
    requires j < |g|
  {
    Next(cfg, Run(cfg, g[..j]), g[j]).1
  }

  function SeenAt(cfg: Config, g: History, j: nat): Bits
    requires j < |g|
  {
    SeenBits(cfg, g[..j], g[j])
  }

  predicate Repeats(cfg: Config, e: TimedEvent, c: uint16) {
    e.typ.REPEAT? && c != 0 && cfg.maps.evdevToYamy(e.evdev) == c
  }

  /** Lookup reads the modifier of trigger c as on at event j. */
  predicate OnAt(cfg: Config, g: History, c: uint16, j: nat)
    requires j < |g| && c in cfg.keys
  {
    VirtualBit(cfg.keys[c].virtualModNum) in SeenAt(cfg, g, j)
  }

  /** Trigger c goes down at event i, and event r is its next release. */
  ghost predicate Episode(cfg: Config, g: History, c: uint16, i: nat, r: nat) {
    r < |g| && HeldFrom(cfg, g[..r], c, i) && Releases(cfg, g[r], c)
  }

  lemma HeldFromPrefix(cfg: Config, g: History, c: uint16, i: nat, j: nat, r: nat)
    requires i < j <= r <= |g| && HeldFrom(cfg, g[..r], c, i)
    ensures HeldFrom(cfg, g[..j], c, i)
  {
    assert forall k :: 0 <= k < j ==> g[..j][k] == g[..r][k];
    forall k | 0 <= k < i && Presses(cfg, g[..j][k], c) ensures exists m :: k < m < i && Releases(cfg, g[..j][m], c) {
      assert Presses(cfg, g[..r][k], c);
      var m :| k < m < i && Releases(cfg, g[..r][m], c);
      assert g[..j][m] == g[..r][m];
    }
  }

  lemma NotHeldBefore(cfg: Config, g: History, c: uint16, i: nat, r: nat)
    requires i < r <= |g| && HeldFrom(cfg, g[..r], c, i)
    ensures !Held(cfg, g[..i], c)
  {
    forall j | 0 <= j < i && Presses(cfg, g[..i][j], c) ensures exists m :: j < m < i && Releases(cfg, g[..i][m], c) {
      assert Presses(cfg, g[..r][j], c);
      var m :| j < m < i && Releases(cfg, g[..r][m], c);
      assert g[..i][m] == g[..r][m];
    }
  }

  /** What was cleared stays cleared. */
  lemma LeftoverShrinks(cfg: Config, g: History, i: nat, j: nat)
    requires i <= j <= |g|
    ensures Leftover(cfg, g[..j]) <= Leftover(cfg, g[..i])
  {
    forall b: nat | Cleared(cfg, g[..i], b) ensures Cleared(cfg, g[..j], b) {
      var c: uint16, r: int :| TriggerOf(cfg, c, b) && EndsHold(cfg, g[..i], c, r);
      assert g[..i][..r] == g[..j][..r] && g[..i][r] == g[..j][r];
      assert EndsHold(cfg, g[..j], c, r);
    }
  }

  lemma HeldLongSince(cfg: Config, h: History, c: uint16, i: nat, now: nat)
    requires HeldFrom(cfg, h, c, i)
    ensures HeldLong(cfg, h, c, now) <==> ExceededThreshold(cfg.threshold, h[i].now, now)
  {
    forall m | HeldFrom(cfg, h, c, m) ensures m == i {
      HeldFromUnique(cfg, h, c, i, m);
    }
  }

  /** At event j of an episode the modifier is on exactly when the threshold is over, or
      when it was inherited and is still on. */
  lemma EpisodeSeen(cfg: Config, g: History, c: uint16, i: nat, j: nat, r: nat)
    requires WellFormed(cfg) && Monotone(g) && Episode(cfg, g, c, i, r) && i <= j <= r
    requires c in cfg.keys && cfg.keys[c].isVirtual
    ensures OnAt(cfg, g, c, j)
       <==> (i < j && ExceededThreshold(cfg.threshold, g[i].now, g[j].now))
            || VirtualBit(cfg.keys[c].virtualModNum) in Leftover(cfg, g[..j])
  {
    assert g[..j] + [g[j]] == g[..j + 1];
    assert Monotone(g[..j + 1]);
    SeenForTrigger(cfg, g[..j], g[j], c);
    if i < j {
      HeldFromPrefix(cfg, g, c, i, j, r);
      HeldLongSince(cfg, g[..j], c, i, g[j].now);
    } else {
      NotHeldBefore(cfg, g, c, i, r);
    }
  }

  lemma EpisodeSeenClean(cfg: Config, g: History, c: uint16, i: nat, j: nat, r: nat)
    requires WellFormed(cfg) && Monotone(g) && Episode(cfg, g, c, i, r) && i <= j <= r
    requires c in cfg.keys && cfg.keys[c].isVirtual
    requires VirtualBit(cfg.keys[c].virtualModNum) !in Leftover(cfg, g[..i])
    ensures OnAt(cfg, g, c, j)
       <==> i < j && ExceededThreshold(cfg.threshold, g[i].now, g[j].now)
  {
    EpisodeSeen(cfg, g, c, i, j, r);
    LeftoverShrinks(cfg, g, i, j);
  }

  lemma OutputAsExpected(cfg: Config, rules: seq<SourceRule>, g: History, j: nat)
    requires WellFormed(cfg) && Monotone(g) && j < |g| && Refines(cfg.buckets, rules)
    ensures OutputAt(cfg, g, j) == Outcome(cfg, rules, g[..j], g[j], SeenAt(cfg, g, j))
  {
    assert g[..j] + [g[j]] == g[..j + 1];
    assert forall k :: 0 <= k < j ==> g[..j][k] == g[k];
    RunKeepsInv(cfg, g[..j]);
    SeenIsExpected(cfg, g[..j], g[j]);
    StepResult(cfg, rules, g[..j], Run(cfg, g[..j]), g[j]);
  }

  lemma EpisodeRelease(cfg: Config, rules: seq<SourceRule>, g: History, c: uint16, i: nat, r: nat)
    requires WellFormed(cfg) && Monotone(g) && Episode(cfg, g, c, i, r) && Refines(cfg.buckets, rules)
    requires c in cfg.keys && cfg.keys[c].isVirtual
    ensures OutputAt(cfg, g, r) ==
      if ExceededThreshold(cfg.threshold, g[i].now, g[r].now) || cfg.keys[c].tapOutput == 0 then Suppressed(RELEASE)
      else Emitted(cfg.maps, cfg.keys[c].tapOutput, RELEASE, true)
  {
    OutputAsExpected(cfg, rules, g, r);
    HeldLongSince(cfg, g[..r], c, i, g[r].now);
  }

  lemma EpisodePress(cfg: Config, rules: seq<SourceRule>, g: History, c: uint16, j: nat)
    requires WellFormed(cfg) && Monotone(g) && j < |g| && Refines(cfg.buckets, rules)
    requires c in cfg.keys && Presses(cfg, g[j], c)
    ensures OutputAt(cfg, g, j) == Suppressed(PRESS)
  {
    OutputAsExpected(cfg, rules, g, j);
  }

  /** An auto-repeat of a trigger is looked up like any other key. */
  lemma EpisodeRepeat(cfg: Config, rules: seq<SourceRule>, g: History, c: uint16, j: nat)
    requires WellFormed(cfg) && Monotone(g) && j < |g| && Refines(cfg.buckets, rules)
    requires c in cfg.keys && Repeats(cfg, g[j], c)
    ensures OutputAt(cfg, g, j) == LookedUp(cfg, rules, c, SeenAt(cfg, g, j), REPEAT)
  {
    OutputAsExpected(cfg, rules, g, j);
  }

  lemma NotOnBefore(cfg: Config, g: History, c: uint16, i: nat, j: nat, r: nat)
    requires WellFormed(cfg) && Monotone(g) && Episode(cfg, g, c, i, r) && i <= j <= r
    requires c in cfg.keys && cfg.keys[c].isVirtual
    requires VirtualBit(cfg.keys[c].virtualModNum) !in Leftover(cfg, g[..i])
    requires !ExceededThreshold(cfg.threshold, g[i].now, g[r].now)
    ensures !OnAt(cfg, g, c, j)
  {
    EpisodeSeenClean(cfg, g, c, i, j, r);
    if i < j && ExceededThreshold(cfg.threshold, g[i].now, g[j].now) {
      LaterStillExceeds(cfg.threshold, g[i].now, g[j].now, g[r].now);
    }
  }

  /** The modifier was on at some event of the episode exactly when it lasted long enough. */
  lemma EpisodeActivation(cfg: Config, g: History, c: uint16, i: nat, r: nat)
    requires WellFormed(cfg) && Monotone(g) && Episode(cfg, g, c, i, r)
    requires c in cfg.keys && cfg.keys[c].isVirtual
    requires VirtualBit(cfg.keys[c].virtualModNum) !in Leftover(cfg, g[..i])
    ensures ExceededThreshold(cfg.threshold, g[i].now, g[r].now)
       <==> exists j :: i <= j <= r && OnAt(cfg, g, c, j)
  {
    EpisodeSeenClean(cfg, g, c, i, r, r);
    if ExceededThreshold(cfg.threshold, g[i].now, g[r].now) {
      assert OnAt(cfg, g, c, r);
    } else {
      forall j | i <= j <= r ensures !OnAt(cfg, g, c, j) {
        NotOnBefore(cfg, g, c, i, j, r);
      }
    }
  }

  /** An episode shorter than the threshold never switches its modifier on and gives
      the tap output, once; a longer one switches it on, and neither its presses nor its
      release give an output.  Auto-repeats of the trigger are looked up all the while. */
  lemma EpisodeOutput(cfg: Config, rules: seq<SourceRule>, g: History, c: uint16, i: nat, r: nat)
    requires WellFormed(cfg) && Monotone(g) && Episode(cfg, g, c, i, r) && Refines(cfg.buckets, rules)
    requires c in cfg.keys && cfg.keys[c].isVirtual
    requires VirtualBit(cfg.keys[c].virtualModNum) !in Leftover(cfg, g[..i])
    ensures forall j :: i <= j < r && Presses(cfg, g[j], c) ==> OutputAt(cfg, g, j) == Suppressed(PRESS)
    ensures forall j :: i <= j < r && Repeats(cfg, g[j], c) ==>
      OutputAt(cfg, g, j) == LookedUp(cfg, rules, c, SeenAt(cfg, g, j), REPEAT)
    ensures var activated := exists j :: i <= j <= r && OnAt(cfg, g, c, j);
      && activated == ExceededThreshold(cfg.threshold, g[i].now, g[r].now)
      && OutputAt(cfg, g, r) ==
        if activated || cfg.keys[c].tapOutput == 0 then Suppressed(RELEASE)
        else Emitted(cfg.maps, cfg.keys[c].tapOutput, RELEASE, true)
  {
    EpisodeRelease(cfg, rules, g, c, i, r);
    EpisodeActivation(cfg, g, c, i, r);
    forall j | i <= j < r && Presses(cfg, g[j], c) ensures OutputAt(cfg, g, j) == Suppressed(PRESS) {
      EpisodePress(cfg, rules, g, c, j);
    }
    forall j | i <= j < r && Repeats(cfg, g[j], c)
      ensures OutputAt(cfg, g, j) == LookedUp(cfg, rules, c, SeenAt(cfg, g, j), REPEAT)
    {
      EpisodeRepeat(cfg, rules, g, c, j);
    }
  }
}
