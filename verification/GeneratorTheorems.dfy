/** What the generator's calls amount to: replay of scan codes, modifier synthesis,
    Alt and Windows taps, and key sequences. */
module GeneratorTheorems {
  import opened Words
  import opened Modifiers
  import opened Keyboards
  import opened Generator

  // ---- Replaying scan code records ----

  type Code = (uint16, set<Flag>)

  function CodeOf(r: Record): Code {
    (r.makeCode, r.flags * {E0, E1})
  }

  predicate IsMake(r: Record) {
    BREAK !in r.flags
  }

  /** The scan codes that are down for a receiver of the injected records. */
  function ReplayRecords(rs: seq<Record>): set<Code> {
    if rs == [] then {}
    else
      var r := rs[|rs| - 1];
      With(ReplayRecords(rs[..|rs| - 1]), CodeOf(r), IsMake(r))
  }

  function CodesOf(keys: set<Key>): set<Code> {
    set k, i | k in keys && 0 <= i < |k.scanCodes| :: k.scanCodes[i].Code()
  }

  /** No two keys share a scan code, and none is recorded as a break. */
  predicate SeparateCodes(keys: set<Key>) {
    && (forall k, i :: k in keys && 0 <= i < |k.scanCodes| ==> BREAK !in k.scanCodes[i].flags)
    && (forall k, m, i, j :: k in keys && m in keys && k != m && 0 <= i < |k.scanCodes| && 0 <= j < |m.scanCodes|
          ==> k.scanCodes[i].Code() != m.scanCodes[j].Code())
  }

  function FirstCodes(k: Key, n: nat): set<Code>
    requires n <= |k.scanCodes|
  {
    if n == 0 then {} else FirstCodes(k, n - 1) + {k.scanCodes[n - 1].Code()}
  }

  lemma {:induction false} FirstCodesAre(k: Key, n: nat)
    requires n <= |k.scanCodes|
    ensures FirstCodes(k, n) == set i | 0 <= i < n :: k.scanCodes[i].Code()
  {
    if n > 0 {
      FirstCodesAre(k, n - 1);
    }
  }

  lemma ReplayOne(rs: seq<Record>, r: Record)
    ensures ReplayRecords(rs + [r]) == With(ReplayRecords(rs), CodeOf(r), IsMake(r))
  {
  }

  lemma RecordOfStroke(k: Key, press: bool, i: nat)
    requires i < |k.scanCodes| && BREAK !in k.scanCodes[i].flags
    ensures var r := RecordsOf(Stroke(k, press))[i];
      CodeOf(r) == k.scanCodes[i].Code() && (IsMake(r) <==> press)
  {
    assert RecordsOf(Stroke(k, press))[i].flags * {E0, E1} == k.scanCodes[i].flags * {E0, E1};
  }

  lemma {:induction false} ReplayStroke(rs: seq<Record>, k: Key, press: bool, n: nat)
    requires n <= |k.scanCodes| && forall i :: 0 <= i < |k.scanCodes| ==> BREAK !in k.scanCodes[i].flags
    ensures ReplayRecords(rs + RecordsOf(Stroke(k, press))[..n])
         == if press then ReplayRecords(rs) + FirstCodes(k, n) else ReplayRecords(rs) - FirstCodes(k, n)
  {
    var more := RecordsOf(Stroke(k, press));
    if n == 0 {
      assert rs + more[..0] == rs;
    } else {
      ReplayStroke(rs, k, press, n - 1);
      ReplayOne(rs + more[..n - 1], more[n - 1]);
      assert rs + more[..n] == rs + more[..n - 1] + [more[n - 1]];
      RecordOfStroke(k, press, n - 1);
    }
  }

  /** One more stroke changes the codes that are down as it changes the keys. */
  lemma CodesWith(keys: set<Key>, down: set<Key>, k: Key, press: bool)
    requires SeparateCodes(keys) && down <= keys && k in keys
    ensures CodesOf(With(down, k, press))
         == if press then CodesOf(down) + FirstCodes(k, |k.scanCodes|) else CodesOf(down) - FirstCodes(k, |k.scanCodes|)
  {
    FirstCodesAre(k, |k.scanCodes|);
  }

  /** The scan codes that are down are those of the keys flagged as pressed. */
  lemma {:induction false} RecordsReplayKeys(keys: set<Key>, log: seq<Emission>)
    requires SeparateCodes(keys) && forall e :: e in log && e.Stroke? ==> e.key in keys
    ensures Replay(log) <= keys
    ensures ReplayRecords(Records(log)) == CodesOf(Replay(log))
  {
    if log != [] {
      var before, e := log[..|log| - 1], log[|log| - 1];
      assert e in log;
      RecordsReplayKeys(keys, before);
      match e {
        case Stroke(k, press) =>
          ReplayStroke(Records(before), k, press, |k.scanCodes|);
          CodesWith(keys, Replay(before), k, press);
          assert RecordsOf(e)[..|k.scanCodes|] == RecordsOf(e);
        case Exec(_, _) =>
          assert Records(log) == Records(before);
      }
    }
  }

  /** Through every generator call: replaying what was injected gives exactly the scan
      codes of the keys flagged as pressed, and the counter is their number. */
  lemma BeliefIsReplay(engine: Engine)
    requires engine.Valid() && SeparateCodes(engine.board.keys)
    ensures ReplayRecords(engine.injected) == CodesOf(engine.Pressed())
    ensures engine.currentKeyPressCountOnWin32 == |engine.Pressed()|
  {
    RecordsReplayKeys(engine.board.keys, engine.log);
  }

  // ---- generateModifierEvents: the requested state ----

  predicate Disjoint(b: Board)
    requires b.Ok()
  {
    forall t, u :: 0 <= t < TYPE_BASIC && 0 <= u < TYPE_BASIC && t != u ==>
      forall k :: k in b.mods[t] ==> k !in b.mods[u]
  }

  predicate IsOff(mod: Modifier, t: nat) {
    !mod.IsDontcare(t) && !mod.IsOn(t)
  }

  predicate IsRequested(mod: Modifier, t: nat) {
    !mod.IsDontcare(t) && mod.IsOn(t)
  }

  /** One basic type is as the modifier asks. */
  predicate TypeReached(b: Board, s: GState, after: GState, mod: Modifier, t: nat)
    requires b.Ok() && t < TYPE_BASIC
  {
    if mod.IsDontcare(t) then forall k :: k in b.mods[t] ==> (k in after.pressed <==> k in s.pressed)
    else SomePressed(after, b.mods[t]) <==> mod.IsOn(t)
  }

  predicate Reached(b: Board, s: GState, after: GState, mod: Modifier)
    requires b.Ok()
  {
    forall t: nat :: t < TYPE_BASIC ==> TypeReached(b, s, after, mod, t)
  }

  /** The type needs no event in state s. */
  predicate Silent(b: Board, s: GState, mod: Modifier, t: nat)
    requires b.Ok() && t < TYPE_BASIC
  {
    mod.IsDontcare(t) || (SomePressed(s, b.mods[t]) <==> mod.IsOn(t))
  }

  /** Alt or Windows is to be released, was generated last, and no earlier type
      generates anything in between. */
  predicate Fires(b: Board, s: GState, mod: Modifier, t: nat)
    requires b.Ok() && t < TYPE_BASIC
  {
    && IsOff(mod, t) && NeedsNudge(b, s, t)
    && forall u: nat :: u < t ==> Silent(b, s, mod, u)
  }

  function NudgeType(b: Board): nat
    requires b.Ok()
  {
    if b.mods[TYPE_SHIFT] == [] then TYPE_CONTROL else TYPE_SHIFT
  }

  /** The tap that keeps Alt or Windows of type t apart releases a key that should
      stay down: the nudge key is pressed, and its type is don't-care or has just
      been found requested with no other key down. */
  predicate Harm(b: Board, s: GState, mod: Modifier, t: nat)
    requires b.Ok() && t < TYPE_BASIC
  {
    var v := NudgeType(b);
    && Fires(b, s, mod, t)
    && b.mods[v] != [] && b.mods[v][0] in s.pressed
    && (mod.IsDontcare(v)
        || (mod.IsOn(v) && v < t && forall k :: k in b.mods[v] && k in s.pressed ==> k == b.mods[v][0]))
  }

  // Effects of the steps.

  lemma {:induction false} PressAssignedEffect(b: Board, s: GState, keys: seq<Key>, n: nat)
    requires n <= |keys| && forall k :: k in keys ==> k !in b.events
    ensures var r := PressAssigned(b, s, keys, n);
      && r.byAssign == s.byAssign
      && r.pressed == s.pressed + (set k | k in keys[..n] && k in s.byAssign)
      && (r.last == s.last || (r.last != null && r.last in keys))
      && ((exists k :: k in keys[..n] && k in s.byAssign) ==> r.last != null && r.last in keys)
  {
    if n > 0 {
      PressAssignedEffect(b, s, keys, n - 1);
      assert keys[..n] == keys[..n - 1] + [keys[n - 1]];
    }
  }

  lemma {:induction false} ReleasePressedLast(b: Board, s: GState, keys: seq<Key>, n: nat)
    requires n <= |keys| && forall k :: k in keys ==> k !in b.events
    ensures var r := ReleasePressed(b, s, keys, n, false);
      && ((forall k :: k in keys[..n] ==> k !in s.pressed) ==> r == s)
      && ((exists k :: k in keys[..n] && k in s.pressed) ==> r.last == null)
  {
    if n > 0 {
      ReleasePressedLast(b, s, keys, n - 1);
      ReleasePressedEffect(b, s, keys, n - 1, false);
      assert keys[..n] == keys[..n - 1] + [keys[n - 1]];
    }
  }

  /** A silent type does nothing, unless the nudge comes. */
  lemma SilentStep(b: Board, s: GState, mod: Modifier, t: nat)
    requires b.Ok() && t < TYPE_BASIC && Silent(b, s, mod, t) && !(IsOff(mod, t) && NeedsNudge(b, s, t))
    ensures ModifierStep(b, s, mod, t) == s
  {
    var keys := b.mods[t];
    assert keys[..|keys|] == keys;
    ReleasePressedLast(b, s, keys, |keys|);
  }

  /** A type that is not silent generates an event: its own key is last, or none. */
  lemma LoudStep(b: Board, s: GState, mod: Modifier, t: nat)
    requires b.Ok() && t < TYPE_BASIC && CanPress(b, mod)
    requires !Silent(b, s, mod, t) && !(IsOff(mod, t) && NeedsNudge(b, s, t))
    ensures var r := ModifierStep(b, s, mod, t); r.last == null || r.last in b.mods[t]
  {
    var keys := b.mods[t];
    assert keys[..|keys|] == keys;
    ReleasePressedLast(b, s, keys, |keys|);
    PressAssignedEffect(b, s, keys, |keys|);
  }

  /** What a step without a nudge does to the pressed keys. */
  lemma StepPressed(b: Board, s: GState, mod: Modifier, t: nat)
    requires b.Ok() && t < TYPE_BASIC && CanPress(b, mod) && !(IsOff(mod, t) && NeedsNudge(b, s, t))
    ensures var r := ModifierStep(b, s, mod, t);
      && TypeReached(b, s, r, mod, t)
      && forall k :: k !in b.mods[t] ==> (k in r.pressed <==> k in s.pressed)
  {
    var keys := b.mods[t];
    assert keys[..|keys|] == keys;
    if keys != [] {
      assert keys[0] in keys;
    }
    ReleasePressedEffect(b, s, keys, |keys|, false);
    PressAssignedEffect(b, s, keys, |keys|);
  }

  /** With a nudge: the keys of the type and the nudge key are released. */
  lemma NudgedStep(b: Board, s: GState, mod: Modifier, t: nat)
    requires b.Ok() && t < TYPE_BASIC && IsOff(mod, t) && NeedsNudge(b, s, t)
    ensures var r := ModifierStep(b, s, mod, t);
      && (forall k :: k in r.pressed <==>
            k in s.pressed && k !in b.mods[t] && !(NudgeKeys(b) != [] && k == NudgeKeys(b)[0]))
      && (NudgeKeys(b) != [] ==> r.last == null)
  {
    var keys := b.mods[t];
    var v := NudgeKeys(b);
    if v != [] {
      assert v[0] in v && v[0] !in b.events;
    }
    assert keys[..|keys|] == keys;
    ReleasePressedEffect(b, Nudge(b, s), keys, |keys|, false);
    ReleasePressedLast(b, Nudge(b, s), keys, |keys|);
  }

  /** Step t of the run on s comes with a nudge. */
  predicate Nudged(b: Board, s: GState, mod: Modifier, t: nat)
    requires b.Ok() && t < TYPE_BASIC
  {
    IsOff(mod, t) && NeedsNudge(b, ModifierEvents(b, s, mod, t), t)
  }

  predicate NoNudge(b: Board, s: GState, mod: Modifier, from: nat, to: nat)
    requires b.Ok() && from <= to <= TYPE_BASIC
  {
    forall t: nat :: from <= t < to ==> !Nudged(b, s, mod, t)
  }

  predicate AllSilent(b: Board, s: GState, mod: Modifier, n: nat)
    requires b.Ok() && n <= TYPE_BASIC
  {
    forall t: nat :: t < n ==> Silent(b, s, mod, t)
  }

  /** The first n types without a nudge: they are reached, later types are untouched,
      and the last key tells whether anything was generated. */
  lemma {:induction false} NoNudgeSteps(b: Board, s: GState, mod: Modifier, n: nat)
    requires b.Ok() && Disjoint(b) && CanPress(b, mod) && n <= TYPE_BASIC && NoNudge(b, s, mod, 0, n)
    ensures var r := ModifierEvents(b, s, mod, n);
      && (forall t: nat :: t < n ==> TypeReached(b, s, r, mod, t))
      && (forall t: nat, k :: n <= t < TYPE_BASIC && k in b.mods[t] ==> (k in r.pressed <==> k in s.pressed))
      && (AllSilent(b, s, mod, n) ==> r == s)
      && (!AllSilent(b, s, mod, n) ==> r.last == null || exists t: nat :: t < n && r.last in b.mods[t])
  {
    if n > 0 {
      var before := ModifierEvents(b, s, mod, n - 1);
      var r := ModifierEvents(b, s, mod, n);
      assert !Nudged(b, s, mod, n - 1);
      NoNudgeSteps(b, s, mod, n - 1);
      StepPressed(b, before, mod, n - 1);
      forall t: nat | t < n ensures TypeReached(b, s, r, mod, t) {
        assert t < n - 1 ==> TypeReached(b, s, before, mod, t);
      }
      assert Silent(b, before, mod, n - 1) <==> Silent(b, s, mod, n - 1);
      if Silent(b, s, mod, n - 1) {
        SilentStep(b, before, mod, n - 1);
        assert AllSilent(b, s, mod, n) <==> AllSilent(b, s, mod, n - 1);
      } else {
        LoudStep(b, before, mod, n - 1);
      }
    }
  }

  /** The first nudge comes exactly where the state before the call says so. */
  lemma FirstNudgeFires(b: Board, s: GState, mod: Modifier, t: nat)
    requires b.Ok() && Disjoint(b) && CanPress(b, mod) && t < TYPE_BASIC && NoNudge(b, s, mod, 0, t)
    ensures Nudged(b, s, mod, t) <==> Fires(b, s, mod, t)
    ensures Fires(b, s, mod, t) ==> ModifierEvents(b, s, mod, t) == s
  {
    NoNudgeSteps(b, s, mod, t);
    assert (forall u: nat :: u < t ==> Silent(b, s, mod, u)) <==> AllSilent(b, s, mod, t);
  }

  lemma FiresUnique(b: Board, s: GState, mod: Modifier, t: nat, u: nat)
    requires b.Ok() && Disjoint(b) && t < TYPE_BASIC && u < TYPE_BASIC && Fires(b, s, mod, t) && Fires(b, s, mod, u)
    ensures t == u
  {
  }

  /** A nudge before the release of Windows, the last type. */
  lemma WindowsNudge(b: Board, s: GState, mod: Modifier)
    requires b.Ok() && Disjoint(b) && CanPress(b, mod)
    requires Fires(b, s, mod, TYPE_WINDOWS) && ModifierEvents(b, s, mod, TYPE_WINDOWS) == s
    ensures Reached(b, s, ModifierEvents(b, s, mod, TYPE_BASIC), mod) <==> !Harm(b, s, mod, TYPE_WINDOWS)
  {
    var r := ModifierEvents(b, s, mod, TYPE_BASIC);
    var v := NudgeType(b);
    NudgedStep(b, s, mod, TYPE_WINDOWS);
    forall t: nat | t < TYPE_BASIC
      ensures TypeReached(b, s, r, mod, t) <==> (t != v || !Harm(b, s, mod, TYPE_WINDOWS))
    {
      assert t < TYPE_WINDOWS ==> Silent(b, s, mod, t);
      if b.mods[v] != [] {
        assert b.mods[v][0] in b.mods[v];
      }
    }
    assert Reached(b, s, r, mod) ==> TypeReached(b, s, r, mod, v);
  }

  /** After the Alt nudge Windows is not nudged. */
  lemma AfterAltNudge(b: Board, s: GState, mod: Modifier)
    requires b.Ok() && Disjoint(b) && CanPress(b, mod)
    requires Fires(b, s, mod, TYPE_ALT) && ModifierEvents(b, s, mod, TYPE_ALT) == s
    ensures !Nudged(b, s, mod, TYPE_CONTROL) && !Nudged(b, s, mod, TYPE_WINDOWS)
  {
    var s2 := ModifierEvents(b, s, mod, TYPE_CONTROL);
    var alts := b.mods[TYPE_ALT];
    NudgedStep(b, s, mod, TYPE_ALT);
    assert alts[..|alts|] == alts;
    ReleasePressedLast(b, s, alts, |alts|);
    assert s2.last == null || s2.last in alts;
    if Silent(b, s2, mod, TYPE_CONTROL) {
      SilentStep(b, s2, mod, TYPE_CONTROL);
    } else {
      LoudStep(b, s2, mod, TYPE_CONTROL);
    }
  }

  /** A nudge before the release of Alt: Control and Windows are still to come. */
  lemma AltNudge(b: Board, s: GState, mod: Modifier)
    requires b.Ok() && Disjoint(b) && CanPress(b, mod)
    requires Fires(b, s, mod, TYPE_ALT) && ModifierEvents(b, s, mod, TYPE_ALT) == s
    ensures Reached(b, s, ModifierEvents(b, s, mod, TYPE_BASIC), mod) <==> !Harm(b, s, mod, TYPE_ALT)
  {
    var s2 := ModifierEvents(b, s, mod, TYPE_CONTROL);
    var s3 := ModifierEvents(b, s, mod, TYPE_WINDOWS);
    var r := ModifierEvents(b, s, mod, TYPE_BASIC);
    var v := NudgeType(b);
    assert s2 == ModifierStep(b, s, mod, TYPE_ALT);
    NudgedStep(b, s, mod, TYPE_ALT);
    AfterAltNudge(b, s, mod);
    StepPressed(b, s2, mod, TYPE_CONTROL);
    StepPressed(b, s3, mod, TYPE_WINDOWS);
    forall t: nat | t < TYPE_BASIC ensures TypeReached(b, s, r, mod, t) <==> (t != v || !Harm(b, s, mod, TYPE_ALT)) {
      assert t < TYPE_ALT ==> Silent(b, s, mod, t);
      if b.mods[v] != [] {
        assert b.mods[v][0] in b.mods[v];
      }
    }
    assert Reached(b, s, r, mod) ==> TypeReached(b, s, r, mod, v);
  }

  /** generateModifierEvents reaches the requested state, and leaves don't-care types
      alone, exactly when its tap against a lone Alt or Windows does no harm. */
  lemma ReachedIffNoHarm(b: Board, s: GState, mod: Modifier)
    requires b.Ok() && Disjoint(b) && CanPress(b, mod)
    ensures Reached(b, s, ModifierEvents(b, s, mod, TYPE_BASIC), mod)
       <==> !Harm(b, s, mod, TYPE_ALT) && !Harm(b, s, mod, TYPE_WINDOWS)
  {
    FirstNudgeFires(b, s, mod, TYPE_ALT);
    if Fires(b, s, mod, TYPE_ALT) {
      AltNudge(b, s, mod);
      if Fires(b, s, mod, TYPE_WINDOWS) {
        FiresUnique(b, s, mod, TYPE_ALT, TYPE_WINDOWS);
      }
    } else {
      assert NoNudge(b, s, mod, 0, TYPE_WINDOWS);
      FirstNudgeFires(b, s, mod, TYPE_WINDOWS);
      if Fires(b, s, mod, TYPE_WINDOWS) {
        WindowsNudge(b, s, mod);
      } else {
        NoNudgeSteps(b, s, mod, TYPE_BASIC);
      }
    }
  }

  const RELEASED := GState({}, {}, 0, null, [])

  function ShiftThenAlt(shift: Key, alt: Key): GState {
    GState({shift, alt}, {}, 2, alt, [Stroke(shift, true), Stroke(alt, true)])
  }

  /** Synthesising `S-A-` when all keys are released leads to that state. */
  lemma ShiftThenAltReached(b: Board, shift: Key, alt: Key)
    requires b.Ok() && Disjoint(b) && b.mods[TYPE_SHIFT] == [shift] && b.mods[TYPE_ALT] == [alt]
    ensures ModifierEvents(b, RELEASED, DEFAULT_MODIFIER.Press(TYPE_SHIFT).Press(TYPE_ALT), TYPE_BASIC)
         == ShiftThenAlt(shift, alt)
  {
    var mod := DEFAULT_MODIFIER.Press(TYPE_SHIFT).Press(TYPE_ALT);
    var s := ShiftThenAlt(shift, alt);
    assert shift in b.mods[TYPE_SHIFT] && alt in b.mods[TYPE_ALT];
    var s1 := GState({shift}, {}, 1, shift, [Stroke(shift, true)]);
    assert shift !in b.events && alt !in b.events && shift != alt;
    assert ModifierStep(b, RELEASED, mod, TYPE_SHIFT) == s1;
    assert ModifierStep(b, s1, mod, TYPE_ALT) == s;
    assert ModifierEvents(b, RELEASED, mod, TYPE_SHIFT) == RELEASED;
    assert ModifierEvents(b, RELEASED, mod, TYPE_ALT) == s1;
    assert ModifierEvents(b, RELEASED, mod, TYPE_CONTROL) == s;
    SilentStep(b, s, mod, TYPE_CONTROL);
    assert ModifierEvents(b, RELEASED, mod, TYPE_WINDOWS) == s;
    SilentStep(b, s, mod, TYPE_WINDOWS);
  }

  /** Shift and Alt are down, Alt came last, and Shift alone is requested (a plain `S-`): the
      tap of Shift that keeps Alt from being tapped alone leaves Shift released. */
  lemma NudgeCanReleaseShift(b: Board, shift: Key, alt: Key)
    requires b.Ok() && Disjoint(b) && b.mods[TYPE_SHIFT] == [shift] && b.mods[TYPE_ALT] == [alt]
    ensures var s := ModifierEvents(b, RELEASED, DEFAULT_MODIFIER.Press(TYPE_SHIFT).Press(TYPE_ALT), TYPE_BASIC);
      var mod := DEFAULT_MODIFIER.Press(TYPE_SHIFT);
      s == ShiftThenAlt(shift, alt) && !Reached(b, s, ModifierEvents(b, s, mod, TYPE_BASIC), mod)
  {
    ShiftThenAltReached(b, shift, alt);
    var s := ShiftThenAlt(shift, alt);
    var mod := DEFAULT_MODIFIER.Press(TYPE_SHIFT);
    assert shift in b.mods[TYPE_SHIFT] && alt in b.mods[TYPE_ALT];
    assert Silent(b, s, mod, TYPE_SHIFT);
    assert Harm(b, s, mod, TYPE_ALT);
    ReachedIffNoHarm(b, s, mod);
  }

  // ---- No lone tap of Alt or Windows ----

  predicate IsAltOrWindows(b: Board, k: Key)
    requires b.Ok()
  {
    k in b.mods[TYPE_ALT] || k in b.mods[TYPE_WINDOWS]
  }

  /** Nowhere is the make of an Alt or Windows key followed at once by its break;
      executed functions do not count as strokes. */
  predicate NoLoneTap(b: Board, log: seq<Emission>)
    requires b.Ok()
  {
    log == [] ||
    (NoLoneTap(b, log[..|log| - 1]) &&
     match log[|log| - 1]
     case Stroke(k, press) => press || !IsAltOrWindows(b, k) || LastMade(log[..|log| - 1]) != k
     case Exec(_, _) => true)
  }

  /** The last make is still the last key when only functions ran since. */
  lemma {:induction false} LastMadeAt(log: seq<Emission>, i: nat, k: Key)
    requires i < |log| && log[i] == Stroke(k, true) && forall m :: i < m < |log| ==> !log[m].Stroke?
    ensures LastMade(log) == k
  {
    if i < |log| - 1 {
      LastMadeAt(log[..|log| - 1], i, k);
    }
  }

  /** The same by places: between a make of an Alt or Windows key and the next break of
      it there is another stroke. */
  lemma {:induction false} NoLoneTapAt(b: Board, log: seq<Emission>, i: nat, j: nat, k: Key)
    requires b.Ok() && NoLoneTap(b, log) && i < j < |log|
    requires log[i] == Stroke(k, true) && log[j] == Stroke(k, false) && IsAltOrWindows(b, k)
    ensures exists m :: i < m < j && log[m].Stroke?
  {
    if j < |log| - 1 {
      NoLoneTapAt(b, log[..|log| - 1], i, j, k);
    } else if forall m :: i < m < j ==> !log[m].Stroke? {
      LastMadeAt(log[..j], i, k);
    }
  }

  predicate Tidy(b: Board, s: GState)
    requires b.Ok()
  {
    NoLoneTap(b, s.log) && s.last == LastMade(s.log)
  }

  lemma KeyEventTidy(b: Board, s: GState, k: Key, doPress: bool, byAssign: bool)
    requires b.Ok() && Tidy(b, s) && (doPress || !IsAltOrWindows(b, k) || s.last != k)
    ensures Tidy(b, KeyEvent(b, s, k, doPress, byAssign))
  {
  }

  lemma {:induction false} PressAssignedTidy(b: Board, s: GState, keys: seq<Key>, n: nat)
    requires b.Ok() && Tidy(b, s) && n <= |keys|
    ensures Tidy(b, PressAssigned(b, s, keys, n))
  {
    if n > 0 {
      PressAssignedTidy(b, s, keys, n - 1);
      KeyEventTidy(b, PressAssigned(b, s, keys, n - 1), keys[n - 1], true, false);
    }
  }

  lemma {:induction false} ReleasePressedTidy(b: Board, s: GState, keys: seq<Key>, n: nat)
    requires b.Ok() && Tidy(b, s) && n <= |keys| && forall k :: k in keys && IsAltOrWindows(b, k) ==> s.last != k
    ensures var r := ReleasePressed(b, s, keys, n, false); Tidy(b, r) && (r.last == s.last || r.last == null)
  {
    if n > 0 {
      ReleasePressedTidy(b, s, keys, n - 1);
      var before := ReleasePressed(b, s, keys, n - 1, false);
      if keys[n - 1] in before.pressed {
        KeyEventTidy(b, before, keys[n - 1], false, false);
      }
    }
  }

  lemma NudgeTidy(b: Board, s: GState)
    requires b.Ok() && Disjoint(b) && Tidy(b, s) && NudgeKeys(b) != []
    ensures Tidy(b, Nudge(b, s)) && Nudge(b, s).last == null
  {
    var k := NudgeKeys(b)[0];
    assert k in b.mods[NudgeType(b)] && k !in b.events;
    assert !IsAltOrWindows(b, k);
    var down := KeyEvent(b, s, k, true, false);
    assert k in down.pressed;
    KeyEventTidy(b, s, k, true, false);
    KeyEventTidy(b, down, k, false, false);
  }

  lemma ModifierStepTidy(b: Board, s: GState, mod: Modifier, t: nat)
    requires b.Ok() && Disjoint(b) && Tidy(b, s) && NudgeKeys(b) != [] && t < TYPE_BASIC
    ensures Tidy(b, ModifierStep(b, s, mod, t))
  {
    var keys := b.mods[t];
    if IsOff(mod, t) {
      var before := if NeedsNudge(b, s, t) then Nudge(b, s) else s;
      NudgeTidy(b, s);
      ReleasePressedTidy(b, before, keys, |keys|);
    } else if IsRequested(mod, t) && keys != [] {
      KeyEventTidy(b, s, keys[0], true, false);
      PressAssignedTidy(b, s, keys, |keys|);
    }
  }

  /** With a Shift or a Control key to tap, generateModifierEvents never makes and at
      once breaks an Alt or Windows key, counting the key generated before the call. */
  lemma {:induction false} ModifierEventsTidy(b: Board, s: GState, mod: Modifier, n: nat)
    requires b.Ok() && Disjoint(b) && Tidy(b, s) && n <= TYPE_BASIC
    requires b.mods[TYPE_SHIFT] != [] || b.mods[TYPE_CONTROL] != []
    ensures Tidy(b, ModifierEvents(b, s, mod, n))
  {
    if n > 0 {
      ModifierEventsTidy(b, s, mod, n - 1);
      ModifierStepTidy(b, ModifierEvents(b, s, mod, n - 1), mod, n - 1);
    }
  }

  // ---- Key sequences ----

  /** Releasing an action does not depend on the modifier of the current key. */
  lemma {:induction false} ReleaseIgnoresContext(b: Board, s: GState, ctx: Modifier, ctx': Modifier, a: Action)
    requires b.Ok()
    ensures ActionEvents(b, s, ctx, a, false) == ActionEvents(b, s, ctx', a, false)
    decreases a
  {
    match a {
      case KeyAction(_) =>
      case SeqAction(keySeq) =>
        if keySeq != [] {
          ReleaseIgnoresContext(b, s, ctx, ctx', keySeq[|keySeq| - 1]);
        }
      case FunctionAction(_, _) =>
    }
  }

  /** The down part on the press and the up part on the release, under whatever modifier
      the release comes with, are together the whole sequence. */
  lemma DownThenUpIsAll(b: Board, s: GState, ctx: Modifier, ctx': Modifier, actions: seq<Action>)
    requires b.Ok()
    ensures KeySeqEvents(b, KeySeqEvents(b, s, ctx, actions, PART_DOWN), ctx', actions, PART_UP)
         == KeySeqEvents(b, s, ctx, actions, PART_ALL)
  {
    if actions != [] {
      ReleaseIgnoresContext(b, KeySeqEvents(b, s, ctx, actions, PART_DOWN), ctx', ctx, actions[|actions| - 1]);
    }
  }

  /** Every key action is pressed and released, and nothing else runs. */
  predicate Plain(b: Board, a: Action)
    requires b.Ok()
  {
    match a
    case KeyAction(mkey) =>
      && mkey.key != null && mkey.key !in b.events
      && Wants(mkey.modifier, TYPE_UP) && Wants(mkey.modifier, TYPE_DOWN)
    case SeqAction(keySeq) => forall i :: 0 <= i < |keySeq| ==> Plain(b, keySeq[i])
    case FunctionAction(_, _) => false
  }

  /** The keys that an action names, and the one it leaves down when pressed. */
  function Named(a: Action): set<Key> {
    match a
    case KeyAction(mkey) => if mkey.key == null then {} else {mkey.key}
    case SeqAction(keySeq) => set i, k | 0 <= i < |keySeq| && k in Named(keySeq[i]) :: k
    case FunctionAction(_, _) => {}
  }

  function LeftDown(a: Action): set<Key> {
    match a
    case KeyAction(_) => Named(a)
    case SeqAction(keySeq) => if keySeq == [] then {} else LeftDown(keySeq[|keySeq| - 1])
    case FunctionAction(_, _) => {}
  }

  predicate IsModifierKey(b: Board, k: Key)
    requires b.Ok()
  {
    exists t: nat :: t < TYPE_BASIC && k in b.mods[t]
  }

  /** Of the non-modifier keys, those in `after` are among those in `before`, without
      `gone`, or in `extra`. */
  predicate Keeps(b: Board, before: set<Key>, after: set<Key>, gone: set<Key>, extra: set<Key>)
    requires b.Ok()
  {
    forall k :: k in after && !IsModifierKey(b, k) ==> (k in before && k !in gone) || k in extra
  }

  lemma {:induction false} ModifierEventsKeep(b: Board, s: GState, mod: Modifier, n: nat)
    requires b.Ok() && n <= TYPE_BASIC
    ensures Keeps(b, s.pressed, ModifierEvents(b, s, mod, n).pressed, {}, {})
  {
    if n > 0 {
      ModifierEventsKeep(b, s, mod, n - 1);
      var before := ModifierEvents(b, s, mod, n - 1);
      var t := n - 1;
      var keys := b.mods[t];
      assert forall k :: k in keys ==> IsModifierKey(b, k) && k !in b.events;
      if IsOff(mod, t) {
        var nudged := if NeedsNudge(b, before, t) then Nudge(b, before) else before;
        ReleasePressedEffect(b, nudged, keys, |keys|, false);
      } else if IsRequested(mod, t) && keys != [] {
        PressAssignedEffect(b, before, keys, |keys|);
        assert keys[0] in keys;
      }
    }
  }

  lemma {:induction false} PressKeeps(b: Board, s: GState, ctx: Modifier, a: Action)
    requires b.Ok() && Plain(b, a)
    ensures Keeps(b, s.pressed, ActionEvents(b, s, ctx, a, true).pressed, Named(a), LeftDown(a))
    decreases a, 2
  {
    match a {
      case KeyAction(mkey) =>
        ModifierEventsKeep(b, s, Added(mkey.modifier, ctx), TYPE_BASIC);
      case SeqAction(keySeq) =>
        if keySeq != [] {
          var n := |keySeq| - 1;
          PrefixKeeps(b, s, ctx, keySeq, n);
          PressKeeps(b, PrefixEvents(b, s, ctx, keySeq, n), ctx, keySeq[n]);
        }
    }
  }

  lemma {:induction false} ReleaseKeeps(b: Board, s: GState, ctx: Modifier, a: Action)
    requires b.Ok() && Plain(b, a)
    ensures Keeps(b, s.pressed, ActionEvents(b, s, ctx, a, false).pressed, LeftDown(a), {})
    decreases a
  {
    match a {
      case KeyAction(_) =>
      case SeqAction(keySeq) =>
        if keySeq != [] {
          ReleaseKeeps(b, s, ctx, keySeq[|keySeq| - 1]);
        }
    }
  }

  lemma {:induction false} PrefixKeeps(b: Board, s: GState, ctx: Modifier, actions: seq<Action>, n: nat)
    requires b.Ok() && n <= |actions| && forall i :: 0 <= i < |actions| ==> Plain(b, actions[i])
    ensures Keeps(b, s.pressed, PrefixEvents(b, s, ctx, actions, n).pressed,
                  set i, k | 0 <= i < n && k in Named(actions[i]) :: k, {})
    decreases actions, n
  {
    if n > 0 {
      PrefixKeeps(b, s, ctx, actions, n - 1);
      var before := PrefixEvents(b, s, ctx, actions, n - 1);
      PressKeeps(b, before, ctx, actions[n - 1]);
      ReleaseKeeps(b, ActionEvents(b, before, ctx, actions[n - 1], true), ctx, actions[n - 1]);
    }
  }

  /** After a plain key sequence no non-modifier key that it names is down. */
  lemma NothingStaysDown(b: Board, s: GState, ctx: Modifier, actions: seq<Action>, k: Key)
    requires b.Ok() && Plain(b, SeqAction(actions))
    requires k in Named(SeqAction(actions)) && !IsModifierKey(b, k)
    ensures k !in KeySeqEvents(b, s, ctx, actions, PART_ALL).pressed
  {
    var n := |actions| - 1;
    PressKeeps(b, s, ctx, SeqAction(actions));
    var down := KeySeqEvents(b, s, ctx, actions, PART_DOWN);
    ReleaseKeeps(b, down, ctx, SeqAction(actions));
    DownThenUpIsAll(b, s, ctx, ctx, actions);
  }
}
