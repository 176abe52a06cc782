/** What the actions of a key sequence type: the key itself, under the requested
    modifiers, and every key of a nested sequence once, in order. */
module ActionTheorems {
  import opened Words
  import opened Modifiers
  import opened Keyboards
  import opened Generator
  import opened GeneratorTheorems

  // ---- Keys that are treated differently ----

  /** An event pseudo-key is never injected. */
  lemma EventKeyDoesNothing(b: Board, s: GState, k: Key, doPress: bool, byAssign: bool)
    requires k in b.events
    ensures KeyEvent(b, s, k, doPress, byAssign) == s
  {
  }

  /** Only the sync key is broken even when it is not down. */
  lemma ReleaseOfReleased(b: Board, s: GState, k: Key, byAssign: bool)
    requires k !in b.events && k !in s.pressed
    ensures var after := KeyEvent(b, s, k, false, byAssign);
      && after.log == s.log + (if k == b.syncKey then [Stroke(k, false)] else [])
      && after.pressed == s.pressed && after.count == s.count
  {
  }

  /** A requested modifier with no key down: the keys that assignments pressed are made
      again, or else its first key. */
  lemma RequestedModifier(b: Board, s: GState, mod: Modifier, t: nat)
    requires b.Ok() && t < TYPE_BASIC && CanPress(b, mod) && IsRequested(mod, t) && !SomePressed(s, b.mods[t])
    ensures var after := ModifierStep(b, s, mod, t);
      after.pressed == s.pressed
        + if SomeByAssign(s, b.mods[t]) then (set k | k in b.mods[t] && k in s.byAssign) else {b.mods[t][0]}
  {
    var keys := b.mods[t];
    assert keys[..|keys|] == keys;
    assert keys[0] in keys;
    PressAssignedEffect(b, s, keys, |keys|);
  }

  /** The strokes of those of the first n keys that are in a set, in list order. */
  function StrokesOf(keys: seq<Key>, n: nat, chosen: set<Key>, press: bool): seq<Emission>
    requires n <= |keys|
  {
    if n == 0 then []
    else StrokesOf(keys, n - 1, chosen, press) + if keys[n - 1] in chosen then [Stroke(keys[n - 1], press)] else []
  }

  /** A release loop breaks the keys that are down, in list order. */
  lemma {:induction false} ReleasedInOrder(b: Board, s: GState, keys: seq<Key>, n: nat, byAssign: bool)
    requires n <= |keys| && (forall k :: k in keys ==> k !in b.events)
    requires forall i, j :: 0 <= i < j < |keys| ==> keys[i] != keys[j]
    ensures ReleasePressed(b, s, keys, n, byAssign).log == s.log + StrokesOf(keys, n, s.pressed, false)
  {
    if n > 0 {
      ReleasedInOrder(b, s, keys, n - 1, byAssign);
      ReleasePressedEffect(b, s, keys, n - 1, byAssign);
      assert keys[n - 1] !in keys[..n - 1];
    }
  }

  /** Keys pressed by assignment are made again in list order. */
  lemma {:induction false} AssignedInOrder(b: Board, s: GState, keys: seq<Key>, n: nat)
    requires n <= |keys| && forall k :: k in keys ==> k !in b.events
    ensures PressAssigned(b, s, keys, n).log == s.log + StrokesOf(keys, n, s.byAssign, true)
  {
    if n > 0 {
      AssignedInOrder(b, s, keys, n - 1);
      PressAssignedEffect(b, s, keys, n - 1);
    }
  }

  // ---- The trace without modifier keys ----

  /** What a trace shows of other than modifier keys: strokes, and functions run. */
  function Typed(b: Board, log: seq<Emission>): seq<Emission>
    requires b.Ok()
  {
    if log == [] then []
    else
      var e := log[|log| - 1];
      Typed(b, log[..|log| - 1]) + if e.Stroke? && IsModifierKey(b, e.key) then [] else [e]
  }

  /** The trace was only added to, by modifier strokes. */
  predicate OnlyModifiers(b: Board, s: GState, after: GState)
    requires b.Ok()
  {
    s.log <= after.log && Typed(b, after.log) == Typed(b, s.log)
  }

  lemma TypedOneMore(b: Board, log: seq<Emission>, e: Emission)
    requires b.Ok()
    ensures Typed(b, log + [e]) == Typed(b, log) + if e.Stroke? && IsModifierKey(b, e.key) then [] else [e]
  {
    assert (log + [e])[..|log|] == log;
  }

  lemma ModifierKeyEvent(b: Board, s: GState, k: Key, doPress: bool)
    requires b.Ok() && IsModifierKey(b, k)
    ensures OnlyModifiers(b, s, KeyEvent(b, s, k, doPress, false))
  {
    TypedOneMore(b, s.log, Stroke(k, doPress));
  }

  lemma {:induction false} PressAssignedTyped(b: Board, s: GState, keys: seq<Key>, n: nat)
    requires b.Ok() && n <= |keys| && forall k :: k in keys ==> IsModifierKey(b, k)
    ensures OnlyModifiers(b, s, PressAssigned(b, s, keys, n))
  {
    if n > 0 {
      PressAssignedTyped(b, s, keys, n - 1);
      ModifierKeyEvent(b, PressAssigned(b, s, keys, n - 1), keys[n - 1], true);
    }
  }

  lemma {:induction false} ReleasePressedTyped(b: Board, s: GState, keys: seq<Key>, n: nat)
    requires b.Ok() && n <= |keys| && forall k :: k in keys ==> IsModifierKey(b, k)
    ensures OnlyModifiers(b, s, ReleasePressed(b, s, keys, n, false))
  {
    if n > 0 {
      ReleasePressedTyped(b, s, keys, n - 1);
      ModifierKeyEvent(b, ReleasePressed(b, s, keys, n - 1, false), keys[n - 1], false);
    }
  }

  lemma NudgeTyped(b: Board, s: GState)
    requires b.Ok()
    ensures OnlyModifiers(b, s, Nudge(b, s))
  {
    var keys := NudgeKeys(b);
    if keys != [] {
      assert keys[0] in b.mods[NudgeType(b)];
      ModifierKeyEvent(b, s, keys[0], true);
      ModifierKeyEvent(b, KeyEvent(b, s, keys[0], true, false), keys[0], false);
    }
  }

  lemma ModifierStepTyped(b: Board, s: GState, mod: Modifier, t: nat)
    requires b.Ok() && t < TYPE_BASIC
    ensures OnlyModifiers(b, s, ModifierStep(b, s, mod, t))
  {
    var keys := b.mods[t];
    assert forall k :: k in keys ==> IsModifierKey(b, k);
    if IsOff(mod, t) {
      NudgeTyped(b, s);
      ReleasePressedTyped(b, if NeedsNudge(b, s, t) then Nudge(b, s) else s, keys, |keys|);
    } else if IsRequested(mod, t) && keys != [] {
      PressAssignedTyped(b, s, keys, |keys|);
      ModifierKeyEvent(b, s, keys[0], true);
    }
  }

  /** Modifier synthesis only adds modifier strokes. */
  lemma {:induction false} ModifierEventsTyped(b: Board, s: GState, mod: Modifier, n: nat)
    requires b.Ok() && n <= TYPE_BASIC
    ensures OnlyModifiers(b, s, ModifierEvents(b, s, mod, n))
  {
    if n > 0 {
      ModifierEventsTyped(b, s, mod, n - 1);
      ModifierStepTyped(b, ModifierEvents(b, s, mod, n - 1), mod, n - 1);
    }
  }

  // ---- One key action ----

  /** The modifier types as the action, or else the current key, wants them; a type
      neither cares about is as before. */
  predicate AsWanted(b: Board, s: GState, after: GState, action: Modifier, ctx: Modifier)
    requires b.Ok()
  {
    forall t: nat :: t < TYPE_BASIC ==>
      if !action.IsDontcare(t) then SomePressed(after, b.mods[t]) <==> action.IsOn(t)
      else if !ctx.IsDontcare(t) then SomePressed(after, b.mods[t]) <==> ctx.IsOn(t)
      else forall k :: k in b.mods[t] ==> (k in after.pressed <==> k in s.pressed)
  }

  /** A key that is neither an event nor a modifier. */
  predicate IsPlainKey(b: Board, k: Key?)
    requires b.Ok()
  {
    k != null && k in b.keys && k !in b.events && !IsModifierKey(b, k)
  }

  predicate NoHarm(b: Board, s: GState, mod: Modifier)
    requires b.Ok()
  {
    !Harm(b, s, mod, TYPE_ALT) && !Harm(b, s, mod, TYPE_WINDOWS)
  }

  /** Pressing a key action makes its key, as the last stroke; at that stroke the
      modifiers are as wanted, unless the tap against a lone Alt or Windows harms them. */
  lemma KeyActionPress(b: Board, s: GState, ctx: Modifier, mkey: ModifiedKey)
    requires b.Ok() && Disjoint(b) && IsPlainKey(b, mkey.key) && CanPress(b, Added(mkey.modifier, ctx))
    requires mkey.modifier.IsOn(TYPE_DOWN) || mkey.modifier.IsDontcare(TYPE_DOWN)
    ensures var after := ActionEvents(b, s, ctx, KeyAction(mkey), true);
      && mkey.key in after.pressed && mkey.key in after.byAssign && after.last == mkey.key
      && s.log < after.log && after.log[|after.log| - 1] == Stroke(mkey.key, true)
      && (NoHarm(b, s, Added(mkey.modifier, ctx)) ==> AsWanted(b, s, after, mkey.modifier, ctx))
  {
    var wanted := Added(mkey.modifier, ctx);
    var before := ModifierEvents(b, s, wanted, TYPE_BASIC);
    var after := KeyEvent(b, before, mkey.key, true, true);
    ModifierEventsTyped(b, s, wanted, TYPE_BASIC);
    ReachedIffNoHarm(b, s, wanted);
    forall t: nat, k | t < TYPE_BASIC && k in b.mods[t] ensures k in after.pressed <==> k in before.pressed {
      assert IsModifierKey(b, k);
    }
    if NoHarm(b, s, wanted) {
      forall t: nat | t < TYPE_BASIC
        ensures if !mkey.modifier.IsDontcare(t) then SomePressed(after, b.mods[t]) <==> mkey.modifier.IsOn(t)
                else if !ctx.IsDontcare(t) then SomePressed(after, b.mods[t]) <==> ctx.IsOn(t)
                else forall k :: k in b.mods[t] ==> (k in after.pressed <==> k in s.pressed)
      {
        assert TypeReached(b, s, before, wanted, t);
        assert wanted.IsOn(t) <==> mkey.modifier.IsOnAfterAdd(ctx, t);
      }
    }
  }

  /** Releasing it breaks the key if it is down, and nothing else happens. */
  lemma KeyActionRelease(b: Board, s: GState, ctx: Modifier, mkey: ModifiedKey)
    requires b.Ok() && IsPlainKey(b, mkey.key) && mkey.key != b.syncKey
    requires mkey.modifier.IsOn(TYPE_UP) || mkey.modifier.IsDontcare(TYPE_UP)
    ensures var after := ActionEvents(b, s, ctx, KeyAction(mkey), false);
      && after.pressed == s.pressed - {mkey.key} && after.byAssign == s.byAssign - {mkey.key}
      && after.log == s.log + if mkey.key in s.pressed then [Stroke(mkey.key, false)] else []
  {
  }

  /** An action for one direction only does nothing in the other. */
  lemma OtherDirection(b: Board, s: GState, ctx: Modifier, mkey: ModifiedKey, doPress: bool)
    requires b.Ok()
    requires var t := if doPress then TYPE_DOWN else TYPE_UP; !mkey.modifier.IsOn(t) && !mkey.modifier.IsDontcare(t)
    ensures ActionEvents(b, s, ctx, KeyAction(mkey), doPress) == s
  {
  }

  // ---- Nested sequences ----

  /** Real keys and functions, each for both directions. */
  predicate Types(b: Board, a: Action)
    requires b.Ok()
  {
    match a
    case KeyAction(mkey) =>
      IsPlainKey(b, mkey.key) && Wants(mkey.modifier, TYPE_UP) && Wants(mkey.modifier, TYPE_DOWN)
    case SeqAction(keySeq) => forall i :: 0 <= i < |keySeq| ==> Types(b, keySeq[i])
    case FunctionAction(_, m) => Wants(m, TYPE_UP) && Wants(m, TYPE_DOWN)
  }

  /** The makes of the keys, and the starts of the functions, that an action names, in
      list order, the inner sequences in place. */
  function Makes(a: Action): seq<Emission>
    decreases a, 0
  {
    match a
    case KeyAction(mkey) => if mkey.key == null then [] else [Stroke(mkey.key, true)]
    case SeqAction(keySeq) => MakesOfFirst(keySeq, |keySeq|)
    case FunctionAction(f, _) => [Exec(f, true)]
  }

  function MakesOfFirst(actions: seq<Action>, n: nat): seq<Emission>
    requires n <= |actions|
    decreases actions, n
  {
    if n == 0 then [] else MakesOfFirst(actions, n - 1) + Makes(actions[n - 1])
  }

  function Ended(e: Emission): Emission {
    match e
    case Stroke(k, _) => Stroke(k, false)
    case Exec(f, _) => Exec(f, false)
  }

  /** Each make at once followed by its break. */
  function Pairs(makes: seq<Emission>): seq<Emission> {
    if makes == [] then []
    else
      var e := makes[|makes| - 1];
      Pairs(makes[..|makes| - 1]) + [e, Ended(e)]
  }

  lemma {:induction false} PairsAppend(xs: seq<Emission>, ys: seq<Emission>)
    ensures Pairs(xs + ys) == Pairs(xs) + Pairs(ys)
  {
    if ys == [] {
      assert xs + ys == xs;
    } else {
      var n := |ys| - 1;
      assert (xs + ys)[..|xs| + n] == xs + ys[..n];
      PairsAppend(xs, ys[..n]);
    }
  }

  lemma AppendPairs(front: seq<Emission>, xs: seq<Emission>, ys: seq<Emission>)
    ensures front + Pairs(xs) + Pairs(ys) == front + Pairs(xs + ys)
  {
    PairsAppend(xs, ys);
  }

  lemma PairOfOne(e: Emission)
    ensures Pairs([e]) == [e, Ended(e)]
  {
    assert [e][..0] == [];
  }

  /** What the release of an action still has to show: the break of what it left down. */
  function Rest(a: Action): seq<Emission> {
    match a
    case KeyAction(mkey) => if mkey.key == null then [] else [Stroke(mkey.key, false)]
    case SeqAction(keySeq) => if keySeq == [] then [] else Rest(keySeq[|keySeq| - 1])
    case FunctionAction(f, _) => [Exec(f, false)]
  }

  /** The key to be broken is down. */
  predicate RestIsDown(s: GState, a: Action) {
    forall e :: e in Rest(a) && e.Stroke? ==> e.key in s.pressed
  }

  lemma TypedKeyPress(b: Board, s: GState, ctx: Modifier, mkey: ModifiedKey)
    requires b.Ok() && Types(b, KeyAction(mkey))
    ensures var after := ActionEvents(b, s, ctx, KeyAction(mkey), true);
      Typed(b, after.log) == Typed(b, s.log) + [Stroke(mkey.key, true)] && mkey.key in after.pressed
  {
    var before := ModifierEvents(b, s, Added(mkey.modifier, ctx), TYPE_BASIC);
    ModifierEventsTyped(b, s, Added(mkey.modifier, ctx), TYPE_BASIC);
    TypedOneMore(b, before.log, Stroke(mkey.key, true));
  }

  lemma TypedKeyRelease(b: Board, s: GState, ctx: Modifier, mkey: ModifiedKey)
    requires b.Ok() && Types(b, KeyAction(mkey)) && mkey.key in s.pressed
    ensures Typed(b, ActionEvents(b, s, ctx, KeyAction(mkey), false).log)
         == Typed(b, s.log) + [Stroke(mkey.key, false)]
  {
    TypedOneMore(b, s.log, Stroke(mkey.key, false));
  }

  lemma {:induction false} TypedPress(b: Board, s: GState, ctx: Modifier, a: Action)
    requires b.Ok() && Types(b, a)
    ensures Typed(b, ActionEvents(b, s, ctx, a, true).log) + Rest(a) == Typed(b, s.log) + Pairs(Makes(a))
    ensures RestIsDown(ActionEvents(b, s, ctx, a, true), a)
    decreases a, 2
  {
    match a {
      case KeyAction(mkey) =>
        TypedKeyPress(b, s, ctx, mkey);
        PairOfOne(Stroke(mkey.key, true));
      case SeqAction(keySeq) =>
        if keySeq != [] {
          TypedSequencePress(b, s, ctx, keySeq);
        }
      case FunctionAction(f, _) =>
        TypedOneMore(b, s.log, Exec(f, true));
        PairOfOne(Exec(f, true));
    }
  }

  /** The earlier actions were pressed and released, the last one is pressed. */
  lemma {:induction false} TypedSequencePress(b: Board, s: GState, ctx: Modifier, actions: seq<Action>)
    requires b.Ok() && actions != [] && Types(b, SeqAction(actions))
    ensures Typed(b, KeySeqEvents(b, s, ctx, actions, PART_DOWN).log) + Rest(actions[|actions| - 1])
         == Typed(b, s.log) + Pairs(MakesOfFirst(actions, |actions|))
    ensures RestIsDown(KeySeqEvents(b, s, ctx, actions, PART_DOWN), actions[|actions| - 1])
    decreases actions, |actions|
  {
    var n := |actions| - 1;
    TypedPrefix(b, s, ctx, actions, n);
    TypedPress(b, PrefixEvents(b, s, ctx, actions, n), ctx, actions[n]);
    AppendPairs(Typed(b, s.log), MakesOfFirst(actions, n), Makes(actions[n]));
  }

  lemma {:induction false} TypedRelease(b: Board, s: GState, ctx: Modifier, a: Action)
    requires b.Ok() && Types(b, a) && RestIsDown(s, a)
    ensures Typed(b, ActionEvents(b, s, ctx, a, false).log) == Typed(b, s.log) + Rest(a)
    decreases a
  {
    match a {
      case KeyAction(mkey) =>
        assert Stroke(mkey.key, false) in Rest(a);
        TypedKeyRelease(b, s, ctx, mkey);
      case SeqAction(keySeq) =>
        if keySeq != [] {
          TypedRelease(b, s, ctx, keySeq[|keySeq| - 1]);
        }
      case FunctionAction(f, _) =>
        TypedOneMore(b, s.log, Exec(f, false));
    }
  }

  lemma {:induction false} TypedBoth(b: Board, s: GState, ctx: Modifier, a: Action)
    requires b.Ok() && Types(b, a)
    ensures Typed(b, ActionEvents(b, ActionEvents(b, s, ctx, a, true), ctx, a, false).log)
         == Typed(b, s.log) + Pairs(Makes(a))
    decreases a, 3
  {
    TypedPress(b, s, ctx, a);
    TypedRelease(b, ActionEvents(b, s, ctx, a, true), ctx, a);
  }

  lemma {:induction false} TypedPrefix(b: Board, s: GState, ctx: Modifier, actions: seq<Action>, n: nat)
    requires b.Ok() && n <= |actions| && forall i :: 0 <= i < |actions| ==> Types(b, actions[i])
    ensures Typed(b, PrefixEvents(b, s, ctx, actions, n).log) == Typed(b, s.log) + Pairs(MakesOfFirst(actions, n))
    decreases actions, n
  {
    if n > 0 {
      TypedPrefix(b, s, ctx, actions, n - 1);
      TypedBoth(b, PrefixEvents(b, s, ctx, actions, n - 1), ctx, actions[n - 1]);
      AppendPairs(Typed(b, s.log), MakesOfFirst(actions, n - 1), Makes(actions[n - 1]));
    }
  }

  /** The whole of a nested sequence types every key and runs every function it names,
      once, in list order, each break right after its make. */
  lemma SequenceTypes(b: Board, s: GState, ctx: Modifier, actions: seq<Action>)
    requires b.Ok() && forall i :: 0 <= i < |actions| ==> Types(b, actions[i])
    ensures Typed(b, KeySeqEvents(b, s, ctx, actions, PART_ALL).log)
         == Typed(b, s.log) + Pairs(MakesOfFirst(actions, |actions|))
  {
    var a := SeqAction(actions);
    TypedBoth(b, s, ctx, a);
    DownThenUpIsAll(b, s, ctx, ctx, actions);
  }
}
