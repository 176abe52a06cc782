/** The key event generator of engine_generator.cpp: what each generator call does to
    the pressed keys and to the injected events. */
module Generator {
  import opened Words
  import opened Modifiers
  import opened Keyboards

  /** One injected record of a scan code. */
  datatype Record = Record(makeCode: uint16, flags: set<Flag>)

  /** A key made or broken, or a function executed. */
  datatype Emission = Stroke(key: Key, press: bool) | Exec(functionId: nat, press: bool)

  /** The keyboard of the setting: hashed keys, sync key, the four basic modifier
      lists, and the event pseudo-keys.  `keys` is the set of all real keys. */
  datatype Board = Board(hashedKeys: seq<seq<Key>>, syncKey: Key, mods: seq<seq<Key>>, events: seq<Key>,
                         keys: set<Key>) {
    predicate Ok() {
      && keys == (set k | k in Flatten(hashedKeys)) + {syncKey}
      && |mods| == TYPE_BASIC
      && (forall t :: 0 <= t < TYPE_BASIC ==> forall k :: k in mods[t] ==> k in keys)
      && (forall e :: e in events ==> e !in keys)
    }

    predicate IsKnown(k: Key?) {
      k != null && (k in keys || k in events)
    }
  }

  /** What the engine believes: pressed keys, keys pressed by assignment, the press
      counter, the last generated key, and everything emitted so far. */
  datatype GState = GState(pressed: set<Key>, byAssign: set<Key>, count: int, last: Key?, log: seq<Emission>)

  function With<T>(s: set<T>, x: T, isIn: bool): set<T> {
    if isIn then s + {x} else s - {x}
  }

  // ---- Generator calls as functions of the state ----

  /** `generateKeyEvent` */
  function KeyEvent(b: Board, s: GState, k: Key, doPress: bool, byAssign: bool): GState {
    if k in b.events then s
    else
      var isAlreadyReleased := !doPress && k !in s.pressed;
      var isEmitted := !isAlreadyReleased || k == b.syncKey;
      GState(
        With(s.pressed, k, doPress),
        if byAssign then With(s.byAssign, k, doPress) else s.byAssign,
        s.count + (if doPress && k !in s.pressed then 1 else if !doPress && k in s.pressed then -1 else 0),
        if !isEmitted then s.last else if doPress then k else null,
        if isEmitted then s.log + [Stroke(k, doPress)] else s.log)
  }

  predicate SomePressed(s: GState, keys: seq<Key>) {
    exists k :: k in keys && k in s.pressed
  }

  predicate SomeByAssign(s: GState, keys: seq<Key>) {
    exists k :: k in keys && k in s.byAssign
  }

  /** Press those of the first n keys that are pressed by assignment. */
  function PressAssigned(b: Board, s: GState, keys: seq<Key>, n: nat): GState
    requires n <= |keys|
  {
    if n == 0 then s
    else
      var before := PressAssigned(b, s, keys, n - 1);
      if keys[n - 1] in before.byAssign then KeyEvent(b, before, keys[n - 1], true, false) else before
  }

  /** Release those of the first n keys that are pressed. */
  function ReleasePressed(b: Board, s: GState, keys: seq<Key>, n: nat, byAssign: bool): GState
    requires n <= |keys|
  {
    if n == 0 then s
    else
      var before := ReleasePressed(b, s, keys, n - 1, byAssign);
      if keys[n - 1] in before.pressed then KeyEvent(b, before, keys[n - 1], false, byAssign) else before
  }

  lemma {:induction false} ReleasePressedEffect(b: Board, s: GState, keys: seq<Key>, n: nat, byAssign: bool)
    requires n <= |keys| && forall k :: k in keys ==> k !in b.events
    ensures ReleasePressed(b, s, keys, n, byAssign).pressed == s.pressed - set k | k in keys[..n]
    ensures ReleasePressed(b, s, keys, n, byAssign).byAssign
         == if byAssign then s.byAssign - set k | k in keys[..n] && k in s.pressed else s.byAssign
  {
    if n > 0 {
      ReleasePressedEffect(b, s, keys, n - 1, byAssign);
      assert keys[..n] == keys[..n - 1] + [keys[n - 1]];
    }
  }

  /** What a release of all hashed keys leaves. */
  lemma ResetEffect(b: Board, s: GState)
    requires b.Ok() && s.pressed <= b.keys
    ensures var all := Flatten(b.hashedKeys);
      var after := ReleasePressed(b, s, all, |all|, true);
      && after.pressed <= {b.syncKey}
      && (b.syncKey !in s.pressed ==> after.pressed == {} && after.byAssign == s.byAssign - s.pressed)
  {
    var all := Flatten(b.hashedKeys);
    assert all[..|all|] == all;
    assert forall k :: k in all ==> k in b.keys;
    ReleasePressedEffect(b, s, all, |all|, true);
  }

  /** The keys one of which is tapped to keep Alt or Windows from being tapped alone. */
  function NudgeKeys(b: Board): seq<Key>
    requires b.Ok()
  {
    if b.mods[TYPE_SHIFT] == [] then b.mods[TYPE_CONTROL] else b.mods[TYPE_SHIFT]
  }

  function Nudge(b: Board, s: GState): GState
    requires b.Ok()
  {
    var keys := NudgeKeys(b);
    if keys == [] then s
    else KeyEvent(b, KeyEvent(b, s, keys[0], true, false), keys[0], false, false)
  }

  predicate LastIn(s: GState, keys: seq<Key>) {
    s.last != null && s.last in keys
  }

  predicate NeedsNudge(b: Board, s: GState, t: nat)
    requires b.Ok() && t < TYPE_BASIC
  {
    (t == TYPE_ALT || t == TYPE_WINDOWS) && LastIn(s, b.mods[t])
  }

  /** One basic modifier type of `generateModifierEvents`. */
  function ModifierStep(b: Board, s: GState, mod: Modifier, t: nat): GState
    requires b.Ok() && t < TYPE_BASIC
  {
    var keys := b.mods[t];
    if mod.IsDontcare(t) then s
    else if mod.IsOn(t) then
      if keys == [] || SomePressed(s, keys) then s
      else if !SomeByAssign(s, keys) then KeyEvent(b, s, keys[0], true, false)
      else PressAssigned(b, s, keys, |keys|)
    else
      ReleasePressed(b, if NeedsNudge(b, s, t) then Nudge(b, s) else s, keys, |keys|, false)
  }

  /** The first n types of `generateModifierEvents`. */
  function ModifierEvents(b: Board, s: GState, mod: Modifier, n: nat): GState
    requires b.Ok() && n <= TYPE_BASIC
  {
    if n == 0 then s else ModifierStep(b, ModifierEvents(b, s, mod, n - 1), mod, n - 1)
  }

  /** A modifier to be pressed must have a key: the source takes the first one unasked. */
  predicate CanPress(b: Board, mod: Modifier)
    requires b.Ok()
  {
    forall t :: 0 <= t < TYPE_BASIC && !mod.IsDontcare(t) && mod.IsOn(t) ==> b.mods[t] != []
  }

  datatype Part = PART_ALL | PART_UP | PART_DOWN

  predicate Wants(m: Modifier, t: nat) {
    m.IsOn(t) || m.IsDontcare(t)
  }

  /** `generateActionEvents`; ctx is the modifier of the current key. */
  function ActionEvents(b: Board, s: GState, ctx: Modifier, a: Action, doPress: bool): GState
    requires b.Ok()
    decreases a, 0
  {
    match a
    case KeyAction(mkey) =>
      if mkey.key == null then s
      else if !doPress && Wants(mkey.modifier, TYPE_UP) then KeyEvent(b, s, mkey.key, false, true)
      else if doPress && Wants(mkey.modifier, TYPE_DOWN) then
        KeyEvent(b, ModifierEvents(b, s, Added(mkey.modifier, ctx), TYPE_BASIC), mkey.key, true, true)
      else s
    case SeqAction(keySeq) => KeySeqEvents(b, s, ctx, keySeq, if doPress then PART_DOWN else PART_UP)
    case FunctionAction(f, m) =>
      if Wants(m, if doPress then TYPE_DOWN else TYPE_UP) then s.(log := s.log + [Exec(f, doPress)]) else s
  }

  /** The first n actions, each pressed and released. */
  function PrefixEvents(b: Board, s: GState, ctx: Modifier, actions: seq<Action>, n: nat): GState
    requires b.Ok() && n <= |actions|
    decreases actions, n
  {
    if n == 0 then s
    else
      var before := PrefixEvents(b, s, ctx, actions, n - 1);
      ActionEvents(b, ActionEvents(b, before, ctx, actions[n - 1], true), ctx, actions[n - 1], false)
  }

  /** `generateKeySeqEvents` */
  function KeySeqEvents(b: Board, s: GState, ctx: Modifier, actions: seq<Action>, part: Part): GState
    requires b.Ok()
    decreases actions, |actions| + 1
  {
    if actions == [] then s
    else
      var lastAction := actions[|actions| - 1];
      if part.PART_UP? then ActionEvents(b, s, ctx, lastAction, false)
      else
        var down := ActionEvents(b, PrefixEvents(b, s, ctx, actions, |actions| - 1), ctx, lastAction, true);
        if part.PART_ALL? then ActionEvents(b, down, ctx, lastAction, false) else down
  }

  /** What the source takes for granted about an action. */
  predicate ActionOk(b: Board, ctx: Modifier, a: Action)
    requires b.Ok()
  {
    match a
    case KeyAction(mkey) => b.IsKnown(mkey.key) && CanPress(b, Added(mkey.modifier, ctx))
    case SeqAction(keySeq) => forall i :: 0 <= i < |keySeq| ==> ActionOk(b, ctx, keySeq[i])
    case FunctionAction(_, _) => true
  }

  // ---- Records and replay ----

  function RecordsOf(e: Emission): seq<Record> {
    match e
    case Stroke(k, press) =>
      seq(|k.scanCodes|, i requires 0 <= i < |k.scanCodes| =>
        Record(k.scanCodes[i].scan, k.scanCodes[i].flags + if press then {} else {BREAK}))
    case Exec(_, _) => []
  }

  function Records(log: seq<Emission>): seq<Record> {
    if log == [] then [] else Records(log[..|log| - 1]) + RecordsOf(log[|log| - 1])
  }

  /** The keys that are down for somebody who sees the emitted strokes. */
  function Replay(log: seq<Emission>): set<Key> {
    if log == [] then {}
    else
      var down := Replay(log[..|log| - 1]);
      match log[|log| - 1]
      case Stroke(k, press) => With(down, k, press)
      case Exec(_, _) => down
  }

  /** The key that was made last, unless it or another key was broken since. */
  function LastMade(log: seq<Emission>): Key? {
    if log == [] then null
    else
      match log[|log| - 1]
      case Stroke(k, press) => if press then k else null
      case Exec(_, _) => LastMade(log[..|log| - 1])
  }

  /** The flags, the counter and the last key are what the emitted strokes say. */
  predicate Believes(b: Board, s: GState) {
    && s.pressed == Replay(s.log)
    && s.count == |s.pressed|
    && s.last == LastMade(s.log)
    && forall e :: e in s.log && e.Stroke? ==> e.key in b.keys
  }

  lemma KeyEventKeepsBelief(b: Board, s: GState, k: Key, doPress: bool, byAssign: bool)
    requires Believes(b, s) && b.IsKnown(k)
    ensures Believes(b, KeyEvent(b, s, k, doPress, byAssign))
  {
    var log := s.log + [Stroke(k, doPress)];
    assert log[..|log| - 1] == s.log;
    assert k !in s.pressed ==> s.pressed - {k} == s.pressed;
  }

  // ---- The engine ----

  class Engine {
    const board: Board
    var currentKeyPressCountOnWin32: int
    var lastGeneratedKey: Key?
    var injected: seq<Record>
    ghost var log: seq<Emission>

    ghost function Pressed(): set<Key>
      reads board.keys
    {
      set k | k in board.keys && k.isPressedOnWin32
    }

    ghost function ByAssign(): set<Key>
      reads board.keys
    {
      set k | k in board.keys && k.isPressedByAssign
    }

    ghost function State(): GState
      reads this, board.keys
    {
      GState(Pressed(), ByAssign(), currentKeyPressCountOnWin32, lastGeneratedKey, log)
    }

    /** The engine's belief is what the injected events say. */
    ghost predicate Valid()
      reads this, board.keys
    {
      && board.Ok()
      && injected == Records(log)
      && Believes(board, State())
    }

    /** An engine whose keys are all released. */
    constructor (board: Board)
      requires board.Ok() && forall k :: k in board.keys ==> !k.isPressedOnWin32
      ensures Valid() && this.board == board && log == []
    {
      this.board := board;
      currentKeyPressCountOnWin32, lastGeneratedKey, injected, log := 0, null, [], [];
    }

    method InjectInput(r: Record)
      modifies this`injected
      ensures injected == old(injected) + [r]
    {
      injected := injected + [r];
    }

    method IsEvent(k: Key) returns (isEvent: bool)
      ensures isEvent == (k in board.events)
    {
      for i := 0 to |board.events|
        invariant k !in board.events[..i]
      {
        if board.events[i] == k {
          return true;
        }
      }
      return false;
    }

    method InjectScanCodes(k: Key, doPress: bool)
      modifies this`injected
      ensures injected == old(injected) + RecordsOf(Stroke(k, doPress))
    {
      for i := 0 to |k.scanCodes|
        invariant injected == old(injected) + RecordsOf(Stroke(k, doPress))[..i]
      {
        var flags := k.scanCodes[i].flags;
        if !doPress {
          flags := flags + {BREAK};
        }
        InjectInput(Record(k.scanCodes[i].scan, flags));
        assert flags == k.scanCodes[i].flags + if doPress then {} else {BREAK};
        ghost var all := RecordsOf(Stroke(k, doPress));
        assert all[..i + 1] == all[..i] + [all[i]];
      }
    }

    /** The two flags of the key. */
    method SetPressed(k: Key, doPress: bool, isByAssign: bool)
      requires k in board.keys
      modifies k
      ensures Pressed() == With(old(Pressed()), k, doPress)
      ensures ByAssign() == if isByAssign then With(old(ByAssign()), k, doPress) else old(ByAssign())
    {
      k.isPressedOnWin32 := doPress;
      if isByAssign {
        k.isPressedByAssign := doPress;
      }
    }

    /** The press counter; tells whether a release came too late. */
    method CountPress(k: Key, doPress: bool) returns (isAlreadyReleased: bool)
      modifies this`currentKeyPressCountOnWin32
      ensures isAlreadyReleased == (!doPress && !k.isPressedOnWin32)
      ensures currentKeyPressCountOnWin32 == old(currentKeyPressCountOnWin32)
                + (if doPress && !k.isPressedOnWin32 then 1 else if !doPress && k.isPressedOnWin32 then -1 else 0)
    {
      isAlreadyReleased := false;
      if doPress && !k.isPressedOnWin32 {
        currentKeyPressCountOnWin32 := currentKeyPressCountOnWin32 + 1;
      } else if !doPress {
        if k.isPressedOnWin32 {
          currentKeyPressCountOnWin32 := currentKeyPressCountOnWin32 - 1;
        } else {
          isAlreadyReleased := true;
        }
      }
    }

    method Emit(k: Key, doPress: bool)
      requires injected == Records(log)
      modifies this`injected, this`lastGeneratedKey, this`log
      ensures injected == Records(log) && log == old(log) + [Stroke(k, doPress)]
      ensures lastGeneratedKey == if doPress then k else null
    {
      InjectScanCodes(k, doPress);
      lastGeneratedKey := if doPress then k else null;
      log := log + [Stroke(k, doPress)];
      assert log[..|log| - 1] == old(log);
    }

    /** A key that is up already is not broken again, except for the sync key. */
    method EmitUnlessReleased(k: Key, doPress: bool, isAlreadyReleased: bool)
      requires injected == Records(log)
      modifies this`injected, this`lastGeneratedKey, this`log
      ensures injected == Records(log)
      ensures log == old(log) + if !isAlreadyReleased || k == board.syncKey then [Stroke(k, doPress)] else []
      ensures lastGeneratedKey == if !isAlreadyReleased || k == board.syncKey then (if doPress then k else null)
                                  else old(lastGeneratedKey)
    {
      if !isAlreadyReleased || k == board.syncKey {
        Emit(k, doPress);
      }
    }

    method GenerateRealKey(k: Key, doPress: bool, isByAssign: bool)
      requires injected == Records(log) && k in board.keys && k !in board.events
      modifies this, board.keys
      ensures injected == Records(log)
      ensures State() == KeyEvent(board, old(State()), k, doPress, isByAssign)
    {
      ghost var expected := KeyEvent(board, State(), k, doPress, isByAssign);
      assert k.isPressedOnWin32 <==> k in Pressed();
      var isAlreadyReleased := CountPress(k, doPress);
      assert currentKeyPressCountOnWin32 == expected.count;
      SetPressed(k, doPress, isByAssign);
      EmitUnlessReleased(k, doPress, isAlreadyReleased);
      assert Pressed() == expected.pressed;
      assert ByAssign() == expected.byAssign;
      assert lastGeneratedKey == expected.last && log == expected.log;
    }

    method GenerateKeyEvent(k: Key, doPress: bool, isByAssign: bool)
      requires Valid() && board.IsKnown(k)
      modifies this, board.keys
      ensures Valid() && State() == KeyEvent(board, old(State()), k, doPress, isByAssign)
    {
      KeyEventKeepsBelief(board, State(), k, doPress, isByAssign);
      var isEvent := IsEvent(k);
      if !isEvent {
        GenerateRealKey(k, doPress, isByAssign);
      }
    }

    /** The scan over the keys of a modifier that is to be pressed. */
    method ScanModifier(keys: seq<Key>) returns (noneIsPressed: bool, noneIsPressedByAssign: bool)
      requires forall k :: k in keys ==> k in board.keys
      ensures noneIsPressed == !SomePressed(State(), keys)
      ensures noneIsPressedByAssign == !SomeByAssign(State(), keys)
    {
      noneIsPressed, noneIsPressedByAssign := true, true;
      for i := 0 to |keys|
        invariant noneIsPressed == forall k :: k in keys[..i] ==> k !in Pressed()
        invariant noneIsPressedByAssign == forall k :: k in keys[..i] ==> k !in ByAssign()
      {
        assert keys[..i + 1] == keys[..i] + [keys[i]];
        assert keys[i].isPressedOnWin32 <==> keys[i] in Pressed();
        assert keys[i].isPressedByAssign <==> keys[i] in ByAssign();
        if keys[i].isPressedOnWin32 {
          noneIsPressed := false;
        }
        if keys[i].isPressedByAssign {
          noneIsPressedByAssign := false;
        }
      }
      assert keys[..|keys|] == keys;
    }

    method PressModifier(keys: seq<Key>)
      requires Valid() && keys != [] && forall k :: k in keys ==> k in board.keys
      modifies this, board.keys
      ensures Valid()
      ensures State() == (if SomePressed(old(State()), keys) then old(State())
                          else if !SomeByAssign(old(State()), keys) then
                            KeyEvent(board, old(State()), keys[0], true, false)
                          else PressAssigned(board, old(State()), keys, |keys|))
    {
      var noneIsPressed, noneIsPressedByAssign := ScanModifier(keys);
      if noneIsPressed {
        if noneIsPressedByAssign {
          GenerateKeyEvent(keys[0], true, false);
        } else {
          for i := 0 to |keys|
            invariant Valid() && State() == PressAssigned(board, old(State()), keys, i)
          {
            assert keys[i].isPressedByAssign <==> keys[i] in ByAssign();
            if keys[i].isPressedByAssign {
              GenerateKeyEvent(keys[i], true, false);
            }
          }
        }
      }
    }

    method TapNudgeKey()
      requires Valid()
      modifies this, board.keys
      ensures Valid() && State() == Nudge(board, old(State()))
    {
      var keys := board.mods[TYPE_SHIFT];
      if |keys| == 0 {
        keys := board.mods[TYPE_CONTROL];
      }
      if 0 < |keys| {
        GenerateKeyEvent(keys[0], true, false);
        GenerateKeyEvent(keys[0], false, false);
      }
    }

    /** "Alt U-Alt" and "Windows U-Windows" are kept apart. */
    method NudgeIfLast(keys: seq<Key>)
      requires Valid()
      modifies this, board.keys
      ensures Valid()
      ensures State() == if LastIn(old(State()), keys) then Nudge(board, old(State())) else old(State())
    {
      for j := 0 to |keys|
        invariant Valid() && State() == old(State())
        invariant !LastIn(State(), keys[..j])
      {
        if keys[j] == lastGeneratedKey {
          TapNudgeKey();
          return;
        }
        assert keys[..j + 1] == keys[..j] + [keys[j]];
      }
      assert keys[..|keys|] == keys;
    }

    /** One round of a release loop. */
    method ReleaseIfPressed(k: Key, isByAssign: bool, ghost start: GState, ghost all: seq<Key>, ghost n: nat)
      requires Valid() && n < |all| && all[n] == k && k in board.keys
      requires State() == ReleasePressed(board, start, all, n, isByAssign)
      modifies this, board.keys
      ensures Valid() && State() == ReleasePressed(board, start, all, n + 1, isByAssign)
    {
      assert k.isPressedOnWin32 <==> k in Pressed();
      if k.isPressedOnWin32 {
        GenerateKeyEvent(k, false, isByAssign);
      }
    }

    method ReleaseModifier(keys: seq<Key>)
      requires Valid() && forall k :: k in keys ==> k in board.keys
      modifies this, board.keys
      ensures Valid() && State() == ReleasePressed(board, old(State()), keys, |keys|, false)
    {
      for j := 0 to |keys|
        invariant Valid() && State() == ReleasePressed(board, old(State()), keys, j, false)
      {
        ReleaseIfPressed(keys[j], false, old(State()), keys, j);
      }
    }

    method GenerateModifierEvents(mod: Modifier)
      requires Valid() && CanPress(board, mod)
      modifies this, board.keys
      ensures Valid() && State() == ModifierEvents(board, old(State()), mod, TYPE_BASIC)
    {
      for i := 0 to TYPE_BASIC
        invariant Valid() && State() == ModifierEvents(board, old(State()), mod, i)
      {
        var keys := board.mods[i];
        if mod.IsDontcare(i) {
        } else if mod.IsOn(i) {
          PressModifier(keys);
        } else {
          if i == TYPE_ALT || i == TYPE_WINDOWS {
            NudgeIfLast(keys);
          }
          ReleaseModifier(keys);
        }
      }
    }

    /** Running a function is only recorded. */
    method Execute(functionId: nat, doPress: bool)
      requires Valid()
      modifies this
      ensures Valid() && State() == old(State()).(log := old(log) + [Exec(functionId, doPress)])
    {
      log := log + [Exec(functionId, doPress)];
      assert log[..|log| - 1] == old(log);
    }

    method GenerateActionEvents(ctx: Modifier, a: Action, doPress: bool)
      requires Valid() && ActionOk(board, ctx, a)
      modifies this, board.keys
      ensures Valid() && State() == ActionEvents(board, old(State()), ctx, a, doPress)
      decreases a, 0
    {
      match a {
        case KeyAction(mkey) =>
          if !doPress && (mkey.modifier.IsOn(TYPE_UP) || mkey.modifier.IsDontcare(TYPE_UP)) {
            GenerateKeyEvent(mkey.key, false, true);
          } else if doPress && (mkey.modifier.IsOn(TYPE_DOWN) || mkey.modifier.IsDontcare(TYPE_DOWN)) {
            var modifier := Add(mkey.modifier, ctx);
            GenerateModifierEvents(modifier);
            GenerateKeyEvent(mkey.key, true, true);
          }
        case SeqAction(keySeq) =>
          GenerateKeySeqEvents(ctx, keySeq, if doPress then PART_DOWN else PART_UP);
        case FunctionAction(f, m) =>
          var isUp := !doPress && (m.IsOn(TYPE_UP) || m.IsDontcare(TYPE_UP));
          var isDown := doPress && (m.IsOn(TYPE_DOWN) || m.IsDontcare(TYPE_DOWN));
          if isDown || isUp {
            Execute(f, doPress);
          }
      }
    }

    method GenerateKeySeqEvents(ctx: Modifier, actions: seq<Action>, part: Part)
      requires Valid() && ActionOk(board, ctx, SeqAction(actions))
      modifies this, board.keys
      ensures Valid() && State() == KeySeqEvents(board, old(State()), ctx, actions, part)
      decreases actions, |actions| + 1
    {
      if |actions| == 0 {
        return;
      }
      var n := |actions| - 1;
      if part.PART_UP? {
        GenerateActionEvents(ctx, actions[n], false);
      } else {
        for i := 0 to n
          invariant Valid() && State() == PrefixEvents(board, old(State()), ctx, actions, i)
        {
          GenerateActionEvents(ctx, actions[i], true);
          GenerateActionEvents(ctx, actions[i], false);
        }
        GenerateActionEvents(ctx, actions[n], true);
        if part.PART_ALL? {
          GenerateActionEvents(ctx, actions[n], false);
        }
      }
    }

    /** The iterator has passed n of the keys and stands at k. */
    static ghost predicate StandsAt(i: KeyIterator, k: Key?, all: seq<Key>, n: nat)
      reads i
    {
      && i.Valid() && n <= |all| && i.Remaining() == all[n..]
      && k == if n == |all| then null else all[n]
    }

    static method Begin(hashedKeys: seq<seq<Key>>, ghost all: seq<Key>) returns (i: KeyIterator, k: Key?)
      requires all == Flatten(hashedKeys)
      ensures fresh(i) && StandsAt(i, k, all, 0)
    {
      i := new KeyIterator(hashedKeys);
      k := i.Current();
      assert all[0..] == all;
    }

    static method Advance(i: KeyIterator, k: Key, ghost all: seq<Key>, ghost n: nat) returns (next: Key?)
      requires StandsAt(i, k, all, n)
      modifies i
      ensures n < |all| && StandsAt(i, next, all, n + 1)
    {
      i.Next();
      next := i.Current();
    }

    method ReleaseAndAdvance(i: KeyIterator, k: Key, ghost start: GState, ghost all: seq<Key>, ghost n: nat)
      returns (next: Key?)
      requires Valid() && all == Flatten(board.hashedKeys) && StandsAt(i, k, all, n)
      requires State() == ReleasePressed(board, start, all, n, true)
      modifies this, board.keys, i
      ensures n < |all| && StandsAt(i, next, all, n + 1)
      ensures Valid() && State() == ReleasePressed(board, start, all, n + 1, true)
    {
      assert k in all;
      ReleaseIfPressed(k, true, start, all, n);
      ghost var released := State();
      next := Advance(i, k, all, n);
      assert State() == released;
    }

    /** The reset loop, from the current key of the iterator on. */
    method ReleaseAllIn(ghost all: seq<Key>)
      requires Valid() && all == Flatten(board.hashedKeys)
      modifies this, board.keys
      ensures Valid() && State() == ReleasePressed(board, old(State()), all, |all|, true)
    {
      ghost var start := State();
      var i, k := Begin(board.hashedKeys, all);
      ghost var n := 0;
      while k != null
        invariant fresh(i) && StandsAt(i, k, all, n)
        invariant Valid() && State() == ReleasePressed(board, start, all, n, true)
        decreases |all| - n
      {
        k := ReleaseAndAdvance(i, k, start, all, n);
        n := n + 1;
      }
    }

    /** `keyboardResetOnWin32`: the iterator misses only the sync key. */
    method KeyboardResetOnWin32()
      requires Valid()
      modifies this, board.keys
      ensures Valid() && Pressed() <= {board.syncKey}
      ensures board.syncKey !in old(Pressed()) ==> Pressed() == {} && currentKeyPressCountOnWin32 == 0
      ensures board.syncKey !in old(Pressed()) ==> ByAssign() == old(ByAssign()) - old(Pressed())
    {
      ghost var all := Flatten(board.hashedKeys);
      ReleaseAllIn(all);
      ResetEffect(board, old(State()));
    }
  }
}
