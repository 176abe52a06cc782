/** The m_cs / m_isSynchronizing handshake: &Wait and &Sync give up the lock in the
    middle of a key event, and other threads must not change the engine meanwhile. */
module SyncHandshake {
  type ThreadId = nat

  datatype Owner = FREE | HANDLER | WRITER(id: ThreadId)

  /** The handler around one key event; the window is where it sleeps without the lock. */
  datatype HandlerPc = Outside | Inside | FlagSet | Window | Reacquired

  /** `setSetting`, `setLockState` and `setShow`, each with the value it brings. */
  datatype Write = SetSetting(setting: nat) | SetLockState(locks: nat) | SetShow(show: nat)

  datatype WriterPc = WIdle | WWant(write: Write) | WLocked(write: Write) | WPassed(write: Write) | WLeaving

  /** What the lock protects. */
  datatype Guarded = Guarded(setting: nat, locks: nat, show: nat)

  /** expected is what the handler itself left there since it entered the region. */
  datatype State = State(owner: Owner, isSynchronizing: bool, guarded: Guarded,
                         handler: HandlerPc, writers: map<ThreadId, WriterPc>, expected: Guarded)

  datatype Action =
    | Enter | OwnLockChange(locks: nat) | SetFlag | Drop | Retake | ClearFlag | Leave
    | Request(id: ThreadId, write: Write) | WriterAcquire(id: ThreadId) | Check(id: ThreadId)
    | Apply(id: ThreadId) | WriterRelease(id: ThreadId)

  const START := Guarded(0, 0, 0)
  const INITIAL := State(FREE, false, START, Outside, map[], START)

  function Pc(s: State, id: ThreadId): WriterPc {
    if id in s.writers then s.writers[id] else WIdle
  }

  function Writer(s: State, id: ThreadId, pc: WriterPc): State {
    s.(writers := s.writers[id := pc])
  }

  function Applied(g: Guarded, w: Write): Guarded {
    match w
    case SetSetting(v) => g.(setting := v)
    case SetLockState(v) => g.(locks := v)
    case SetShow(v) => g.(show := v)
  }

  function HandlerStep(s: State, a: Action): State {
    match a
    case Enter =>
      if s.handler.Outside? && s.owner.FREE? then s.(owner := HANDLER, handler := Inside, expected := s.guarded) else s
    case OwnLockChange(v) =>
      if s.handler.Inside? then s.(guarded := s.guarded.(locks := v), expected := s.expected.(locks := v)) else s
    case SetFlag => if s.handler.Inside? then s.(isSynchronizing := true, handler := FlagSet) else s
    case Drop => if s.handler.FlagSet? then s.(owner := FREE, handler := Window) else s
    case Retake => if s.handler.Window? && s.owner.FREE? then s.(owner := HANDLER, handler := Reacquired) else s
    case ClearFlag => if s.handler.Reacquired? then s.(isSynchronizing := false, handler := Inside) else s
    case Leave => if s.handler.Inside? then s.(owner := FREE, handler := Outside) else s
    case _ => s
  }

  function WriterStep(s: State, a: Action): State {
    match a
    case Request(id, w) => if Pc(s, id).WIdle? then Writer(s, id, WWant(w)) else s
    case WriterAcquire(id) =>
      if Pc(s, id).WWant? && s.owner.FREE? then Writer(s, id, WLocked(Pc(s, id).write)).(owner := WRITER(id)) else s
    case Check(id) =>
      if !Pc(s, id).WLocked? then s
      else Writer(s, id, if s.isSynchronizing then WLeaving else WPassed(Pc(s, id).write))
    case Apply(id) =>
      if !Pc(s, id).WPassed? then s
      else Writer(s, id, WLeaving).(guarded := Applied(s.guarded, Pc(s, id).write))
    case WriterRelease(id) => if Pc(s, id).WLeaving? then Writer(s, id, WIdle).(owner := FREE) else s
    case _ => s
  }

  predicate IsWriterAction(a: Action) {
    a.Request? || a.WriterAcquire? || a.Check? || a.Apply? || a.WriterRelease?
  }

  function Step(s: State, a: Action): State {
    if IsWriterAction(a) then WriterStep(s, a) else HandlerStep(s, a)
  }

  function Run(actions: seq<Action>): State {
    if actions == [] then INITIAL else Step(Run(actions[..|actions| - 1]), actions[|actions| - 1])
  }

  predicate WriterHolds(pc: WriterPc) {
    pc.WLocked? || pc.WPassed? || pc.WLeaving?
  }

  ghost predicate Inv(s: State) {
    && (forall id: ThreadId :: WriterHolds(Pc(s, id)) <==> s.owner == WRITER(id))
    && (s.handler.Inside? || s.handler.FlagSet? || s.handler.Reacquired? <==> s.owner == HANDLER)
    && (s.isSynchronizing <==> s.handler.FlagSet? || s.handler.Window? || s.handler.Reacquired?)
    && (forall id: ThreadId :: Pc(s, id).WPassed? ==> !s.isSynchronizing)
    && (!s.handler.Outside? ==> s.guarded == s.expected)
  }

  lemma StepKeepsInv(s: State, a: Action)
    requires Inv(s)
    ensures Inv(Step(s, a))
  {
  }

  lemma {:induction false} RunKeepsInv(actions: seq<Action>)
    ensures Inv(Run(actions))
  {
    if actions != [] {
      RunKeepsInv(actions[..|actions| - 1]);
      StepKeepsInv(Run(actions[..|actions| - 1]), actions[|actions| - 1]);
    }
  }

  /** One step of anybody, other than leaving, inside the region. */
  lemma StepInRegion(s: State, a: Action)
    requires Inv(s) && !s.handler.Outside? && !a.Leave?
    ensures var t := Step(s, a);
      && !t.handler.Outside?
      && t.guarded.setting == s.guarded.setting && t.guarded.show == s.guarded.show
      && (!a.OwnLockChange? ==> t.guarded == s.guarded)
  {
  }

  /** From any point inside a key event, over any steps during which the handler does not
      leave it, the setting and the show state stay, and only the handler changes locks. */
  lemma {:induction false} RegionIsStable(actions: seq<Action>, more: seq<Action>)
    requires !Run(actions).handler.Outside? && forall i :: 0 <= i < |more| ==> !more[i].Leave?
    ensures var s, t := Run(actions), Run(actions + more);
      && !t.handler.Outside?
      && t.guarded.setting == s.guarded.setting && t.guarded.show == s.guarded.show
      && ((forall i :: 0 <= i < |more| ==> !more[i].OwnLockChange?) ==> t.guarded == s.guarded)
  {
    if more == [] {
      assert actions + more == actions;
    } else {
      var init, a := more[..|more| - 1], more[|more| - 1];
      RegionIsStable(actions, init);
      assert (actions + more)[..|actions + more| - 1] == actions + init;
      RunKeepsInv(actions + init);
      StepInRegion(Run(actions + init), a);
    }
  }

  /** The handler itself can change the locks inside the region. */
  lemma OwnChangeIsMade(s: State, v: nat)
    requires Inv(s) && s.handler.Inside?
    ensures Step(s, OwnLockChange(v)).guarded == s.guarded.(locks := v)
  {
  }

  /** Writers are not shut out: outside the region a request goes through. */
  lemma WriterSucceedsOutside(s: State, id: ThreadId, w: Write)
    requires Inv(s) && s.handler.Outside? && s.owner.FREE? && Pc(s, id) == WWant(w)
    ensures var g := Step(Step(Step(s, WriterAcquire(id)), Check(id)), Apply(id)).guarded;
      && g.setting == (if w.SetSetting? then w.setting else s.guarded.setting)
      && g.locks == (if w.SetLockState? then w.locks else s.guarded.locks)
      && g.show == (if w.SetShow? then w.show else s.guarded.show)
  {
  }

  /** While the handler sleeps in the middle of an event, a writer gets the lock but
      gives up. */
  lemma WriterBacksOffInWindow(s: State, id: ThreadId, w: Write)
    requires Inv(s) && s.handler.Window? && s.owner.FREE? && Pc(s, id) == WWant(w)
    ensures var t := Step(Step(s, WriterAcquire(id)), Check(id)); Pc(t, id).WLeaving? && t.guarded == s.guarded
  {
  }
}
