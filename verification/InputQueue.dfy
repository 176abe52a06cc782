/** The input queue between the hook threads and the keyboard handler: a mutex, a
    manual-reset event, and every statement between them as a step of its own. */
module InputQueue {
  import opened Words

  type Event = nat

  type ThreadId = nat

  datatype Owner = FREE | HANDLER | PRODUCER(id: ThreadId) | STOPPER

  /** `pushInputEvent` */
  datatype ProducerPc = PIdle | PWant(event: Event) | PLocked(event: Event) | PPushed | PSignalled

  /** The dequeue loop of `keyboardHandler`. */
  datatype HandlerPc =
    | HWant | HLocked | HFoundEmpty | HWaiting | HPopped(event: Event) | HPopChecked(event: Event)
    | HHandling(event: Event) | HFoundGone | HDone

  /** The queue part of `stop`. */
  datatype StopperPc = SWant | SLocked | SDeleted | SSignalled | SDone

  /** queue is None once it was deleted; pushed and handled record the whole run. */
  datatype State = State(
    owner: Owner, queue: Option<seq<Event>>, signalled: bool,
    producers: map<ThreadId, ProducerPc>, handler: HandlerPc, stopper: StopperPc,
    pushed: seq<Event>, handled: seq<Event>)

  datatype Action =
    | Arrive(id: ThreadId, event: Event) | ProducerAcquire(id: ThreadId) | Push(id: ThreadId)
    | ProducerSignal(id: ThreadId) | ProducerRelease(id: ThreadId)
    | HandlerAcquire | Look | ReleaseAndWait | Wake | WaitFails | CheckAfterPop | HandlerRelease | Handle | HandlerExit
    | StopAcquire | DeleteQueue | StopSignal | StopRelease

  const INITIAL := State(FREE, Some([]), false, map[], HWant, SWant, [], [])

  function Pc(s: State, id: ThreadId): ProducerPc {
    if id in s.producers then s.producers[id] else PIdle
  }

  function Producer(s: State, id: ThreadId, pc: ProducerPc): State {
    s.(producers := s.producers[id := pc])
  }

  function ProducerStep(s: State, a: Action): State {
    match a
    case Arrive(id, e) => if Pc(s, id).PIdle? then Producer(s, id, PWant(e)) else s
    case ProducerAcquire(id) =>
      if Pc(s, id).PWant? && s.owner.FREE? then Producer(s, id, PLocked(Pc(s, id).event)).(owner := PRODUCER(id)) else s
    case Push(id) =>
      if !Pc(s, id).PLocked? then s
      else if s.queue.None? then Producer(s, id, PSignalled)
      else
        var e := Pc(s, id).event;
        Producer(s, id, PPushed).(queue := Some(s.queue.value + [e]), pushed := s.pushed + [e])
    case ProducerSignal(id) => if Pc(s, id).PPushed? then Producer(s, id, PSignalled).(signalled := true) else s
    case ProducerRelease(id) => if Pc(s, id).PSignalled? then Producer(s, id, PIdle).(owner := FREE) else s
    case _ => s
  }

  function HandlerStep(s: State, a: Action): State {
    match a
    case HandlerAcquire => if s.handler.HWant? && s.owner.FREE? then s.(owner := HANDLER, handler := HLocked) else s
    case Look =>
      if !s.handler.HLocked? then s
      else if s.queue.None? then s.(handler := HFoundGone)
      else if s.queue.value == [] then s.(signalled := false, handler := HFoundEmpty)
      else s.(queue := Some(s.queue.value[1..]), handler := HPopped(s.queue.value[0]))
    case ReleaseAndWait => if s.handler.HFoundEmpty? then s.(owner := FREE, handler := HWaiting) else s
    case Wake => if s.handler.HWaiting? && s.signalled then s.(handler := HWant) else s
    case WaitFails => if s.handler.HWaiting? then s.(handler := HWant) else s
    case CheckAfterPop =>
      if !s.handler.HPopped? then s
      else s.(signalled := if s.queue == Some([]) then false else s.signalled, handler := HPopChecked(s.handler.event))
    case HandlerRelease =>
      if s.handler.HPopChecked? then s.(owner := FREE, handler := HHandling(s.handler.event)) else s
    case Handle => if s.handler.HHandling? then s.(handled := s.handled + [s.handler.event], handler := HWant) else s
    case HandlerExit => if s.handler.HFoundGone? then s.(owner := FREE, handler := HDone) else s
    case _ => s
  }

  function StopperStep(s: State, a: Action): State {
    match a
    case StopAcquire => if s.stopper.SWant? && s.owner.FREE? then s.(owner := STOPPER, stopper := SLocked) else s
    case DeleteQueue => if s.stopper.SLocked? then s.(queue := None, stopper := SDeleted) else s
    case StopSignal => if s.stopper.SDeleted? then s.(signalled := true, stopper := SSignalled) else s
    case StopRelease => if s.stopper.SSignalled? then s.(owner := FREE, stopper := SDone) else s
    case _ => s
  }

  /** One step of one thread; an action that is not enabled changes nothing. */
  function Step(s: State, a: Action): State {
    if a.Arrive? || a.ProducerAcquire? || a.Push? || a.ProducerSignal? || a.ProducerRelease? then ProducerStep(s, a)
    else if a.StopAcquire? || a.DeleteQueue? || a.StopSignal? || a.StopRelease? then StopperStep(s, a)
    else HandlerStep(s, a)
  }

  function Run(actions: seq<Action>): State {
    if actions == [] then INITIAL else Step(Run(actions[..|actions| - 1]), actions[|actions| - 1])
  }

  // ---- The invariant ----

  predicate ProducerHolds(pc: ProducerPc) {
    pc.PLocked? || pc.PPushed? || pc.PSignalled?
  }

  predicate HandlerHolds(pc: HandlerPc) {
    pc.HLocked? || pc.HFoundEmpty? || pc.HPopped? || pc.HPopChecked? || pc.HFoundGone?
  }

  predicate StopperHolds(pc: StopperPc) {
    pc.SLocked? || pc.SDeleted? || pc.SSignalled?
  }

  /** The mutex is held by whoever is between acquire and release. */
  ghost predicate Exclusive(s: State) {
    && (forall id: ThreadId :: ProducerHolds(Pc(s, id)) <==> s.owner == PRODUCER(id))
    && (HandlerHolds(s.handler) <==> s.owner == HANDLER)
    && (StopperHolds(s.stopper) <==> s.owner == STOPPER)
  }

  /** There is something for the handler to see. */
  predicate HasNews(s: State) {
    s.queue.None? || s.queue.value != []
  }

  /** News without a signal exist only while the thread that made them is about to signal. */
  predicate SignalledOrAboutTo(s: State) {
    HasNews(s) && !s.signalled ==>
      (s.owner.PRODUCER? && Pc(s, s.owner.id).PPushed?) || (s.owner.STOPPER? && s.stopper.SDeleted?)
  }

  /** The popped event that was not handled yet. */
  function InHand(s: State): seq<Event> {
    if s.handler.HPopped? || s.handler.HPopChecked? || s.handler.HHandling? then [s.handler.event] else []
  }

  /** Handled, in hand and queued events are the pushed ones, in order; a deleted queue
      loses only a tail. */
  predicate InOrder(s: State) {
    if s.queue.Some? then s.pushed == s.handled + InHand(s) + s.queue.value
    else s.handled + InHand(s) <= s.pushed
  }

  /** A signal without news is about to be reset, and who is about to signal has news. */
  predicate SignalMeansNews(s: State) {
    && (s.signalled ==> HasNews(s) || s.handler.HPopped?)
    && (s.owner.PRODUCER? && Pc(s, s.owner.id).PPushed? ==> HasNews(s))
  }

  predicate HandlerSees(s: State) {
    && (s.handler.HFoundEmpty? ==> s.queue == Some([]) && !s.signalled)
    && (s.handler.HFoundGone? || s.handler.HDone? ==> s.queue.None?)
    && (s.queue.None? <==> s.stopper.SDeleted? || s.stopper.SSignalled? || s.stopper.SDone?)
  }

  ghost predicate Inv(s: State) {
    Exclusive(s) && SignalledOrAboutTo(s) && SignalMeansNews(s) && InOrder(s) && HandlerSees(s)
  }

  lemma ProducerStepKeepsInv(s: State, a: Action)
    requires Inv(s)
    ensures Inv(ProducerStep(s, a))
  {
  }

  lemma HandlerStepKeepsInv(s: State, a: Action)
    requires Inv(s)
    ensures Inv(HandlerStep(s, a))
  {
  }

  lemma StopperStepKeepsInv(s: State, a: Action)
    requires Inv(s)
    ensures Inv(StopperStep(s, a))
  {
  }

  lemma {:induction false} RunKeepsInv(actions: seq<Action>)
    ensures Inv(Run(actions))
  {
    if actions != [] {
      var s, a := Run(actions[..|actions| - 1]), actions[|actions| - 1];
      RunKeepsInv(actions[..|actions| - 1]);
      ProducerStepKeepsInv(s, a);
      HandlerStepKeepsInv(s, a);
      StopperStepKeepsInv(s, a);
    }
  }

  /** No lost wakeup and none for nothing, in any interleaving: with the mutex free, the
      event is signalled exactly for queued events or a deleted queue; and the handler has
      handled a prefix of the pushed events, each once and in order. */
  lemma NoLostWakeup(actions: seq<Action>)
    ensures var s := Run(actions);
      && (s.owner.FREE? ==> (s.signalled <==> s.queue.None? || s.queue.value != []))
      && s.handled <= s.pushed
      && (s.queue.Some? ==> s.pushed == s.handled + InHand(s) + s.queue.value)
  {
    RunKeepsInv(actions);
  }

  /** A handler that waits for good has handled everything that was pushed. */
  lemma SleepingHandlerMissedNothing(actions: seq<Action>)
    ensures var s := Run(actions);
      s.handler.HWaiting? && !s.signalled && s.owner.FREE? ==> s.queue == Some([]) && s.handled == s.pushed
  {
    RunKeepsInv(actions);
  }

  // ---- What is pushed ----

  /** An arriving event is appended to a live queue, as itself, when its thread gets the
      mutex; a deleted queue takes nothing. */
  lemma ArrivalIsPushed(s: State, id: ThreadId, e: Event)
    requires Inv(s) && s.owner.FREE? && Pc(s, id).PIdle?
    ensures var t := Step(Step(Step(s, Arrive(id, e)), ProducerAcquire(id)), Push(id));
      && (s.queue.Some? ==> t.queue == Some(s.queue.value + [e]) && t.pushed == s.pushed + [e])
      && (s.queue.None? ==> t.queue.None? && t.pushed == s.pushed)
      && t.handled == s.handled
  {
  }

  /** A thread that has event e to push. */
  predicate Brings(s: State, id: ThreadId, e: Event) {
    Pc(s, id) == PWant(e) || Pc(s, id) == PLocked(e)
  }

  /** Whatever runs in between, it keeps its event until it pushes that very event, and
      nothing but a push adds to what was pushed. */
  lemma EventIsKept(s: State, a: Action, id: ThreadId, e: Event)
    requires Inv(s) && Brings(s, id, e)
    ensures var t := Step(s, a);
      || Brings(t, id, e)
      || (a == Push(id) && t.pushed == s.pushed + if s.queue.Some? then [e] else [])
  {
  }

  lemma OnlyPushPushes(s: State, a: Action)
    requires !a.Push?
    ensures Step(s, a).pushed == s.pushed
  {
  }

  // ---- The handler gets on ----

  function RunFrom(s: State, actions: seq<Action>): State
    decreases actions
  {
    if actions == [] then s else RunFrom(Step(s, actions[0]), actions[1..])
  }

  const TAKE_ONE: seq<Action> := [HandlerAcquire, Look, CheckAfterPop, HandlerRelease, Handle]

  /** The handler's own steps up to the end of the next event; waking needs the signal. */
  function NextEventPlan(s: State): seq<Action> {
    if s.handler.HHandling? then [Handle] else if s.handler.HWaiting? then [Wake] + TAKE_ONE else TAKE_ONE
  }

  lemma RunFromFirst(s: State, a: Action, rest: seq<Action>)
    ensures RunFrom(s, [a] + rest) == RunFrom(Step(s, a), rest)
  {
  }

  lemma TakeOne(s: State)
    requires s.handler.HWant? && s.owner.FREE? && s.queue.Some? && s.queue.value != []
    ensures RunFrom(s, TAKE_ONE).handled == s.handled + [s.queue.value[0]]
  {
  }

  /** Out of the lock with events left, and signalled: the next event is finished. */
  lemma NextEvent(s: State)
    requires s.owner.FREE? && s.queue.Some? && InHand(s) + s.queue.value != []
    requires s.handler.HHandling? || s.handler.HWant? || (s.handler.HWaiting? && s.signalled)
    ensures RunFrom(s, NextEventPlan(s)).handled == s.handled + (InHand(s) + s.queue.value)[..1]
  {
    if s.handler.HHandling? {
      RunFromFirst(s, Handle, []);
      assert [Handle] + [] == [Handle];
    } else if s.handler.HWaiting? {
      RunFromFirst(s, Wake, TAKE_ONE);
      TakeOne(Step(s, Wake));
    } else {
      TakeOne(s);
    }
  }

  /** After any interleaving, whenever the mutex is free and an event is in hand or in
      the queue, the handler can finish the next one by its own steps alone. */
  lemma HandlerGetsOn(actions: seq<Action>)
    ensures var s := Run(actions);
      s.owner.FREE? && s.queue.Some? && InHand(s) + s.queue.value != [] ==>
        RunFrom(s, NextEventPlan(s)).handled == s.handled + (InHand(s) + s.queue.value)[..1]
  {
    var s := Run(actions);
    RunKeepsInv(actions);
    if s.owner.FREE? && s.queue.Some? && InHand(s) + s.queue.value != [] {
      NextEvent(s);
    }
  }
}
