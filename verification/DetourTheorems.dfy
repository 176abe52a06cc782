/** What each driver step does to the fields of the device, in every run. */
module DetourTheorems {
  import opened Words
  import opened KeyQueue
  import opened Detour

  /** The oldest keys of a list, as many as there is room for. */
  predicate IsOldest(taken: seq<KeyData>, left: seq<KeyData>, all: seq<KeyData>, room: nat) {
    && taken + left == all
    && (|taken| == room || left == []) && |taken| <= room
  }

  /** The longest prefix of the keys that fits behind the queue. */
  predicate IsAccepted(fit: seq<KeyData>, keys: seq<KeyData>, queued: nat, capacity: nat) {
    fit <= keys && queued + |fit| <= capacity && (fit == keys || queued + |fit| == capacity)
  }

  predicate SameDevice(s: DState, t: DState) {
    t.opens == s.opens && t.wasCleanupInitiated == s.wasCleanupInitiated
  }

  predicate SameKeys(s: DState, t: DState) {
    t.queue == s.queue && t.accepted == s.accepted && t.batches == s.batches && t.pending == s.pending
  }

  /** The accepted keys enter the queue; a waiting read gets the oldest of them, as many
      as it has room for, or waits on when there are none. */
  predicate Forwards(s: DState, t: DState, fit: seq<KeyData>) {
    && SameDevice(s, t) && t.accepted == s.accepted + fit
    && (s.pending.None? || fit == [] ==>
          t.pending == s.pending && t.queue == s.queue + fit && t.batches == s.batches)
    && (s.pending.Some? && fit != [] ==>
          && t.pending.None? && |t.batches| == |s.batches| + 1 && s.batches < t.batches
          && IsOldest(t.batches[|s.batches|], t.queue, fit, s.pending.value))
  }

  lemma EnqueueForwards(capacity: nat, s: DState, keys: seq<KeyData>) returns (fit: seq<KeyData>)
    requires |s.queue| <= capacity && Inv(s)
    ensures IsAccepted(fit, keys, |s.queue|, capacity)
    ensures Forwards(s, ServePending(Enqueued(capacity, s, keys)), fit)
  {
    fit := keys[..Min(|keys|, capacity - |s.queue|)];
    var e := Enqueued(capacity, s, keys);
    if s.pending.Some? && fit != [] {
      var room := s.pending.value;
      assert e.queue == fit;
      assert Batch(fit, room) + fit[Min(room, |fit|)..] == fit;
    }
  }

  /** In every run, keys from the hardware are accepted exactly while the device is open
      and not cleaned up, and then forwarded; otherwise nothing changes. */
  lemma HardwareKeys(capacity: nat, ops: seq<Op>, success: bool, keys: seq<KeyData>) returns (fit: seq<KeyData>)
    requires capacity > 0
    ensures var s, t := Run(capacity, ops), Run(capacity, ops + [Op.FilterReadCompletion(success, keys)]);
      if s.opens != 0 && !s.wasCleanupInitiated && success
      then IsAccepted(fit, keys, |s.queue|, capacity) && Forwards(s, t, fit)
      else SameDevice(s, t) && SameKeys(s, t)
  {
    var s := Run(capacity, ops);
    var op := Op.FilterReadCompletion(success, keys);
    RunKeepsInv(capacity, ops);
    assert (ops + [op])[..|ops|] == ops;
    fit := EnqueueForwards(capacity, s, keys);
  }

  /** Forced input is accepted and forwarded in whatever state, when it is whole keys. */
  lemma ForcedKeys(capacity: nat, ops: seq<Op>, length: nat, keys: seq<KeyData>) returns (fit: seq<KeyData>)
    requires capacity > 0
    ensures var s, t := Run(capacity, ops), Run(capacity, ops + [Op.ForceKeyboardInput(length, keys)]);
      if length % 12 == 0
      then IsAccepted(fit, keys, |s.queue|, capacity) && Forwards(s, t, fit)
      else SameDevice(s, t) && SameKeys(s, t)
  {
    var s := Run(capacity, ops);
    var op := Op.ForceKeyboardInput(length, keys);
    RunKeepsInv(capacity, ops);
    assert (ops + [op])[..|ops|] == ops;
    fit := EnqueueForwards(capacity, s, keys);
  }

  /** A read gets the oldest keys at once, or waits for an empty queue to fill. */
  lemma Reading(capacity: nat, ops: seq<Op>, length: nat)
    requires capacity > 0
    ensures var s, t := Run(capacity, ops), Run(capacity, ops + [Op.Read(length)]);
      && SameDevice(s, t) && t.accepted == s.accepted
      && (length == 0 || length % 12 != 0 ==> SameKeys(s, t))
      && (length != 0 && length % 12 == 0 && s.queue == [] ==>
            t.pending == Some(length / 12) && t.queue == [] && t.batches == s.batches)
      && (length != 0 && length % 12 == 0 && s.queue != [] ==>
            && t.pending == s.pending && |t.batches| == |s.batches| + 1 && s.batches < t.batches
            && IsOldest(t.batches[|s.batches|], t.queue, s.queue, length / 12))
  {
    var s := Run(capacity, ops);
    assert (ops + [Op.Read(length)])[..|ops|] == ops;
    assert Batch(s.queue, length / 12) + s.queue[Min(length / 12, |s.queue|)..] == s.queue;
  }

  /** The first open starts with nothing queued, accepted or delivered; a second open
      changes nothing. */
  lemma Opening(capacity: nat, ops: seq<Op>)
    ensures var s, t := Run(capacity, ops), Run(capacity, ops + [Op.Create]);
      if s.opens <= 0
      then t.opens == s.opens + 1 && !t.wasCleanupInitiated && t.queue == [] && t.accepted == [] && t.batches == []
           && t.pending == s.pending
      else SameDevice(s, t) && SameKeys(s, t)
  {
    assert (ops + [Op.Create])[..|ops|] == ops;
  }

  lemma Closing(capacity: nat, ops: seq<Op>)
    ensures var s, t := Run(capacity, ops), Run(capacity, ops + [Op.Close]);
      t.opens == s.opens - 1 && t.wasCleanupInitiated == s.wasCleanupInitiated && SameKeys(s, t)
  {
    assert (ops + [Op.Close])[..|ops|] == ops;
  }

  /** Cleanup and cancel forget the waiting read; the keys stay. */
  lemma Forgetting(capacity: nat, ops: seq<Op>, op: Op)
    requires op.Cleanup? || op.ReadCancel?
    ensures var s, t := Run(capacity, ops), Run(capacity, ops + [op]);
      && t.pending.None? && t.queue == s.queue && t.accepted == s.accepted && t.batches == s.batches
      && t.opens == s.opens && t.wasCleanupInitiated == (op.Cleanup? || s.wasCleanupInitiated)
  {
    assert (ops + [op])[..|ops|] == ops;
  }
}
