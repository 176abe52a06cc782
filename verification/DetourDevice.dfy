/** The detour device of driver/mayud.c: reads that wait for keys, and the places that
    put keys into its queue.  Every method is one section under the detour lock. */
module Detour {
  import opened Words
  import opened KeyQueue

  /** sizeof(KEYBOARD_INPUT_DATA) */
  const KEY_SIZE: nat := 12

  datatype Status = SUCCESS | PENDING | CANCELLED | BUFFER_TOO_SMALL | INVALID_PARAMETER | INTERNAL_ERROR

  /** A read request: length in bytes, and what it was completed with. */
  class Irp {
    const systemBuffer: array<KeyData>
    var length: nat
    var status: Status
    var information: nat
    var completed: bool

    constructor (length: nat)
      ensures this.length == length && !completed && fresh(systemBuffer) && HasRoom()
    {
      systemBuffer := new KeyData[length / KEY_SIZE](_ => KeyData(0, 0));
      this.length := length;
      status, information, completed := PENDING, 0, false;
    }

    /** Completed with these keys. */
    predicate Holds(keys: seq<KeyData>)
      reads this, systemBuffer
    {
      && status == SUCCESS && information == |keys| * KEY_SIZE && |keys| <= systemBuffer.Length
      && forall i :: 0 <= i < |keys| ==> systemBuffer[i] == keys[i]
    }

    predicate IsCancelled()
      reads this
    {
      completed && status == CANCELLED && information == 0
    }

    method Cancel()
      modifies this
      ensures IsCancelled() && length == old(length)
    {
      status, information, completed := CANCELLED, 0, true;
    }

    predicate HasRoom()
      reads this
    {
      length / KEY_SIZE <= systemBuffer.Length
    }
  }

  // ---- The device as a transition system ----

  /** pending is the room, in keys, of the waiting read; batches are the keys delivered
      to the completed reads since the last open. */
  datatype DState = DState(opens: int, wasCleanupInitiated: bool, pending: Option<nat>,
                           queue: seq<KeyData>, accepted: seq<KeyData>, batches: seq<seq<KeyData>>)

  datatype Op =
    | Read(length: nat)
    | FilterReadCompletion(success: bool, keys: seq<KeyData>)
    | ForceKeyboardInput(length: nat, keys: seq<KeyData>)
    | Create
    | Close
    | Cleanup
    | ReadCancel

  function Enqueued(capacity: nat, s: DState, keys: seq<KeyData>): DState
    requires |s.queue| <= capacity
  {
    var fit := keys[..Min(|keys|, capacity - |s.queue|)];
    s.(queue := s.queue + fit, accepted := s.accepted + fit)
  }

  /** What a read with the given room gets: the oldest keys, as many as fit. */
  function Batch(queue: seq<KeyData>, room: nat): seq<KeyData> {
    queue[..Min(room, |queue|)]
  }

  /** What is left for later reads. */
  function Left(queue: seq<KeyData>, room: nat): seq<KeyData> {
    queue[Min(room, |queue|)..]
  }

  /** `readq` on a read with the given room, when the queue is not empty. */
  function Delivered(s: DState, room: nat): DState {
    s.(queue := Left(s.queue, room), batches := s.batches + [Batch(s.queue, room)])
  }

  /** A waiting read is completed as soon as there are keys. */
  function ServePending(s: DState): DState {
    if s.pending.Some? && s.queue != [] then Delivered(s, s.pending.value).(pending := None) else s
  }

  function Step(capacity: nat, s: DState, op: Op): (r: DState)
    requires |s.queue| <= capacity
    ensures |r.queue| <= capacity
  {
    match op
    case Read(length) =>
      if length == 0 || length % KEY_SIZE != 0 then s
      else if s.queue != [] then Delivered(s, length / KEY_SIZE)
      else s.(pending := Some(length / KEY_SIZE))
    case FilterReadCompletion(success, keys) =>
      if s.opens != 0 && !s.wasCleanupInitiated then
        ServePending(if success then Enqueued(capacity, s, keys) else s)
      else s
    case ForceKeyboardInput(length, keys) =>
      if length % KEY_SIZE != 0 then s else ServePending(Enqueued(capacity, s, keys))
    case Create =>
      if s.opens + 1 > 1 then s
      else s.(opens := s.opens + 1, wasCleanupInitiated := false, queue := [], accepted := [], batches := [])
    case Close => s.(opens := s.opens - 1)
    case Cleanup => s.(wasCleanupInitiated := true, pending := None)
    case ReadCancel => s.(pending := None)
  }

  function Flat(batches: seq<seq<KeyData>>): seq<KeyData> {
    if batches == [] then [] else Flat(batches[..|batches| - 1]) + batches[|batches| - 1]
  }

  /** A read waits only for an empty queue; every completed read got a key; the keys
      delivered, then those in the queue, are those accepted since the last open. */
  ghost predicate Inv(s: DState) {
    && (s.pending.Some? ==> s.queue == [] && s.pending.value > 0)
    && (forall b :: b in s.batches ==> b != [])
    && s.accepted == Flat(s.batches) + s.queue
  }

  const INITIAL := DState(0, false, None, [], [], [])

  function Run(capacity: nat, ops: seq<Op>): (r: DState)
    ensures |r.queue| <= capacity
  {
    if ops == [] then INITIAL else Step(capacity, Run(capacity, ops[..|ops| - 1]), ops[|ops| - 1])
  }

  lemma DeliveredKeeps(s: DState, room: nat)
    requires room > 0 && s.queue != [] && s.accepted == Flat(s.batches) + s.queue
    requires forall b :: b in s.batches ==> b != []
    ensures var r := Delivered(s, room);
      r.accepted == Flat(r.batches) + r.queue && forall b :: b in r.batches ==> b != []
  {
    var n := Min(room, |s.queue|);
    assert Delivered(s, room).batches[..|s.batches|] == s.batches;
    assert s.queue == s.queue[..n] + s.queue[n..];
  }

  lemma StepKeepsInv(capacity: nat, s: DState, op: Op)
    requires |s.queue| <= capacity && Inv(s) && capacity > 0
    ensures Inv(Step(capacity, s, op))
  {
    match op {
      case Read(length) =>
        if length != 0 && length % KEY_SIZE == 0 && s.queue != [] {
          DeliveredKeeps(s, length / KEY_SIZE);
        }
      case FilterReadCompletion(success, keys) =>
        var e := if success then Enqueued(capacity, s, keys) else s;
        assert e.accepted == Flat(e.batches) + e.queue;
        if s.pending.Some? && e.queue != [] {
          DeliveredKeeps(e, s.pending.value);
        }
      case ForceKeyboardInput(_, keys) =>
        var e := Enqueued(capacity, s, keys);
        assert e.accepted == Flat(e.batches) + e.queue;
        if s.pending.Some? && e.queue != [] {
          DeliveredKeeps(e, s.pending.value);
        }
      case _ =>
    }
  }

  /** In every run of driver steps the invariant holds. */
  lemma {:induction false} RunKeepsInv(capacity: nat, ops: seq<Op>)
    requires capacity > 0
    ensures Inv(Run(capacity, ops))
  {
    if ops != [] {
      RunKeepsInv(capacity, ops[..|ops| - 1]);
      StepKeepsInv(capacity, Run(capacity, ops[..|ops| - 1]), ops[|ops| - 1]);
    }
  }

  // ---- The driver code ----

  class DetourDevice {
    var isOpen: int
    var wasCleanupInitiated: bool
    var irpq: Irp?
    const readQue: KeyQue
    ghost var batches: seq<seq<KeyData>>

    ghost function State(): DState
      reads this, irpq, readQue, readQue.que
      requires readQue.Placed()
    {
      DState(isOpen, wasCleanupInitiated, if irpq == null then None else Some(irpq.length / KEY_SIZE),
             readQue.Contents(), readQue.accepted, batches)
    }

    /** Buffers of reads are not the queue's own memory. */
    predicate Usable(irp: Irp)
      reads irp, readQue
    {
      irp.HasRoom() && irp.systemBuffer != readQue.que
    }

    ghost predicate Valid()
      reads this, irpq, readQue, readQue.que
    {
      && readQue.Valid() && Inv(State())
      && readQue.dequeued == Flat(batches)
      && (irpq != null ==> Usable(irpq) && !irpq.completed)
    }

    constructor (capacity: nat)
      requires capacity > 0
      ensures Valid() && State() == INITIAL && readQue.que.Length == capacity && fresh(readQue) && fresh(readQue.que)
    {
      readQue := new KeyQue(capacity);
      isOpen, wasCleanupInitiated, irpq, batches := 0, false, null, [];
    }

    /** The keys for one read; remembered as a batch. */
    method TakeKeys(irp: Irp, room: nat) returns (len: nat)
      requires readQue.Valid() && readQue.dequeued == Flat(batches)
      requires room <= irp.systemBuffer.Length && irp.systemBuffer != readQue.que
      modifies readQue, irp.systemBuffer, this`batches
      ensures readQue.Valid() && readQue.dequeued == Flat(batches) && readQue.accepted == old(readQue.accepted)
      ensures len == Min(room, old(readQue.count))
      ensures forall i :: 0 <= i < len ==> irp.systemBuffer[i] == Batch(old(readQue.Contents()), room)[i]
      ensures batches == old(batches) + [Batch(old(readQue.Contents()), room)]
      ensures readQue.Contents() == old(readQue.Contents())[len..]
    {
      len := readQue.Deque(irp.systemBuffer, room);
      ghost var got := irp.systemBuffer[..len];
      batches := batches + [got];
      assert forall i :: 0 <= i < len ==> irp.systemBuffer[i] == got[i];
      assert batches[..|batches| - 1] == old(batches);
    }

    /** `readq`; the caller completes the read when it succeeded. */
    method Readq(irp: Irp) returns (status: Status)
      requires readQue.Valid() && readQue.dequeued == Flat(batches) && Usable(irp)
      modifies readQue, irp, irp.systemBuffer, this`batches
      ensures readQue.Valid() && readQue.dequeued == Flat(batches) && readQue.accepted == old(readQue.accepted)
      ensures irp.completed == old(irp.completed) && irp.status == status
      ensures status == if old(readQue.Contents()) == [] then PENDING else SUCCESS
      ensures status == PENDING ==> irp.length == old(irp.length) && irp.information == 0
      ensures status == PENDING ==> batches == old(batches) && readQue.Contents() == []
      ensures status == SUCCESS ==>
        var room := old(irp.length) / KEY_SIZE;
        && irp.Holds(Batch(old(readQue.Contents()), room))
        && batches == old(batches) + [Batch(old(readQue.Contents()), room)]
        && readQue.Contents() == Left(old(readQue.Contents()), room)
    {
      if !readQue.IsEmpty() {
        var room := irp.length / KEY_SIZE;
        var len := TakeKeys(irp, room);
        irp.status := SUCCESS;
        irp.information := len * KEY_SIZE;
        irp.length := irp.information;
        return SUCCESS;
      } else {
        irp.status := PENDING;
        irp.information := 0;
        return PENDING;
      }
    }

    /** `detourRead` on a new read request. */
    method Read(irp: Irp) returns (status: Status)
      requires Valid() && Usable(irp) && !irp.completed && irp != irpq
      modifies this, readQue, irp, irp.systemBuffer
      ensures Valid() && State() == Step(readQue.que.Length, old(State()), Op.Read(old(irp.length)))
      ensures status == if old(irp.length) == 0 then SUCCESS
                        else if old(irp.length) % KEY_SIZE != 0 then BUFFER_TOO_SMALL
                        else if old(readQue.Contents()) == [] then PENDING
                        else SUCCESS
      ensures irp.completed <==> status != PENDING
      ensures status == SUCCESS && old(irp.length) != 0 ==>
        irp.Holds(Batch(old(readQue.Contents()), old(irp.length) / KEY_SIZE))
    {
      StepKeepsInv(readQue.que.Length, State(), Op.Read(irp.length));
      if irp.length == 0 {
        status := SUCCESS;
      } else if irp.length % KEY_SIZE != 0 {
        status := BUFFER_TOO_SMALL;
      } else {
        status := Readq(irp);
      }
      if status == PENDING {
        irpq := irp;
      } else {
        irp.completed := true;
      }
    }

    /** A read that waited with this room has the oldest of these keys, or waits on. */
    ghost predicate Served(irp: Irp?, room: Option<nat>, queue: seq<KeyData>)
      reads this, irp, if irp == null then null else irp.systemBuffer
    {
      irp != null && room.Some? && irpq == null ==> irp.completed && irp.Holds(Batch(queue, room.value))
    }

    /** The waiting read has its keys and waits no longer. */
    method CompleteWaiting(irp: Irp)
      requires readQue.Valid()
      modifies this`irpq, irp`completed
      ensures readQue.Valid() && irpq == null && irp.completed
      ensures State() == old(State()).(pending := None)
    {
      irp.completed := true;
      irpq := null;
    }

    /** The waiting read, completed if there are keys. */
    method ServeRead(irp: Irp)
      requires irp == irpq && Usable(irp)
      requires readQue.Valid() && readQue.dequeued == Flat(batches)
      modifies this`irpq, this`batches, readQue, irp, irp.systemBuffer
      ensures readQue.Valid() && readQue.dequeued == Flat(batches)
      ensures State() == ServePending(old(State()))
      ensures irpq == null || (irpq == irp && irp.completed == old(irp.completed) && Usable(irp))
      ensures irpq == null ==>
        irp.completed && irp.Holds(Batch(old(readQue.Contents()), old(irp.length) / KEY_SIZE))
    {
      var status := Readq(irp);
      if status == SUCCESS {
        CompleteWaiting(irp);
      }
    }

    /** Serves the waiting read once there are keys. */
    method ServeWaiting()
      requires readQue.Valid() && readQue.dequeued == Flat(batches)
      requires irpq != null ==> Usable(irpq)
      modifies this`irpq, this`batches, readQue, irpq, if irpq == null then null else irpq.systemBuffer
      ensures readQue.Valid() && readQue.dequeued == Flat(batches)
      ensures State() == ServePending(old(State()))
      ensures irpq == null || (irpq == old(irpq) && irpq.completed == old(irpq.completed) && Usable(irpq))
      ensures Served(old(irpq), old(State()).pending, old(readQue.Contents()))
    {
      if irpq != null {
        ServeRead(irpq);
      }
    }

    /** Puts keys into the queue. */
    method Accept(buf: array<KeyData>, n: nat)
      requires Valid() && buf != readQue.que && n <= buf.Length
      modifies readQue, readQue.que
      ensures readQue.Valid() && readQue.dequeued == Flat(batches)
      ensures State() == Enqueued(readQue.que.Length, old(State()), old(buf[..n]))
    {
      var fit := readQue.Enque(buf, n);
      assert buf[..n][..fit] == buf[..fit];
    }

    /** Keys come in and go on to a waiting read. */
    method AcceptAndServe(buf: array<KeyData>, n: nat)
      requires Valid() && buf != readQue.que && n <= buf.Length
      modifies this, readQue, readQue.que, irpq, if irpq == null then null else irpq.systemBuffer
      ensures Valid()
      ensures var e := Enqueued(readQue.que.Length, old(State()), old(buf[..n]));
        State() == ServePending(e) && Served(old(irpq), e.pending, e.queue)
      ensures readQue.accepted != old(readQue.accepted) ==> irpq == null && (old(irpq) != null ==> old(irpq).completed)
      ensures readQue.accepted == old(readQue.accepted) ==> irpq == old(irpq)
    {
      StepKeepsInv(readQue.que.Length, State(), Op.ForceKeyboardInput(0, buf[..n]));
      Accept(buf, n);
      ServeWaiting();
    }

    /** The detour part of `filterReadCompletion`. */
    method FilterReadCompletion(success: bool, buf: array<KeyData>, n: nat)
      requires Valid() && buf != readQue.que && n <= buf.Length
      modifies this, readQue, readQue.que, irpq, if irpq == null then null else irpq.systemBuffer
      ensures Valid()
      ensures State() == Step(readQue.que.Length, old(State()), Op.FilterReadCompletion(success, old(buf[..n])))
      ensures old(isOpen) == 0 || old(wasCleanupInitiated) || !success ==> readQue.accepted == old(readQue.accepted)
      ensures old(isOpen) != 0 && !old(wasCleanupInitiated) && success ==>
        var room := readQue.que.Length - |old(readQue.Contents())|;
        readQue.accepted == old(readQue.accepted) + old(buf[..n])[..Min(n, room)]
      ensures readQue.accepted != old(readQue.accepted) ==> irpq == null && (old(irpq) != null ==> old(irpq).completed)
      ensures readQue.accepted == old(readQue.accepted) ==> irpq == old(irpq)
      ensures var s := old(State());
        Served(old(irpq), s.pending, if success then Enqueued(readQue.que.Length, s, old(buf[..n])).queue else s.queue)
    {
      StepKeepsInv(readQue.que.Length, State(), Op.FilterReadCompletion(success, buf[..n]));
      if isOpen != 0 && !wasCleanupInitiated {
        if success {
          AcceptAndServe(buf, n);
        } else {
          ServeWaiting();
        }
      }
    }

    /** IOCTL_MAYU_FORCE_KEYBOARD_INPUT */
    method ForceKeyboardInput(inputBufferLength: nat, buf: array<KeyData>) returns (status: Status)
      requires Valid() && buf != readQue.que && inputBufferLength / KEY_SIZE <= buf.Length
      modifies this, readQue, readQue.que, irpq, if irpq == null then null else irpq.systemBuffer
      ensures Valid() && (status == SUCCESS <==> inputBufferLength % KEY_SIZE == 0)
      ensures State() == Step(readQue.que.Length, old(State()),
                              Op.ForceKeyboardInput(inputBufferLength, old(buf[..inputBufferLength / KEY_SIZE])))
      ensures readQue.accepted != old(readQue.accepted) ==> irpq == null && (old(irpq) != null ==> old(irpq).completed)
      ensures readQue.accepted == old(readQue.accepted) ==> irpq == old(irpq)
      ensures var e := Enqueued(readQue.que.Length, old(State()), old(buf[..inputBufferLength / KEY_SIZE]));
        Served(old(irpq), e.pending, e.queue)
    {
      if inputBufferLength % KEY_SIZE != 0 {
        return INVALID_PARAMETER;
      }
      AcceptAndServe(buf, inputBufferLength / KEY_SIZE);
      return SUCCESS;
    }

    /** `detourCreate`: only one open at a time; the queue starts empty. */
    method Create() returns (status: Status)
      requires Valid()
      modifies this, readQue
      ensures Valid() && State() == Step(readQue.que.Length, old(State()), Op.Create)
      ensures status == SUCCESS <==> old(isOpen) <= 0
      ensures status == SUCCESS ==> isOpen == old(isOpen) + 1 && !wasCleanupInitiated && readQue.Contents() == []
      ensures status != SUCCESS ==> isOpen == old(isOpen) && readQue.Contents() == old(readQue.Contents())
    {
      isOpen := isOpen + 1;
      if 1 < isOpen {
        isOpen := isOpen - 1;
        return INTERNAL_ERROR;
      }
      wasCleanupInitiated := false;
      readQue.Clear();
      batches := [];
      return SUCCESS;
    }

    method Close()
      requires Valid()
      modifies this
      ensures Valid() && State() == Step(readQue.que.Length, old(State()), Op.Close)
      ensures isOpen == old(isOpen) - 1
    {
      isOpen := isOpen - 1;
    }

    /** `detourCleanup`: no read waits any more.  The current request and those in the
        device's own queue are cancelled; the waiting read is just forgotten. */
    method Cleanup(requests: seq<Irp>)
      requires Valid()
      modifies this, requests
      ensures Valid() && State() == Step(readQue.que.Length, old(State()), Op.Cleanup)
      ensures wasCleanupInitiated && irpq == null
      ensures forall irp :: irp in requests ==> irp.IsCancelled()
    {
      wasCleanupInitiated := true;
      irpq := null;
      for i := 0 to |requests|
        invariant Valid() && State() == Step(readQue.que.Length, old(State()), Op.Cleanup)
        invariant forall irp :: irp in requests[..i] ==> irp.IsCancelled()
      {
        requests[i].Cancel();
        assert requests[..i + 1] == requests[..i] + [requests[i]];
      }
      assert requests[..|requests|] == requests;
    }

    /** `mayuDetourReadCancel`: whichever read is cancelled, none waits afterwards. */
    method ReadCancel(irp: Irp)
      requires Valid()
      modifies this, irp
      ensures Valid() && State() == Step(readQue.que.Length, old(State()), Op.ReadCancel)
      ensures irpq == null
      ensures irp.IsCancelled()
    {
      irpq := null;
      irp.Cancel();
    }
  }
}
