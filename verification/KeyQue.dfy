/** The ring buffer of driver/keyque.c.  Pointers are offsets into `que`; both may
    stand at lengthof_que, one past the end. */
module KeyQueue {
  import opened Words

  /** KEYBOARD_INPUT_DATA as far as the driver looks at it. */
  datatype KeyData = KeyData(makeCode: uint16, flags: uint16)

  function Min(a: nat, b: nat): (m: nat)
    ensures m <= a && m <= b && (m == a || m == b)
  {
    if a < b then a else b
  }

  /** `RtlMoveMemory` between two different buffers. */
  method MoveMemory(dst: array<KeyData>, to: nat, src: array<KeyData>, from: nat, n: nat)
    requires dst != src && to + n <= dst.Length && from + n <= src.Length
    modifies dst
    ensures forall i :: 0 <= i < dst.Length ==> dst[i] == if to <= i < to + n then src[from + (i - to)] else old(dst[i])
  {
    for i := 0 to n
      invariant forall j :: 0 <= j < dst.Length ==>
                  dst[j] == if to <= j < to + i then src[from + (j - to)] else old(dst[j])
    {
      dst[to + i] := src[from + i];
    }
  }

  /** The place of the k-th key of a ring of the given length. */
  function Slot(length: nat, remove: nat, k: nat): nat {
    if remove + k < length then remove + k else if remove + k < 2 * length then remove + k - length else 0
  }

  /** The keys of a ring, oldest first. */
  function Ring(q: seq<KeyData>, remove: nat, count: nat): (r: seq<KeyData>)
    requires count <= |q| && remove <= |q|
    ensures |r| == count
  {
    seq(count, k requires 0 <= k < count => q[Slot(|q|, remove, k)])
  }

  /** The offset n keys further on; it may come to stand one past the end. */
  function Advance(length: nat, offset: nat, n: nat): nat {
    if length < offset + n <= 2 * length then offset + n - length else offset + n
  }

  /** Writing keys behind the contents appends them. */
  lemma RingAppend(q: seq<KeyData>, q': seq<KeyData>, remove: nat, count: nat, insert: nat, xs: seq<KeyData>)
    requires |q'| == |q| && remove <= |q| && insert <= |q| && count + |xs| <= |q|
    requires insert == remove + count || insert + |q| == remove + count
    requires forall j :: 0 <= j < |q| ==>
               q'[j] == if insert <= j < insert + |xs| then xs[j - insert]
                        else if j + |q| < insert + |xs| then xs[j + |q| - insert] else q[j]
    ensures Ring(q', remove, count + |xs|) == Ring(q, remove, count) + xs
  {
  }

  /** Advancing the remove offset drops the oldest keys. */
  lemma RingDrop(q: seq<KeyData>, remove: nat, count: nat, n: nat)
    requires 0 < n <= count <= |q| && remove <= |q|
    ensures Ring(q, Advance(|q|, remove, n), count - n) == Ring(q, remove, count)[n..]
  {
  }

  lemma Regroup(front: seq<KeyData>, back: seq<KeyData>, n: nat)
    requires n <= |back|
    ensures front + back == (front + back[..n]) + back[n..]
  {
  }

  class KeyQue {
    var count: nat
    var insert: nat
    var remove: nat
    const que: array<KeyData>

    /** Everything accepted and everything dequeued since the last clear. */
    ghost var accepted: seq<KeyData>
    ghost var dequeued: seq<KeyData>

    ghost predicate Placed()
      reads this
    {
      && que.Length > 0 && count <= que.Length && insert <= que.Length && remove <= que.Length
      && (insert == remove + count || insert + que.Length == remove + count)
    }

    /** The keys in the queue, oldest first. */
    ghost function Contents(): (s: seq<KeyData>)
      reads this, que
      requires Placed()
    {
      Ring(que[..], remove, count)
    }

    /** What was accepted is what was dequeued followed by the contents. */
    ghost predicate Valid()
      reads this, que
    {
      Placed() && accepted == dequeued + Contents()
    }

    constructor (lengthof: nat)
      requires lengthof > 0
      ensures Valid() && Contents() == [] && accepted == [] && dequeued == []
      ensures fresh(que) && que.Length == lengthof
    {
      que := new KeyData[lengthof](_ => KeyData(0, 0));
      count, insert, remove := 0, 0, 0;
      accepted, dequeued := [], [];
    }

    method Clear()
      requires Placed()
      modifies this
      ensures Valid() && Contents() == [] && accepted == [] && dequeued == []
    {
      count, insert, remove := 0, 0, 0;
      accepted, dequeued := [], [];
    }

    predicate IsEmpty()
      reads this
    {
      count == 0
    }

    /** Copies n keys behind the contents, around the end if need be. */
    method CopyIn(buf: array<KeyData>, n: nat)
      requires Placed() && buf != que && 0 < n <= buf.Length && count + n <= que.Length
      modifies this`insert, que
      ensures insert == Advance(que.Length, old(insert), n)
      ensures Ring(que[..], remove, count + n) == old(Contents()) + buf[..n]
    {
      var rest := que.Length - insert;
      if rest < n {
        var copy := rest;
        if 0 < copy {
          MoveMemory(que, insert, buf, 0, copy);
        }
        copy := n - copy;
        if 0 < copy {
          MoveMemory(que, 0, buf, rest, copy);
        }
        insert := copy;
      } else {
        MoveMemory(que, insert, buf, 0, n);
        insert := insert + n;
      }
      RingAppend(old(que[..]), que[..], remove, count, old(insert), buf[..n]);
    }

    /** Copies the n oldest keys out, around the end if need be. */
    method CopyOut(buf: array<KeyData>, n: nat)
      requires Placed() && buf != que && 0 < n <= buf.Length && n <= count
      modifies this`remove, buf
      ensures remove == Advance(que.Length, old(remove), n)
      ensures buf[..n] == old(Contents())[..n] && buf[n..] == old(buf[n..])
      ensures Ring(que[..], remove, count - n) == old(Contents())[n..]
    {
      RingDrop(que[..], remove, count, n);
      var rest := que.Length - remove;
      if rest < n {
        var copy := rest;
        if 0 < copy {
          MoveMemory(buf, 0, que, remove, copy);
        }
        copy := n - copy;
        if 0 < copy {
          MoveMemory(buf, rest, que, 0, copy);
        }
        remove := copy;
      } else {
        MoveMemory(buf, 0, que, remove, n);
        remove := remove + n;
      }
    }

    /** Appends the longest prefix that fits and returns its length. */
    method Enque(buf: array<KeyData>, lengthofBuf: nat) returns (n: nat)
      requires Valid() && buf != que && lengthofBuf <= buf.Length
      modifies this, que
      ensures Valid() && n == Min(lengthofBuf, que.Length - old(count))
      ensures Contents() == old(Contents()) + buf[..n]
      ensures accepted == old(accepted) + buf[..n] && dequeued == old(dequeued)
    {
      n := lengthofBuf;
      if que.Length - count < n {
        n := que.Length - count;
      }
      if n <= 0 {
        assert buf[..0] == [];
        return;
      }
      CopyIn(buf, n);
      count := count + n;
      accepted := accepted + buf[..n];
    }

    /** Hands out the oldest keys and returns how many. */
    method Deque(buf: array<KeyData>, lengthofBuf: nat) returns (n: nat)
      requires Valid() && buf != que && lengthofBuf <= buf.Length
      modifies this, buf
      ensures Valid() && n == Min(lengthofBuf, old(count))
      ensures buf[..n] == old(Contents())[..n] && buf[n..] == old(buf[n..])
      ensures Contents() == old(Contents())[n..]
      ensures accepted == old(accepted) && dequeued == old(dequeued) + buf[..n]
    {
      n := lengthofBuf;
      if count < n {
        n := count;
      }
      if n <= 0 {
        return;
      }
      Regroup(dequeued, Contents(), n);
      CopyOut(buf, n);
      count := count - n;
      dequeued := dequeued + buf[..n];
    }
  }
}
