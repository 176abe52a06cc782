/** `Key` and the hashed `Keyboard` of keyboard.h and keyboard.cpp. */
module Keyboards {
  import opened Words
  import opened Modifiers

  datatype Flag = BREAK | E0 | E1 | SET_LED

  datatype ScanCode = ScanCode(scan: uint16, flags: set<Flag>) {
    /** The part of a scan code that `operator==` compares. */
    function Code(): (uint16, set<Flag>) {
      (scan, flags * {E0, E1})
    }
  }

  /** Both or neither have the E0, and both or neither the E1 prefix. */
  predicate SameExtension(f: set<Flag>, g: set<Flag>) {
    (E0 in f <==> E0 in g) && (E1 in f <==> E1 in g)
  }

  lemma SameCode(a: ScanCode, b: ScanCode)
    ensures a.Code() == b.Code() <==> a.scan == b.scan && SameExtension(a.flags, b.flags)
  {
    if SameExtension(a.flags, b.flags) {
      assert a.flags * {E0, E1} == b.flags * {E0, E1};
    } else {
      assert E0 in a.flags * {E0, E1} <==> E0 in a.flags;
      assert E1 in a.flags * {E0, E1} <==> E1 in a.flags;
    }
  }

  const HASHED_KEYS_SIZE: nat := 128

  class Key {
    const scanCodes: seq<ScanCode>
    var isPressed: bool
    var isPressedOnWin32: bool
    var isPressedByAssign: bool

    constructor (scanCodes: seq<ScanCode>)
      ensures this.scanCodes == scanCodes
      ensures !isPressed && !isPressedOnWin32 && !isPressedByAssign
    {
      this.scanCodes := scanCodes;
      isPressed, isPressedOnWin32, isPressedByAssign := false, false, false;
    }

    predicate SameScanCode(k: Key) {
      && |scanCodes| == |k.scanCodes|
      && forall i :: 0 <= i < |scanCodes| ==> scanCodes[i].Code() == k.scanCodes[i].Code()
    }

    function Hash(): nat
      requires scanCodes != []
    {
      scanCodes[0].scan % HASHED_KEYS_SIZE
    }

    method IsSameScanCode(k: Key) returns (same: bool)
      ensures same == SameScanCode(k)
      ensures same <==> |scanCodes| == |k.scanCodes| && forall i :: 0 <= i < |scanCodes| ==>
        scanCodes[i].scan == k.scanCodes[i].scan && SameExtension(scanCodes[i].flags, k.scanCodes[i].flags)
    {
      forall i | 0 <= i < |scanCodes| && i < |k.scanCodes| {
        SameCode(scanCodes[i], k.scanCodes[i]);
      }
      if |scanCodes| != |k.scanCodes| {
        return false;
      }
      for i := 0 to |k.scanCodes|
        invariant forall j :: 0 <= j < i ==> scanCodes[j].Code() == k.scanCodes[j].Code()
      {
        if scanCodes[i].Code() != k.scanCodes[i].Code() {
          return false;
        }
      }
      return true;
    }
  }

  function Flatten(buckets: seq<seq<Key>>): seq<Key> {
    if buckets == [] then [] else buckets[0] + Flatten(buckets[1..])
  }

  /** Where a linear search for a key with the probe's scan codes stops. */
  function FirstSame(keys: seq<Key>, probe: Key): (i: nat)
    ensures i <= |keys| && (i < |keys| ==> keys[i].SameScanCode(probe))
    ensures forall j :: 0 <= j < i ==> !keys[j].SameScanCode(probe)
  {
    if keys == [] || keys[0].SameScanCode(probe) then 0 else 1 + FirstSame(keys[1..], probe)
  }

  /** The key that search finds, or null. */
  function LinearSearch(keys: seq<Key>, probe: Key): Key? {
    var i := FirstSame(keys, probe);
    if i < |keys| then keys[i] else null
  }

  /** The keys of one bucket, in the order they have in a longer list. */
  function Bucket(keys: seq<Key>, b: nat): (r: seq<Key>)
    requires forall k :: k in keys ==> k.scanCodes != []
  {
    if keys == [] then []
    else if keys[0].Hash() == b then [keys[0]] + Bucket(keys[1..], b)
    else Bucket(keys[1..], b)
  }

  lemma {:induction false} BucketSearch(keys: seq<Key>, probe: Key)
    requires probe.scanCodes != [] && forall k :: k in keys ==> k.scanCodes != []
    ensures LinearSearch(Bucket(keys, probe.Hash()), probe) == LinearSearch(keys, probe)
  {
    if keys != [] {
      assert keys[0].SameScanCode(probe) ==> keys[0].scanCodes[0].Code() == probe.scanCodes[0].Code();
      BucketSearch(keys[1..], probe);
      var rest := Bucket(keys[1..], probe.Hash());
      if keys[0].Hash() == probe.Hash() {
        assert ([keys[0]] + rest)[1..] == rest;
      }
    }
  }

  class Keyboard {
    var hashedKeys: seq<seq<Key>>
    ghost var newestFirst: seq<Key>   // every key added so far

    ghost predicate Valid()
      reads this
    {
      && |hashedKeys| == HASHED_KEYS_SIZE
      && (forall k :: k in newestFirst ==> k.scanCodes != [])
      && (forall b :: 0 <= b < HASHED_KEYS_SIZE ==> hashedKeys[b] == Bucket(newestFirst, b))
    }

    constructor ()
      ensures Valid() && newestFirst == []
    {
      hashedKeys := seq(HASHED_KEYS_SIZE, _ => []);
      newestFirst := [];
    }

    method AddKey(k: Key)
      requires Valid() && k.scanCodes != []
      modifies this
      ensures Valid() && newestFirst == [k] + old(newestFirst)
    {
      var h := k.Hash();
      hashedKeys := hashedKeys[h := [k] + hashedKeys[h]];
      newestFirst := [k] + newestFirst;
      assert newestFirst[1..] == old(newestFirst);
    }

    /** `searchKey(const Key &)`: only one bucket is looked at, yet the answer is
        that of a linear search over all keys, newest first. */
    method SearchKey(probe: Key) returns (r: Key?)
      requires Valid() && probe.scanCodes != []
      ensures r == LinearSearch(newestFirst, probe)
    {
      var keys := hashedKeys[probe.Hash()];
      BucketSearch(newestFirst, probe);
      for i := 0 to |keys|
        invariant LinearSearch(keys, probe) == LinearSearch(keys[i..], probe)
      {
        var same := keys[i].IsSameScanCode(probe);
        if same {
          return keys[i];
        }
        assert keys[i..][1..] == keys[i + 1..];
      }
      return null;
    }
  }

  /** `Keyboard::KeyIterator`: a suffix of the bucket array and a position in the
      first of its buckets. */
  class KeyIterator {
    var span: seq<seq<Key>>
    var i: nat

    ghost predicate Valid()
      reads this
    {
      span != [] ==> i < |span[0]|
    }

    /** The keys still to be visited. */
    ghost function Remaining(): seq<Key>
      reads this
      requires Valid()
    {
      if span == [] then [] else span[0][i..] + Flatten(span[1..])
    }

    constructor (hashedKeys: seq<seq<Key>>)
      ensures Valid() && Remaining() == Flatten(hashedKeys)
    {
      span := hashedKeys;
      i := 0;
      new;
      if span != [] && span[0] == [] {
        var index := 1;
        while index < |span| && span[index] == []
          invariant 1 <= index <= |span| && Flatten(span) == Flatten(span[index..])
        {
          assert span[index..][1..] == span[index + 1..];
          index := index + 1;
        }
        if index < |span| {
          span := span[index..];
        } else {
          span := [];
        }
      }
    }

    method Next()
      requires Valid()
      modifies this
      ensures Valid()
      ensures Remaining() == if old(Remaining()) == [] then [] else old(Remaining())[1..]
    {
      if span == [] {
        return;
      }
      i := i + 1;
      if i == |span[0]| {
        span := span[1..];
        while span != [] && span[0] == []
          invariant Flatten(span) == Flatten(old(span)[1..])
        {
          span := span[1..];
        }
        i := 0;
      }
    }

    method Current() returns (k: Key?)
      requires Valid()
      ensures k == if Remaining() == [] then null else Remaining()[0]
    {
      if span == [] {
        return null;
      }
      return span[0][i];
    }
  }

  lemma {:induction false} FlattenMultiset(buckets: seq<seq<Key>>, b: nat, more: seq<Key>)
    requires b < |buckets|
    ensures multiset(Flatten(buckets[b := more + buckets[b]])) == multiset(more) + multiset(Flatten(buckets))
  {
    var changed := buckets[b := more + buckets[b]];
    if b == 0 {
      assert changed[1..] == buckets[1..];
      assert Flatten(changed) == more + Flatten(buckets);
    } else {
      assert changed[1..] == buckets[1..][b - 1 := more + buckets[1..][b - 1]];
      FlattenMultiset(buckets[1..], b - 1, more);
    }
  }

  function Buckets(keys: seq<Key>): (r: seq<seq<Key>>)
    requires forall k :: k in keys ==> k.scanCodes != []
  {
    seq(HASHED_KEYS_SIZE, b requires 0 <= b => Bucket(keys, b))
  }

  lemma {:induction false} EmptyFlatten(buckets: seq<seq<Key>>)
    requires forall b :: 0 <= b < |buckets| ==> buckets[b] == []
    ensures Flatten(buckets) == []
  {
    if buckets != [] {
      EmptyFlatten(buckets[1..]);
    }
  }

  /** The iterator walks over every key that was added, each as often as it was added. */
  lemma {:induction false} BucketsHoldAllKeys(keys: seq<Key>)
    requires forall k :: k in keys ==> k.scanCodes != []
    ensures multiset(Flatten(Buckets(keys))) == multiset(keys)
  {
    if keys == [] {
      EmptyFlatten(Buckets(keys));
    } else {
      var h := keys[0].Hash();
      BucketsHoldAllKeys(keys[1..]);
      FlattenMultiset(Buckets(keys[1..]), h, [keys[0]]);
      assert Buckets(keys) == Buckets(keys[1..])[h := [keys[0]] + Buckets(keys[1..])[h]];
      assert keys == [keys[0]] + keys[1..];
    }
  }

  /** So the iterator over a keyboard visits each added key, each exactly once. */
  lemma IteratorVisitsAll(keyboard: Keyboard)
    requires keyboard.Valid()
    ensures multiset(Flatten(keyboard.hashedKeys)) == multiset(keyboard.newestFirst)
  {
    assert keyboard.hashedKeys == Buckets(keyboard.newestFirst);
    BucketsHoldAllKeys(keyboard.newestFirst);
  }

  datatype ModifiedKey = ModifiedKey(modifier: Modifier, key: Key?, virtualMods: set<uint8>)

  datatype Substitute = Substitute(from: ModifiedKey, to: ModifiedKey)

  /** An action of a key sequence; functions are known by a number only. */
  datatype Action =
    | KeyAction(mkey: ModifiedKey)
    | SeqAction(keySeq: seq<Action>)
    | FunctionAction(functionId: nat, modifier: Modifier)

  /** A key assignment of a keymap; the key sequence may be missing. */
  datatype KeyAssignment = KeyAssignment(from: ModifiedKey, keySeq: Option<seq<Action>>)
}
