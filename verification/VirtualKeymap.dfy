/** The virtual keymap of engine.cpp: entries that require modifier and lock bits, sorted
    by a precomputed 8-bit specificity. */
module VirtualKeymap {
  import opened Words
  import opened ModifierStates

  /** `__builtin_popcount` of one word */
  function PopCount(w: nat): nat {
    if w == 0 then 0 else w % 2 + PopCount(w / 2)
  }

  type Mask = s: seq<uint32> | |s| == 8 witness seq(8, _ => 0)

  /** Bit i of a mask of eight words. */
  predicate Requires(m: Mask, i: nat)
    requires i < 256
  {
    Bit(m[i / 32], i % 32)
  }

  function SumTo(m: Mask, n: nat): nat
    requires n <= 8
  {
    if n == 0 then 0 else SumTo(m, n - 1) + PopCount(m[n - 1])
  }

  lemma SumWraps(a: nat, b: nat)
    ensures (a % 0x100 + b % 0x100) % 0x100 == (a + b) % 0x100
  {
    var rest := a % 0x100 + b % 0x100;
    var whole := a / 0x100 + b / 0x100 + rest / 0x100;
    assert a + b == whole * 0x100 + rest % 0x100;
  }

  /** `popcount_array`: the total is a uint8 and wraps around. */
  method PopcountArray(bits: Mask) returns (total: uint8)
    ensures total == SumTo(bits, 8) % 0x100
  {
    total := 0;
    for i := 0 to 8
      invariant total == SumTo(bits, i) % 0x100
    {
      SumWraps(SumTo(bits, i), PopCount(bits[i]));
      total := (total + PopCount(bits[i]) % 0x100) % 0x100;
    }
  }

  datatype KeymapEntry = KeymapEntry(requiredMods: Mask, requiredLocks: Mask, inputKey: uint16, outputKey: uint16,
                                     specificity: uint8) {
    /** The number of bits that the entry requires. */
    function BitCount(): nat {
      SumTo(requiredMods, 8) + SumTo(requiredLocks, 8)
    }

    predicate WellFormed() {
      specificity == BitCount() % 0x100
    }

    predicate ModsHold(state: Bits, n: nat)
      requires n <= 256
    {
      forall i :: 0 <= i < n && Requires(requiredMods, i) ==> VIRTUAL_OFFSET + i in state
    }

    predicate LocksHold(state: Bits, n: nat)
      requires n <= 256
    {
      forall i :: 0 <= i < n && Requires(requiredLocks, i) ==> LOCK_OFFSET + i in state
    }

    predicate Matches(key: uint16, state: Bits) {
      inputKey == key && ModsHold(state, 256) && LocksHold(state, 256)
    }
  }

  predicate Sorted(entries: seq<KeymapEntry>) {
    forall i, j :: 0 <= i < j < |entries| ==> entries[i].specificity >= entries[j].specificity
  }

  /** How many entries at the front are more specific. */
  function Place(specificity: uint8, entries: seq<KeymapEntry>): (i: nat)
    ensures i <= |entries| && (forall j :: 0 <= j < i ==> entries[j].specificity > specificity)
    ensures i < |entries| ==> entries[i].specificity <= specificity
  {
    if entries == [] || entries[0].specificity <= specificity then 0 else 1 + Place(specificity, entries[1..])
  }

  lemma InsertSorted(e: KeymapEntry, entries: seq<KeymapEntry>, i: nat)
    requires Sorted(entries) && i == Place(e.specificity, entries)
    ensures Sorted(entries[..i] + [e] + entries[i..])
  {
    var r := entries[..i] + [e] + entries[i..];
    forall j, k | 0 <= j < k < |r| ensures r[j].specificity >= r[k].specificity {
      assert r[j] == if j < i then entries[j] else if j == i then e else entries[j - 1];
      assert r[k] == if k < i then entries[k] else if k == i then e else entries[k - 1];
    }
  }

  function Insert(e: KeymapEntry, entries: seq<KeymapEntry>): (r: seq<KeymapEntry>)
    requires Sorted(entries)
    ensures Sorted(r) && multiset(r) == multiset([e]) + multiset(entries)
  {
    var i := Place(e.specificity, entries);
    InsertSorted(e, entries, i);
    assert entries == entries[..i] + entries[i..];
    entries[..i] + [e] + entries[i..]
  }

  /** Stands in for std::sort, whose order among equals is not specified. */
  function SortDescending(entries: seq<KeymapEntry>): (r: seq<KeymapEntry>)
    ensures Sorted(r) && multiset(r) == multiset(entries)
  {
    if entries == [] then []
    else
      assert entries == [entries[0]] + entries[1..];
      Insert(entries[0], SortDescending(entries[1..]))
  }

  function FirstMatching(entries: seq<KeymapEntry>, key: uint16, state: Bits): (i: nat)
    ensures i <= |entries| && (i < |entries| ==> entries[i].Matches(key, state))
    ensures forall j :: 0 <= j < i ==> !entries[j].Matches(key, state)
  {
    if entries == [] || entries[0].Matches(key, state) then 0 else 1 + FirstMatching(entries[1..], key, state)
  }

  class Keymap {
    var entries: seq<KeymapEntry>

    predicate Valid()
      reads this
    {
      forall e :: e in entries ==> e.WellFormed()
    }

    constructor ()
      ensures Valid() && entries == []
    {
      entries := [];
    }

    method AddKeymapEntry(inputKey: uint16, outputKey: uint16, requiredMods: Mask, requiredLocks: Mask)
      requires Valid()
      modifies this
      ensures Valid() && |entries| == |old(entries)| + 1 && entries[..|old(entries)|] == old(entries)
      ensures var e := entries[|old(entries)|];
        e == KeymapEntry(requiredMods, requiredLocks, inputKey, outputKey, e.specificity)
    {
      var modCount := PopcountArray(requiredMods);
      var lockCount := PopcountArray(requiredLocks);
      var total: nat := modCount as int + lockCount as int;
      var e := KeymapEntry(requiredMods, requiredLocks, inputKey, outputKey, total % 0x100);
      SumWraps(SumTo(requiredMods, 8), SumTo(requiredLocks, 8));
      entries := entries + [e];
    }

    method SortKeymapBySpecificity()
      requires Valid()
      modifies this
      ensures Valid() && Sorted(entries) && multiset(entries) == old(multiset(entries))
    {
      entries := SortDescending(entries);
      assert forall e :: e in entries ==> e in multiset(entries);
    }

    /** The loop over the 256 virtual modifiers. */
    static method ModsMatch(e: KeymapEntry, state: Bits) returns (modsMatch: bool)
      ensures modsMatch == e.ModsHold(state, 256)
    {
      modsMatch := true;
      for i := 0 to 256
        invariant modsMatch && e.ModsHold(state, i)
      {
        if Requires(e.requiredMods, i) && VIRTUAL_OFFSET + i !in state {
          modsMatch := false;
          break;
        }
      }
    }

    /** The loop over the 256 locks. */
    static method LocksMatch(e: KeymapEntry, state: Bits) returns (locksMatch: bool)
      ensures locksMatch == e.LocksHold(state, 256)
    {
      locksMatch := true;
      for i := 0 to 256
        invariant locksMatch && e.LocksHold(state, i)
      {
        if Requires(e.requiredLocks, i) && LOCK_OFFSET + i !in state {
          locksMatch := false;
          break;
        }
      }
    }

    /** `lookupKeymap`: 0 without a match. */
    method LookupKeymap(key: uint16, state: Bits) returns (output: uint16)
      ensures var i := FirstMatching(entries, key, state);
        output == if i < |entries| then entries[i].outputKey else 0
    {
      for n := 0 to |entries|
        invariant FirstMatching(entries, key, state) == n + FirstMatching(entries[n..], key, state)
      {
        var e := entries[n];
        assert entries[n..][1..] == entries[n + 1..];
        if e.inputKey != key {
          continue;
        }
        var modsMatch := ModsMatch(e, state);
        if !modsMatch {
          continue;
        }
        var locksMatch := LocksMatch(e, state);
        if !locksMatch {
          continue;
        }
        return e.outputKey;
      }
      return 0;
    }
  }

  /** After sorting, the entry that lookup uses has the greatest stored specificity of
      all matching entries. */
  lemma LookupPicksGreatest(entries: seq<KeymapEntry>, key: uint16, state: Bits, e: KeymapEntry)
    requires Sorted(entries) && e in entries && e.Matches(key, state)
    ensures var i := FirstMatching(entries, key, state);
      i < |entries| && entries[i].Matches(key, state) && entries[i].specificity >= e.specificity
  {
  }

  // ---- Specificity and containment ----

  /** b requires every bit that a requires. */
  predicate Covers(b: KeymapEntry, a: KeymapEntry) {
    forall i :: 0 <= i < 256 ==>
      && (Requires(a.requiredMods, i) ==> Requires(b.requiredMods, i))
      && (Requires(a.requiredLocks, i) ==> Requires(b.requiredLocks, i))
  }

  predicate WordCovers(v: nat, w: nat, n: nat) {
    forall i :: 0 <= i < n && Bit(w, i) ==> Bit(v, i)
  }

  lemma {:induction false} WordCoverage(v: nat, w: nat, n: nat)
    requires v < Pow2(n) && w < Pow2(n) && WordCovers(v, w, n)
    ensures PopCount(w) <= PopCount(v) && (PopCount(w) == PopCount(v) ==> v == w)
  {
    if n > 0 {
      forall i | 0 <= i < n - 1 && Bit(w / 2, i) ensures Bit(v / 2, i) {
        ShrHalf(w, i);
        ShrHalf(v, i);
        assert Bit(w, i + 1);
      }
      assert Bit(w, 0) ==> Bit(v, 0);
      WordCoverage(v / 2, w / 2, n - 1);
      assert w == 2 * (w / 2) + w % 2 && v == 2 * (v / 2) + v % 2;
    }
  }

  lemma WordOfMask(v: Mask, w: Mask, k: nat)
    requires k < 8 && forall i :: 0 <= i < 256 && Requires(w, i) ==> Requires(v, i)
    ensures PopCount(w[k]) <= PopCount(v[k]) && (PopCount(w[k]) == PopCount(v[k]) ==> v[k] == w[k])
  {
    forall i | 0 <= i < 32 && Bit(w[k], i) ensures Bit(v[k], i) {
      assert (32 * k + i) / 32 == k && (32 * k + i) % 32 == i;
      assert Requires(w, 32 * k + i);
    }
    Pow2Of32();
    WordCoverage(v[k], w[k], 32);
  }

  lemma {:induction false} MaskCoverage(v: Mask, w: Mask, n: nat)
    requires n <= 8 && forall i :: 0 <= i < 256 && Requires(w, i) ==> Requires(v, i)
    ensures SumTo(w, n) <= SumTo(v, n) && (SumTo(w, n) == SumTo(v, n) ==> w[..n] == v[..n])
  {
    if n > 0 {
      MaskCoverage(v, w, n - 1);
      var k := n - 1;
      WordOfMask(v, w, k);
      assert w[..n] == w[..k] + [w[k]] && v[..n] == v[..k] + [v[k]];
    }
  }

  /** Requiring strictly more bits means a strictly greater bit count. */
  lemma CoversMeansMoreBits(b: KeymapEntry, a: KeymapEntry)
    requires Covers(b, a)
    ensures a.BitCount() <= b.BitCount()
    ensures a.BitCount() == b.BitCount() ==> a.requiredMods == b.requiredMods && a.requiredLocks == b.requiredLocks
  {
    MaskCoverage(b.requiredMods, a.requiredMods, 8);
    MaskCoverage(b.requiredLocks, a.requiredLocks, 8);
    assert a.requiredMods[..8] == a.requiredMods && b.requiredMods[..8] == b.requiredMods;
    assert a.requiredLocks[..8] == a.requiredLocks && b.requiredLocks[..8] == b.requiredLocks;
  }

  predicate SameRequirements(a: KeymapEntry, b: KeymapEntry) {
    a.requiredMods == b.requiredMods && a.requiredLocks == b.requiredLocks
  }

  /** b covers a and requires more. */
  predicate StrictlyCovers(b: KeymapEntry, a: KeymapEntry) {
    Covers(b, a) && !SameRequirements(b, a)
  }

  lemma FewBitsOutrank(b: KeymapEntry, a: KeymapEntry)
    requires b.WellFormed() && a.WellFormed() && b.BitCount() <= 255 && StrictlyCovers(b, a)
    ensures b.specificity > a.specificity
  {
    CoversMeansMoreBits(b, a);
  }

  /** The entry that lookup uses is not one whose requirements are strictly contained in
      those of a matching entry with at most 255 bits. */
  lemma MoreSpecificWins(entries: seq<KeymapEntry>, key: uint16, state: Bits, b: KeymapEntry)
    requires Sorted(entries) && (forall e :: e in entries ==> e.WellFormed())
    requires b in entries && b.Matches(key, state) && b.BitCount() <= 255
    ensures var i := FirstMatching(entries, key, state); i < |entries| && !StrictlyCovers(b, entries[i])
  {
    LookupPicksGreatest(entries, key, state, b);
    var used := entries[FirstMatching(entries, key, state)];
    if StrictlyCovers(b, used) {
      FewBitsOutrank(b, used);
    }
  }

  // Beyond 255 bits the stored specificity wraps: a part of the entry outranks it.

  /** The lowest t set bits of w. */
  function Keep(w: nat, t: nat): (r: nat)
    ensures r <= w && PopCount(r) == if t < PopCount(w) then t else PopCount(w)
  {
    if w == 0 || t == 0 then 0
    else
      var half := Keep(w / 2, if w % 2 == 1 then t - 1 else t);
      assert (2 * half + w % 2) / 2 == half && (2 * half + w % 2) % 2 == w % 2;
      2 * half + w % 2
  }

  lemma {:induction false} ZeroHasNoBits(i: nat)
    ensures Shr(0, i) == 0
  {
    if i > 0 {
      ZeroHasNoBits(i - 1);
    }
  }

  lemma KeepHalf(w: nat, t: nat)
    requires w > 0 && t > 0
    ensures Keep(w, t) / 2 == Keep(w / 2, if w % 2 == 1 then t - 1 else t) && Keep(w, t) % 2 == w % 2
  {
    var half := Keep(w / 2, if w % 2 == 1 then t - 1 else t);
    assert Keep(w, t) == 2 * half + w % 2;
  }

  lemma {:induction false} KeepCovered(w: nat, t: nat, i: nat)
    ensures Bit(Keep(w, t), i) ==> Bit(w, i)
  {
    if w == 0 || t == 0 {
      ZeroHasNoBits(i);
    } else if i > 0 {
      var more := if w % 2 == 1 then t - 1 else t;
      KeepCovered(w / 2, more, i - 1);
      KeepHalf(w, t);
      ShrHalf(w, i - 1);
      ShrHalf(Keep(w, t), i - 1);
    }
  }

  /** The first n words of a mask with only its first t set bits. */
  function KeepWords(m: Mask, n: nat, t: nat): (r: seq<uint32>)
    requires n <= 8
    ensures |r| == n
  {
    if n == 0 then []
    else
      var before := SumTo(m, n - 1);
      KeepWords(m, n - 1, t) + [Keep(m[n - 1], if before < t then t - before else 0)]
  }

  lemma {:induction false} KeepWordsAt(m: Mask, n: nat, t: nat, k: nat)
    requires k < n <= 8
    ensures KeepWords(m, n, t)[k] == Keep(m[k], if SumTo(m, k) < t then t - SumTo(m, k) else 0)
  {
    if k < n - 1 {
      KeepWordsAt(m, n - 1, t, k);
    }
  }

  lemma {:induction false} KeepWordsSum(m: Mask, n: nat, t: nat)
    requires n <= 8
    ensures SumTo(KeepWords(m, 8, t), n) == if t < SumTo(m, n) then t else SumTo(m, n)
  {
    if n > 0 {
      KeepWordsSum(m, n - 1, t);
      KeepWordsAt(m, 8, t, n - 1);
    }
  }

  lemma KeepWordsCovered(m: Mask, t: nat, i: nat)
    requires i < 256
    ensures Requires(KeepWords(m, 8, t), i) ==> Requires(m, i)
  {
    KeepWordsAt(m, 8, t, i / 32);
    KeepCovered(m[i / 32], if SumTo(m, i / 32) < t then t - SumTo(m, i / 32) else 0, i % 32);
  }

  /** A part of b with exactly 255 of its bits. */
  lemma PartOf255(b: KeymapEntry) returns (a: KeymapEntry)
    requires b.BitCount() >= 256
    ensures a.WellFormed() && a.specificity == 255 && StrictlyCovers(b, a)
    ensures a.inputKey == b.inputKey
  {
    var mods, locks := SumTo(b.requiredMods, 8), SumTo(b.requiredLocks, 8);
    var t := if mods < 255 then 255 - mods else 0;
    a := KeymapEntry(KeepWords(b.requiredMods, 8, 255), KeepWords(b.requiredLocks, 8, t), b.inputKey, b.outputKey, 255);
    KeepWordsSum(b.requiredMods, 8, 255);
    KeepWordsSum(b.requiredLocks, 8, t);
    forall i | 0 <= i < 256
      ensures (Requires(a.requiredMods, i) ==> Requires(b.requiredMods, i))
           && (Requires(a.requiredLocks, i) ==> Requires(b.requiredLocks, i))
    {
      KeepWordsCovered(b.requiredMods, 255, i);
      KeepWordsCovered(b.requiredLocks, t, i);
    }
  }

  /** An entry outranks every entry whose requirements it strictly contains exactly when
      it requires at most 255 bits. */
  lemma OutranksItsPartsIff(b: KeymapEntry)
    requires b.WellFormed()
    ensures b.BitCount() <= 255
       <==> forall a: KeymapEntry :: a.WellFormed() && StrictlyCovers(b, a) ==> b.specificity > a.specificity
  {
    if b.BitCount() <= 255 {
      forall a: KeymapEntry | a.WellFormed() && StrictlyCovers(b, a) ensures b.specificity > a.specificity {
        FewBitsOutrank(b, a);
      }
    } else {
      var a := PartOf255(b);
    }
  }

  // ---- Bits, told without shifting ----

  lemma BitByHalving(w: nat, i: nat)
    ensures Bit(w, 0) <==> w % 2 == 1
    ensures Bit(w, i + 1) <==> Bit(w / 2, i)
  {
    ShrHalf(w, i);
  }

  /** The number of bits of w below n. */
  function CountBits(w: nat, n: nat): nat {
    if n == 0 then 0 else CountBits(w, n - 1) + if Bit(w, n - 1) then 1 else 0
  }

  lemma {:induction false} CountHalf(w: nat, n: nat)
    ensures CountBits(w, n + 1) == w % 2 + CountBits(w / 2, n)
  {
    if n == 0 {
      assert CountBits(w, 1) == CountBits(w, 0) + w % 2;
    } else {
      CountHalf(w, n - 1);
      BitByHalving(w, n - 1);
    }
  }

  lemma {:induction false} PopCountCounts(w: nat, n: nat)
    requires w < Pow2(n)
    ensures PopCount(w) == CountBits(w, n)
  {
    if n > 0 {
      PopCountCounts(w / 2, n - 1);
      CountHalf(w, n - 1);
    }
  }

  /** The places of the set bits of w below n. */
  function SetBits(w: nat, n: nat): set<nat> {
    set i | 0 <= i < n && Bit(w, i)
  }

  lemma OneMoreBit(w: nat, n: nat)
    ensures SetBits(w, n + 1) == SetBits(w, n) + (if Bit(w, n) then {n} else {}) && n !in SetBits(w, n)
  {
  }

  lemma {:induction false} CountIsCardinality(w: nat, n: nat)
    ensures CountBits(w, n) == |SetBits(w, n)|
  {
    if n > 0 {
      CountIsCardinality(w, n - 1);
      OneMoreBit(w, n - 1);
    }
  }

  /** The population count of a word is the number of its set bits. */
  lemma PopCountIsNumberOfBits(w: uint32)
    ensures PopCount(w) == |SetBits(w, 32)|
  {
    Pow2Of32();
    PopCountCounts(w, 32);
    CountIsCardinality(w, 32);
  }

  lemma SumOneMore(m: Mask, n: nat)
    requires n < 8
    ensures SumTo(m, n + 1) == SumTo(m, n) + PopCount(m[n])
    ensures SumTo(m, 0) == 0
  {
  }

  lemma SumOfWords(m: Mask)
    ensures SumTo(m, 8) == PopCount(m[0]) + PopCount(m[1]) + PopCount(m[2]) + PopCount(m[3])
                         + PopCount(m[4]) + PopCount(m[5]) + PopCount(m[6]) + PopCount(m[7])
  {
    SumOneMore(m, 0);
    SumOneMore(m, 1);
    SumOneMore(m, 2);
    SumOneMore(m, 3);
    SumOneMore(m, 4);
    SumOneMore(m, 5);
    SumOneMore(m, 6);
    SumOneMore(m, 7);
  }

  /** What an entry stores: the population counts of its sixteen words, modulo 256. */
  lemma SpecificityOfWords(e: KeymapEntry)
    requires e.WellFormed()
    ensures var m, l := e.requiredMods, e.requiredLocks;
      e.specificity ==
        (PopCount(m[0]) + PopCount(m[1]) + PopCount(m[2]) + PopCount(m[3])
         + PopCount(m[4]) + PopCount(m[5]) + PopCount(m[6]) + PopCount(m[7])
         + PopCount(l[0]) + PopCount(l[1]) + PopCount(l[2]) + PopCount(l[3])
         + PopCount(l[4]) + PopCount(l[5]) + PopCount(l[6]) + PopCount(l[7])) % 256
  {
    SumOfWords(e.requiredMods);
    SumOfWords(e.requiredLocks);
  }

  /** Bit i of word k asks for state bit offset + 32 * k + i. */
  lemma MaskAsks(m: Mask, state: Bits, offset: nat)
    ensures (forall j :: 0 <= j < 256 && Requires(m, j) ==> offset + j in state) <==>
      (forall k, i :: 0 <= k < 8 && 0 <= i < 32 && Bit(m[k], i) ==> offset + (32 * k + i) in state)
  {
    if forall j :: 0 <= j < 256 && Requires(m, j) ==> offset + j in state {
      forall k, i | 0 <= k < 8 && 0 <= i < 32 && Bit(m[k], i) ensures offset + (32 * k + i) in state {
        assert (32 * k + i) / 32 == k && (32 * k + i) % 32 == i;
        assert Requires(m, 32 * k + i);
      }
    }
    if forall k, i :: 0 <= k < 8 && 0 <= i < 32 && Bit(m[k], i) ==> offset + (32 * k + i) in state {
      forall j | 0 <= j < 256 && Requires(m, j) ensures offset + j in state {
        assert Bit(m[j / 32], j % 32) && j == 32 * (j / 32) + j % 32;
      }
    }
  }

  /** An entry matches its key when the state has every virtual modifier and lock that a
      set bit of its masks asks for. */
  lemma EntryMatches(e: KeymapEntry, key: uint16, state: Bits)
    ensures e.Matches(key, state) <==>
      && e.inputKey == key
      && (forall k, i :: 0 <= k < 8 && 0 <= i < 32 && Bit(e.requiredMods[k], i) ==> 16 + (32 * k + i) in state)
      && (forall k, i :: 0 <= k < 8 && 0 <= i < 32 && Bit(e.requiredLocks[k], i) ==> 272 + (32 * k + i) in state)
  {
    MaskAsks(e.requiredMods, state, 16);
    MaskAsks(e.requiredLocks, state, 272);
  }
}
