/** Machine words and small helpers shared by the other modules. */
module Words {
  datatype Option<+T> = None | Some(value: T)

  type uint8 = n: nat | n < 0x100
  type uint16 = n: nat | n < 0x1_0000
  type uint32 = n: nat | n < 0x1_0000_0000

  /** `1 << n` */
  function Pow2(n: nat): (p: nat)
    ensures p > 0
  {
    if n == 0 then 1 else 2 * Pow2(n - 1)
  }

  /** `w >> n` */
  function Shr(w: nat, n: nat): nat {
    if n == 0 then w else Shr(w, n - 1) / 2
  }

  /** `(w >> i) & 1` */
  predicate Bit(w: nat, i: nat) {
    Shr(w, i) % 2 == 1
  }

  lemma {:induction false} ShrHalf(w: nat, n: nat)
    ensures Shr(w / 2, n) == Shr(w, n + 1)
  {
    if n == 0 {
      assert Shr(w, 1) == Shr(w, 0) / 2;
    } else {
      ShrHalf(w, n - 1);
    }
  }

  lemma Pow2Of32()
    ensures Pow2(32) == 0x1_0000_0000
  {
    assert Pow2(8) == 0x100;
    assert Pow2(16) == 0x1_0000;
    assert Pow2(24) == 0x100_0000;
  }
}
