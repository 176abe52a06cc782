/** `Modifier` of keyboard.h: a three-valued condition (on, off, don't care) per
    modifier type.  The two 64-bit words are sets of bit indices, so `|=` is
    union, `&= ~` is difference and `==` of words is set equality. */
module Modifiers {
  const TYPE_SHIFT: nat := 0
  const TYPE_ALT: nat := 1
  const TYPE_CONTROL: nat := 2
  const TYPE_WINDOWS: nat := 3
  const TYPE_BASIC: nat := 4
  const TYPE_UP: nat := 4
  const TYPE_DOWN: nat := 5
  const TYPE_NUMLOCK: nat := 9
  const TYPE_CAPSLOCK: nat := 10
  const TYPE_SCROLLLOCK: nat := 11
  const TYPE_LOCK0: nat := 19
  const LOCK_TYPES: nat := 10
  const TYPE_END: nat := 29

  datatype Modifier = Modifier(modifiers: set<nat>, dontcares: set<nat>) {
    predicate IsOn(t: nat) { t in modifiers }

    predicate IsDontcare(t: nat) { t in dontcares }

    function Press(t: nat): Modifier {
      Modifier(modifiers + {t}, dontcares - {t})
    }

    function Release(t: nat): Modifier {
      Modifier(modifiers - {t}, dontcares - {t})
    }

    /** `(m_modifiers | m_dontcares) == (i_m.m_modifiers | m_dontcares)` */
    predicate DoesMatch(m: Modifier) {
      modifiers + dontcares == m.modifiers + dontcares
    }

    /** What `add` leaves for type t. */
    predicate IsOnAfterAdd(m: Modifier, t: nat) {
      if t < TYPE_END && IsDontcare(t) && !m.IsDontcare(t) then m.IsOn(t) else IsOn(t)
    }

    predicate IsDontcareAfterAdd(m: Modifier, t: nat) {
      IsDontcare(t) && (t < TYPE_END ==> m.IsDontcare(t))
    }
  }

  /** The constructor: Shift, Alt, Control and Windows are cared for and off. */
  const DEFAULT_MODIFIER := Modifier({}, set t | TYPE_BASIC <= t < TYPE_END)

  /** The word test is a per-type test: every type that is cared for agrees. */
  lemma DoesMatchPerType(a: Modifier, m: Modifier)
    ensures a.DoesMatch(m) <==> forall t: nat :: t !in a.dontcares ==> (t in a.modifiers <==> t in m.modifiers)
  {
  }

  /** Where self does not care, what m cares about is taken over. */
  function Added(self: Modifier, m: Modifier): (r: Modifier)
    ensures forall t: nat :: t < TYPE_END && t in self.dontcares && t !in m.dontcares ==>
              (t in r.modifiers <==> t in m.modifiers) && t !in r.dontcares
    ensures forall t: nat :: t >= TYPE_END || t !in self.dontcares || t in m.dontcares ==>
              (t in r.modifiers <==> t in self.modifiers) && (t in r.dontcares <==> t in self.dontcares)
  {
    Modifier((set t | t in self.modifiers + m.modifiers && self.IsOnAfterAdd(m, t)),
             (set t | t in self.dontcares && self.IsDontcareAfterAdd(m, t)))
  }

  /** `Modifier::add` */
  method Add(self: Modifier, m: Modifier) returns (r: Modifier)
    ensures r == Added(self, m)
  {
    r := self;
    for i := 0 to TYPE_END
      invariant forall t: nat :: r.IsOn(t) <==> if t < i then self.IsOnAfterAdd(m, t) else self.IsOn(t)
      invariant forall t: nat :: r.IsDontcare(t) <==>
                  if t < i then self.IsDontcareAfterAdd(m, t) else self.IsDontcare(t)
    {
      if r.IsDontcare(i) {
        if !m.IsDontcare(i) {
          if m.IsOn(i) {
            r := r.Press(i);
          } else {
            r := r.Release(i);
          }
        }
      }
    }
    forall t: nat ensures t in r.modifiers <==> t in Added(self, m).modifiers {
      assert r.IsOn(t) <==> Added(self, m).IsOn(t);
    }
    forall t: nat ensures t in r.dontcares <==> t in Added(self, m).dontcares {
      assert r.IsDontcare(t) <==> Added(self, m).IsDontcare(t);
    }
  }
}
