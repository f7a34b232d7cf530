/** Slot arithmetic shared by the ring buffers: a power-of-two capacity and a mask. */
module Ring {
  import opened Bits

  /** `pos & (Capacity - 1)` for a capacity of 2^bits. */
  function Slot(bits: nat, pos: nat): (slot: nat)
    ensures slot < Pow2(bits)
  {
    MaskIsModulo(pos, bits);
    And(pos, Pow2(bits) - 1)
  }

  lemma SlotIsModulo(bits: nat, pos: nat)
    ensures Slot(bits, pos) == pos % Pow2(bits)
  {
    MaskIsModulo(pos, bits);
  }

  lemma ModGap(x: nat, y: nat, c: nat)
    requires 0 < c && x < y && x % c == y % c
    ensures x + c <= y
  {
    assert x == c * (x / c) + x % c && y == c * (y / c) + y % c;
    if x / c >= y / c {
      DivMonotone(x, y, c);
    } else {
      MultiplyStep(c, x / c, y / c);
    }
  }

  lemma DivMonotone(x: nat, y: nat, c: nat)
    requires 0 < c && x < y && x % c == y % c
    ensures x / c < y / c
  {
    assert x == c * (x / c) + x % c && y == c * (y / c) + y % c;
    assert c * (x / c) < c * (y / c);
  }

  /** Two positions less than a lap apart use different slots. */
  lemma SlotsDiffer(bits: nat, x: nat, y: nat)
    requires x != y && x < y + Pow2(bits) && y < x + Pow2(bits)
    ensures Slot(bits, x) != Slot(bits, y)
  {
    SlotIsModulo(bits, x);
    SlotIsModulo(bits, y);
    if x % Pow2(bits) == y % Pow2(bits) {
      if x < y {
        ModGap(x, y, Pow2(bits));
      } else {
        ModGap(y, x, Pow2(bits));
      }
    }
  }

  lemma ModLap(x: nat, c: nat)
    requires 0 < c
    ensures (x + c) % c == x % c
  {
    var q, r := x / c, x % c;
    assert c * (q + 1) == c * q + c;
    DivideExact(c, q + 1, r);
  }

  /** The position a lap later uses the same slot. */
  lemma SlotLap(bits: nat, x: nat)
    ensures Slot(bits, x + Pow2(bits)) == Slot(bits, x)
  {
    SlotIsModulo(bits, x);
    SlotIsModulo(bits, x + Pow2(bits));
    ModLap(x, Pow2(bits));
  }

  /** On the first lap a position is its own slot. */
  lemma FirstLap(bits: nat, pos: nat)
    requires pos < Pow2(bits)
    ensures Slot(bits, pos) == pos
  {
    SlotIsModulo(bits, pos);
    SmallMod(pos, Pow2(bits));
  }

  lemma SmallMod(x: nat, c: nat)
    requires x < c
    ensures x % c == x
  {
  }
}
