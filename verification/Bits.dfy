/** Unsigned machine words as natural numbers.  Every bitwise operator is defined by
    its recursion on binary digits, and the 64-bit width is written out where the
    operator depends on it (complement and left shift). */
module Bits {

  function Pow2(n: nat): (p: nat)
    ensures p >= 1
  {
    if n == 0 then 1 else 2 * Pow2(n - 1)
  }

  /** 2^64, the number of values of a `std::uint64_t`. */
  const WORD_SPAN: nat := 0x1_0000_0000_0000_0000

  predicate IsWord(w: nat) {
    w < WORD_SPAN
  }

  predicate Bit(w: nat, k: nat) {
    if k == 0 then w % 2 == 1 else Bit(w / 2, k - 1)
  }

  function And(a: nat, b: nat): nat {
    if a == 0 || b == 0 then 0
    else 2 * And(a / 2, b / 2) + (if a % 2 == 1 && b % 2 == 1 then 1 else 0)
  }

  function Or(a: nat, b: nat): nat
    decreases a + b
  {
    if a == 0 then b
    else if b == 0 then a
    else 2 * Or(a / 2, b / 2) + (if a % 2 == 1 || b % 2 == 1 then 1 else 0)
  }

  /** Complement of the `n` low digits of `w`; `~w` is `Complement(w, 64)`. */
  function Complement(w: nat, n: nat): nat {
    if n == 0 then 0 else 2 * Complement(w / 2, n - 1) + (1 - w % 2)
  }

  /** `w << k` on 64-bit words. */
  function ShiftLeft(w: nat, k: nat): nat {
    (w * Pow2(k)) % WORD_SPAN
  }

  function ShiftRight(w: nat, k: nat): nat {
    QuotientNonnegative(w, Pow2(k));
    w / Pow2(k)
  }

  lemma QuotientNonnegative(w: nat, p: nat)
    requires p > 0
    ensures w / p >= 0
  {
  }

  /** Number of leading zero digits of `w` seen as an `n`-digit word. */
  function LeadingZeros(w: nat, n: nat): nat {
    if n == 0 || w >= Pow2(n - 1) then 0 else 1 + LeadingZeros(w, n - 1)
  }

  /** `std::countl_zero` of a 64-bit word. */
  function CountlZero(w: nat): nat {
    var digits := 64;
    LeadingZeros(w, digits)
  }

  /** Number of trailing zero digits of a non-zero word. */
  function TrailingZeros(w: nat): nat
    requires w != 0
  {
    if w % 2 == 1 then 0 else 1 + TrailingZeros(w / 2)
  }

  lemma WordSpan()
    ensures Pow2(64) == WORD_SPAN
  {
    var b, h, w := 8, 16, 32;
    assert Pow2(b) == 256;
    Pow2Add(b, b);
    Pow2Add(h, h);
    Pow2Add(w, w);
  }

  lemma {:induction false} Pow2Add(m: nat, n: nat)
    ensures Pow2(m + n) == Pow2(m) * Pow2(n)
  {
    if n == 0 {
    } else {
      Pow2Add(m, n - 1);
      calc {
        Pow2(m + n);
        2 * (Pow2(m) * Pow2(n - 1));
        Pow2(m) * (2 * Pow2(n - 1));
      }
    }
  }

  lemma {:induction false} Pow2Monotone(m: nat, n: nat)
    requires m <= n
    ensures Pow2(m) <= Pow2(n)
  {
    if m < n {
      Pow2Monotone(m, n - 1);
    }
  }

  lemma {:induction false} AndBit(a: nat, b: nat, k: nat)
    ensures Bit(And(a, b), k) <==> Bit(a, k) && Bit(b, k)
    decreases k
  {
    if a == 0 || b == 0 {
      ZeroBit(k);
    } else if k > 0 {
      AndBit(a / 2, b / 2, k - 1);
    }
  }

  lemma {:induction false} OrBit(a: nat, b: nat, k: nat)
    ensures Bit(Or(a, b), k) <==> Bit(a, k) || Bit(b, k)
    decreases k
  {
    if a == 0 || b == 0 {
      ZeroBit(k);
    } else if k > 0 {
      OrBit(a / 2, b / 2, k - 1);
    }
  }

  lemma {:induction false} ComplementBit(w: nat, n: nat, k: nat)
    ensures Bit(Complement(w, n), k) <==> k < n && !Bit(w, k)
  {
    if n == 0 {
      ZeroBit(k);
    } else if k > 0 {
      ComplementBit(w / 2, n - 1, k - 1);
    }
  }

  lemma {:induction false} ZeroBit(k: nat)
    ensures !Bit(0, k)
  {
    if k > 0 {
      ZeroBit(k - 1);
    }
  }

  lemma {:induction false} Pow2Bit(n: nat, k: nat)
    ensures Bit(Pow2(n), k) <==> k == n
  {
    if n == 0 {
      if k > 0 {
        ZeroBit(k - 1);
      }
    } else if k > 0 {
      Pow2Bit(n - 1, k - 1);
    }
  }

  lemma {:induction false} LowOnesBit(n: nat, k: nat)
    ensures Bit(Pow2(n) - 1, k) <==> k < n
  {
    if n == 0 {
      ZeroBit(k);
    } else if k > 0 {
      LowOnesBit(n - 1, k - 1);
    }
  }

  /** A shift right by `k` brings bit `k` to the bottom. */
  lemma {:induction false} ShiftRightBit(w: nat, k: nat)
    ensures Bit(w, k) <==> ShiftRight(w, k) % 2 == 1
  {
    if k > 0 {
      ShiftRightBit(w / 2, k - 1);
      HalveThenDivide(w, Pow2(k - 1));
    }
  }

  lemma HalveThenDivide(w: nat, p: nat)
    requires p >= 1
    ensures w / 2 / p == w / (2 * p)
  {
    var q, r := w / (2 * p), w % (2 * p);
    assert w == 2 * p * q + r;
    assert w / 2 == p * q + r / 2 by {
      assert w == 2 * (p * q) + r;
    }
    DivideExact(p, q, r / 2);
  }

  lemma DivideExact(p: nat, q: nat, r: nat)
    requires r < p
    ensures (p * q + r) / p == q
    ensures (p * q + r) % p == r
  {
    var n := p * q + r;
    assert n == p * (n / p) + n % p;
    if n / p < q {
      MultiplyStep(p, n / p, q);
    } else if q < n / p {
      MultiplyStep(p, q, n / p);
    }
  }

  lemma MultiplyStep(p: nat, a: nat, b: nat)
    requires a < b
    ensures p * a + p <= p * b
  {
    var d := b - a - 1;
    assert p * b == p * a + p + p * d;
  }

  lemma {:induction false} HighBitsClear(w: nat, n: nat, k: nat)
    requires w < Pow2(n) && n <= k
    ensures !Bit(w, k)
  {
    if n == 0 {
      ZeroBit(k);
    } else {
      HighBitsClear(w / 2, n - 1, k - 1);
    }
  }

  /** `n - 1 - LeadingZeros(w, n)` is the exponent of the leading digit. */
  lemma {:induction false} LeadingDigit(w: nat, n: nat)
    requires 0 < w < Pow2(n)
    ensures LeadingZeros(w, n) < n
    ensures Pow2(n - 1 - LeadingZeros(w, n)) <= w < Pow2(n - LeadingZeros(w, n))
  {
    if w < Pow2(n - 1) {
      LeadingDigit(w, n - 1);
    }
  }

  /** The digit at the leading exponent is set and every higher one is clear. */
  lemma {:induction false} LeadingDigitSet(w: nat, m: nat)
    requires Pow2(m) <= w < Pow2(m + 1)
    ensures Bit(w, m)
    ensures forall k: nat :: m < k ==> !Bit(w, k)
  {
    forall k: nat | m < k ensures !Bit(w, k) {
      HighBitsClear(w, m + 1, k);
    }
    if m > 0 {
      LeadingDigitSet(w / 2, m - 1);
    }
  }

  /** `63 - countl_zero(w)` is the exponent of a non-zero word's leading digit. */
  lemma WordLeadingDigit(w: nat)
    requires w != 0 && IsWord(w)
    ensures CountlZero(w) < 64
    ensures Pow2(63 - CountlZero(w)) <= w < Pow2(64 - CountlZero(w))
  {
    var digits := 64;
    WordSpan();
    LeadingDigit(w, digits);
  }

  lemma WordHighBitsClear(w: nat, k: nat)
    requires IsWord(w) && 64 <= k
    ensures !Bit(w, k)
  {
    var digits := 64;
    WordSpan();
    HighBitsClear(w, digits, k);
  }

  lemma {:induction false} TrailingDigit(w: nat)
    requires w != 0
    ensures Bit(w, TrailingZeros(w))
    ensures forall k: nat :: k < TrailingZeros(w) ==> !Bit(w, k)
  {
    if w % 2 == 0 {
      TrailingDigit(w / 2);
      forall k: nat | k < TrailingZeros(w) ensures !Bit(w, k) {
        if k > 0 {
          assert !Bit(w / 2, k - 1);
        }
      }
    }
  }

  lemma {:induction false} AndBelow(a: nat, b: nat)
    ensures And(a, b) <= a && And(a, b) <= b
  {
    if a != 0 && b != 0 {
      AndBelow(a / 2, b / 2);
    }
  }

  lemma {:induction false} OrBelow(a: nat, b: nat, n: nat)
    requires a < Pow2(n) && b < Pow2(n)
    ensures Or(a, b) < Pow2(n)
  {
    if a != 0 && b != 0 {
      OrBelow(a / 2, b / 2, n - 1);
    }
  }

  /** Masking with `2^n - 1` is the remainder modulo `2^n`: the index computation of
      both ring buffers. */
  lemma {:induction false} MaskIsModulo(x: nat, n: nat)
    ensures And(x, Pow2(n) - 1) == x % Pow2(n)
  {
    if x == 0 || n == 0 {
    } else {
      var p := Pow2(n - 1);
      MaskIsModulo(x / 2, n - 1);
      assert (Pow2(n) - 1) / 2 == p - 1 && (Pow2(n) - 1) % 2 == 1;
      DoubleModulo(x, p);
    }
  }

  lemma DoubleModulo(x: nat, p: nat)
    requires p >= 1
    ensures x % (2 * p) == 2 * (x / 2 % p) + x % 2
  {
    var q, r := x / 2 / p, x / 2 % p;
    assert x / 2 == p * q + r;
    assert x == 2 * p * q + (2 * r + x % 2) by {
      assert x == 2 * (p * q + r) + x % 2;
    }
    DivideExact(2 * p, q, 2 * r + x % 2);
  }

  /** `~0 << k` has exactly the digits from `k` up. */
  lemma OnesFromBit(m: nat, n: nat, k: nat, j: nat)
    requires k < n && j < n && m == Complement(Pow2(k) - 1, n)
    ensures Bit(m, j) <==> k <= j
  {
    ComplementBit(Pow2(k) - 1, n, j);
    LowOnesBit(k, j);
  }

  lemma OnesFromForm(n: nat, k: nat)
    requires k < n && n == 64
    ensures ShiftLeft(Complement(0, n), k) == Complement(Pow2(k) - 1, n)
  {
    WordSpan();
    ComplementValue(0, n);
    Pow2Monotone(k, n);
    ComplementValue(Pow2(k) - 1, n);
    ShiftOnes(Pow2(n), Pow2(k));
  }

  lemma ShiftOnes(span: nat, p: nat)
    requires 0 < p <= span
    ensures ((span - 1) * p) % span == span - p
  {
    assert (span - 1) * p == span * (p - 1) + (span - p);
    DivideExact(span, p - 1, span - p);
  }

  lemma {:induction false} ComplementValue(w: nat, n: nat)
    requires w < Pow2(n)
    ensures Complement(w, n) == Pow2(n) - 1 - w
  {
    if n > 0 {
      ComplementValue(w / 2, n - 1);
    }
  }
}
