/** The occupancy bitmap: 64-bit words scanned a word at a time. */
module Bitmaps {
  import opened Core
  import opened Bits

  /** Highest `true` at or below `i`, by linear search; an `i` past the end means "anywhere". */
  function HighestAtOrBelow(b: seq<bool>, i: int): Option<nat>
    decreases if i < 0 then 0 else i + 1
  {
    if i < 0 then None
    else if i < |b| && b[i] then Some(i)
    else HighestAtOrBelow(b, i - 1)
  }

  /** Lowest `true` at or above `i`, by linear search. */
  function LowestAtOrAbove(b: seq<bool>, i: nat): Option<nat>
    decreases |b| - i
  {
    if i >= |b| then None
    else if b[i] then Some(i)
    else LowestAtOrAbove(b, i + 1)
  }

  lemma {:induction false} HighestIs(b: seq<bool>, i: int, r: nat)
    requires r <= i && r < |b| && b[r]
    requires forall j :: r < j <= i && j < |b| ==> !b[j]
    ensures HighestAtOrBelow(b, i) == Some(r)
    decreases i
  {
    if r < i {
      HighestIs(b, i - 1, r);
    }
  }

  lemma {:induction false} HighestNone(b: seq<bool>, i: int)
    requires forall j :: 0 <= j <= i && j < |b| ==> !b[j]
    ensures HighestAtOrBelow(b, i) == None
    decreases if i < 0 then 0 else i + 1
  {
    if 0 <= i {
      HighestNone(b, i - 1);
    }
  }

  lemma {:induction false} LowestIs(b: seq<bool>, i: nat, r: nat)
    requires i <= r < |b| && b[r]
    requires forall j :: i <= j < r ==> !b[j]
    ensures LowestAtOrAbove(b, i) == Some(r)
    decreases r - i
  {
    if i < r {
      LowestIs(b, i + 1, r);
    }
  }

  lemma {:induction false} LowestNone(b: seq<bool>, i: nat)
    requires forall j :: i <= j < |b| ==> !b[j]
    ensures LowestAtOrAbove(b, i) == None
    decreases |b| - i
  {
    if i < |b| {
      LowestNone(b, i + 1);
    }
  }

  /** The search result is the nearest set position, or there is none: the reading
      of the naive scan that every caller relies on. */
  lemma {:induction false} HighestMeaning(b: seq<bool>, i: int)
    ensures match HighestAtOrBelow(b, i)
            case Some(r) => r <= i && r < |b| && b[r] && forall j :: r < j <= i && j < |b| ==> !b[j]
            case None => forall j :: 0 <= j <= i && j < |b| ==> !b[j]
    decreases if i < 0 then 0 else i + 1
  {
    if 0 <= i && !(i < |b| && b[i]) {
      HighestMeaning(b, i - 1);
    }
  }

  lemma {:induction false} LowestMeaning(b: seq<bool>, i: nat)
    ensures match LowestAtOrAbove(b, i)
            case Some(r) => i <= r < |b| && b[r] && forall j :: i <= j < r ==> !b[j]
            case None => forall j :: i <= j < |b| ==> !b[j]
    decreases |b| - i
  {
    if i < |b| && !b[i] {
      LowestMeaning(b, i + 1);
    }
  }

  predicate TestIn(words: seq<nat>, i: nat)
    requires i / 64 < |words|
  {
    Bit(words[i / 64], i % 64)
  }

  /** The words hold 64-bit values and no digit past the bitmap's size is set. */
  predicate WellFormed(words: seq<nat>, numBits: nat) {
    && |words| == (numBits + 63) / 64
    && (forall k :: 0 <= k < |words| ==> IsWord(words[k]))
    && (forall i :: numBits <= i < 64 * |words| ==> !TestIn(words, i))
  }

  /** The bitmap read as a sequence of booleans. */
  function BitsOf(words: seq<nat>, numBits: nat): (b: seq<bool>)
    requires |words| == (numBits + 63) / 64
    ensures |b| == numBits
    ensures forall i :: 0 <= i < numBits ==> b[i] == TestIn(words, i)
  {
    seq(numBits, i requires 0 <= i < numBits => TestIn(words, i))
  }

  lemma ShiftOne(k: nat)
    requires k < 64
    ensures ShiftLeft(1, k) == Pow2(k) < WORD_SPAN
  {
    var n := 64;
    WordSpan();
    Pow2Monotone(k + 1, n);
  }

  /** First-word mask of the downward scan; a shift by 64 is never formed. */
  function MaskUpTo(k: nat): nat
    requires k < 64
  {
    if k == 63 then Complement(0, 64)
    else
      ShiftOne(k + 1);
      ShiftLeft(1, k + 1) - 1
  }

  /** First-word mask of the upward scan. */
  function MaskFrom(k: nat): nat
    requires k < 64
  {
    ShiftLeft(Complement(0, 64), k)
  }

  lemma MaskUpToBit(k: nat, j: nat)
    requires k < 64 && j < 64
    ensures Bit(MaskUpTo(k), j) <==> j <= k
  {
    if k == 63 {
      ComplementBit(0, 64, j);
      ZeroBit(j);
    } else {
      ShiftOne(k + 1);
      LowOnesBit(k + 1, j);
    }
  }

  lemma MaskFromBit(k: nat, j: nat)
    requires k < 64 && j < 64
    ensures Bit(MaskFrom(k), j) <==> k <= j
  {
    var n, m := 64, MaskFrom(k);
    assert m == Complement(Pow2(k) - 1, n) by {
      OnesFromForm(n, k);
    }
    OnesFromBit(m, n, k, j);
  }

  /** Setting a digit changes that position of the boolean view and nothing else. */
  lemma SetEffect(words: seq<nat>, numBits: nat, i: nat)
    requires WellFormed(words, numBits) && i < numBits
    ensures var after := words[i / 64 := Or(words[i / 64], ShiftLeft(1, i % 64))];
            && WellFormed(after, numBits)
            && BitsOf(after, numBits) == BitsOf(words, numBits)[i := true]
  {
    var after := words[i / 64 := Or(words[i / 64], ShiftLeft(1, i % 64))];
    forall j: nat | j < 64 * |words|
      ensures TestIn(after, j) <==> j == i || TestIn(words, j)
    {
      ShiftOne(i % 64);
      OrBit(words[i / 64], Pow2(i % 64), j % 64);
      Pow2Bit(i % 64, j % 64);
    }
    var digits := 64;
    ShiftOne(i % 64);
    WordSpan();
    OrBelow(words[i / 64], Pow2(i % 64), digits);
  }

  lemma ClearEffect(words: seq<nat>, numBits: nat, i: nat)
    requires WellFormed(words, numBits) && i < numBits
    ensures var after := words[i / 64 := And(words[i / 64], Complement(ShiftLeft(1, i % 64), 64))];
            && WellFormed(after, numBits)
            && BitsOf(after, numBits) == BitsOf(words, numBits)[i := false]
  {
    var n := 64;
    var after := words[i / 64 := And(words[i / 64], Complement(ShiftLeft(1, i % 64), n))];
    forall j: nat | j < 64 * |words|
      ensures TestIn(after, j) <==> j != i && TestIn(words, j)
    {
      ShiftOne(i % 64);
      AndBit(words[i / 64], Complement(Pow2(i % 64), n), j % 64);
      ComplementBit(Pow2(i % 64), n, j % 64);
      Pow2Bit(i % 64, j % 64);
    }
    AndBelow(words[i / 64], Complement(ShiftLeft(1, i % 64), n));
  }

  /** `w` is word `k` of the bitmap restricted to global positions in `[lo, hi]`. */
  ghost predicate Window(words: seq<nat>, k: nat, w: nat, lo: int, hi: int)
    requires k < |words|
  {
    && IsWord(w)
    && forall j: nat :: j < 64 ==> (Bit(w, j) <==> lo <= 64 * k + j <= hi && Bit(words[k], j))
  }

  lemma TestSplit(words: seq<nat>, k: nat, j: nat)
    requires k < |words| && j < 64
    ensures (64 * k + j) / 64 == k && (64 * k + j) % 64 == j
    ensures TestIn(words, 64 * k + j) <==> Bit(words[k], j)
  {
  }

  lemma WindowEmpty(words: seq<nat>, k: nat, lo: int, hi: int)
    requires k < |words| && Window(words, k, 0, lo, hi)
    ensures forall p: nat :: 64 * k <= p < 64 * k + 64 && lo <= p <= hi ==> !TestIn(words, p)
  {
    forall p: nat | 64 * k <= p < 64 * k + 64 && lo <= p <= hi
      ensures !TestIn(words, p)
    {
      TestSplit(words, k, p - 64 * k);
      ZeroBit(p - 64 * k);
    }
  }

  /** `63 - countl_zero(w)` names the highest position of a non-empty window. */
  lemma WindowTop(words: seq<nat>, k: nat, w: nat, lo: int, hi: int)
    requires k < |words| && Window(words, k, w, lo, hi) && w != 0
    ensures CountlZero(w) < 64
    ensures var p := 64 * k + (63 - CountlZero(w));
            && lo <= p <= hi && TestIn(words, p)
            && forall q: nat :: p < q < 64 * k + 64 && lo <= q <= hi ==> !TestIn(words, q)
  {
    WordLeadingDigit(w);
    var m := 63 - CountlZero(w);
    LeadingDigitSet(w, m);
    TestSplit(words, k, m);
    forall q: nat | 64 * k + m < q < 64 * k + 64 && lo <= q <= hi
      ensures !TestIn(words, q)
    {
      TestSplit(words, k, q - 64 * k);
      assert !Bit(w, q - 64 * k);
    }
  }

  /** `countr_zero(w)` names the lowest position of a non-empty window. */
  lemma WindowBottom(words: seq<nat>, k: nat, w: nat, lo: int, hi: int)
    requires k < |words| && Window(words, k, w, lo, hi) && w != 0
    ensures TrailingZeros(w) < 64
    ensures var p := 64 * k + TrailingZeros(w);
            && lo <= p <= hi && TestIn(words, p)
            && forall q: nat :: 64 * k <= q < p && lo <= q <= hi ==> !TestIn(words, q)
  {
    TrailingDigit(w);
    var m := TrailingZeros(w);
    if m >= 64 {
      WordHighBitsClear(w, m);
    }
    TestSplit(words, k, m);
    forall q: nat | 64 * k <= q < 64 * k + m && lo <= q <= hi
      ensures !TestIn(words, q)
    {
      TestSplit(words, k, q - 64 * k);
      assert !Bit(w, q - 64 * k);
    }
  }

  /** A downward scan stops at the first non-empty window with the naive answer. */
  lemma ScanDownHit(words: seq<nat>, numBits: nat, i: nat, top: nat, k: nat, w: nat)
    requires WellFormed(words, numBits) && top == Min(i, numBits - 1) && k < |words|
    requires Window(words, k, w, 0, top) && w != 0
    requires forall p: nat :: 64 * k + 64 <= p <= top ==> !TestIn(words, p)
    ensures CountlZero(w) < 64
    ensures HighestAtOrBelow(BitsOf(words, numBits), i) == Some(k * 64 + (63 - CountlZero(w)))
  {
    WindowTop(words, k, w, 0, top);
    HighestIs(BitsOf(words, numBits), i, 64 * k + (63 - CountlZero(w)));
  }

  /** An upward scan stops at the first non-empty window with the naive answer. */
  lemma ScanUpHit(words: seq<nat>, numBits: nat, i: nat, k: nat, w: nat)
    requires WellFormed(words, numBits) && i < numBits && k < |words|
    requires Window(words, k, w, i, 64 * |words|) && w != 0
    requires forall p: nat :: i <= p < 64 * k ==> !TestIn(words, p)
    ensures LowestAtOrAbove(BitsOf(words, numBits), i) == Some(k * 64 + TrailingZeros(w))
  {
    WindowBottom(words, k, w, i, 64 * |words|);
    LowestIs(BitsOf(words, numBits), i, 64 * k + TrailingZeros(w));
  }

  class Bitmap {
    const numBits: nat
    const words: array<nat>

    ghost predicate Valid()
      reads words
    {
      WellFormed(words[..], numBits)
    }

    ghost function Occupied(): (b: seq<bool>)
      requires Valid()
      reads words
      ensures |b| == numBits
    {
      BitsOf(words[..], numBits)
    }

    constructor (size: nat)
      ensures Valid() && numBits == size && fresh(words)
      ensures Occupied() == seq(size, i => false)
    {
      numBits := size;
      words := new nat[(size + 63) / 64](i => 0);
      new;
      forall i: nat | i < 64 * words.Length
        ensures !TestIn(words[..], i)
      {
        ZeroBit(i % 64);
      }
    }

    method Set(i: nat)
      requires Valid() && i < numBits
      modifies words
      ensures Valid() && Occupied() == old(Occupied())[i := true]
    {
      SetEffect(words[..], numBits, i);
      ghost var before := words[..];
      words[i / 64] := Or(words[i / 64], ShiftLeft(1, i % 64));
      assert words[..] == before[i / 64 := Or(before[i / 64], ShiftLeft(1, i % 64))];
    }

    method Clear(i: nat)
      requires Valid() && i < numBits
      modifies words
      ensures Valid() && Occupied() == old(Occupied())[i := false]
    {
      ClearEffect(words[..], numBits, i);
      ghost var before := words[..];
      words[i / 64] := And(words[i / 64], Complement(ShiftLeft(1, i % 64), 64));
      assert words[..] == before[i / 64 := And(before[i / 64], Complement(ShiftLeft(1, i % 64), 64))];
    }

    method Test(i: nat) returns (b: bool)
      requires Valid() && i < numBits
      ensures b == Occupied()[i]
    {
      b := And(ShiftRight(words[i / 64], i % 64), 1) != 0;
      ShiftRightBit(words[i / 64], i % 64);
      MaskIsModulo(ShiftRight(words[i / 64], i % 64), 1);
    }

    method FindHighestAtOrBelow(i: nat) returns (r: Option<nat>)
      requires Valid()
      ensures r == HighestAtOrBelow(Occupied(), i)
    {
      if numBits == 0 {
        HighestNone(Occupied(), i);
        return None;
      }
      var top := if i >= numBits then numBits - 1 else i;
      var wordIdx: int := top / 64;
      var w := And(words[wordIdx], MaskUpTo(top % 64));
      FirstWindowDown(words[..], top);
      while true
        invariant 0 <= wordIdx < words.Length
        invariant Window(words[..], wordIdx, w, 0, top)
        invariant forall p: nat :: 64 * wordIdx + 64 <= p <= top ==> !TestIn(words[..], p)
        decreases wordIdx
      {
        if w != 0 {
          ScanDownHit(words[..], numBits, i, top, wordIdx, w);
          return Some(wordIdx * 64 + (63 - CountlZero(w)));
        }
        WindowEmpty(words[..], wordIdx, 0, top);
        wordIdx := wordIdx - 1;
        if wordIdx < 0 {
          HighestNone(Occupied(), i);
          return None;
        }
        w := words[wordIdx];
      }
    }

    method FindLowestAtOrAbove(i: nat) returns (r: Option<nat>)
      requires Valid()
      ensures r == LowestAtOrAbove(Occupied(), i)
    {
      if i >= numBits {
        return None;
      }
      var wordIdx := i / 64;
      var w := And(words[wordIdx], MaskFrom(i % 64));
      FirstWindowUp(words[..], i);
      ghost var last := 64 * words.Length;
      while true
        invariant wordIdx < words.Length
        invariant Window(words[..], wordIdx, w, i, last)
        invariant forall p: nat :: i <= p < 64 * wordIdx ==> !TestIn(words[..], p)
        decreases words.Length - wordIdx
      {
        if w != 0 {
          ScanUpHit(words[..], numBits, i, wordIdx, w);
          return Some(wordIdx * 64 + TrailingZeros(w));
        }
        WindowEmpty(words[..], wordIdx, i, last);
        wordIdx := wordIdx + 1;
        if wordIdx >= words.Length {
          LowestNone(Occupied(), i);
          return None;
        }
        w := words[wordIdx];
      }
    }
  }

  lemma FirstWindowDown(words: seq<nat>, top: nat)
    requires top / 64 < |words| && IsWord(words[top / 64])
    ensures Window(words, top / 64, And(words[top / 64], MaskUpTo(top % 64)), 0, top)
  {
    AndBelow(words[top / 64], MaskUpTo(top % 64));
    forall j: nat | j < 64
      ensures Bit(And(words[top / 64], MaskUpTo(top % 64)), j) <==>
              64 * (top / 64) + j <= top && Bit(words[top / 64], j)
    {
      AndBit(words[top / 64], MaskUpTo(top % 64), j);
      MaskUpToBit(top % 64, j);
    }
  }

  lemma FirstWindowUp(words: seq<nat>, i: nat)
    requires i / 64 < |words| && IsWord(words[i / 64])
    ensures Window(words, i / 64, And(words[i / 64], MaskFrom(i % 64)), i, 64 * |words|)
  {
    AndBelow(words[i / 64], MaskFrom(i % 64));
    forall j: nat | j < 64
      ensures Bit(And(words[i / 64], MaskFrom(i % 64)), j) <==> i <= 64 * (i / 64) + j && Bit(words[i / 64], j)
    {
      AndBit(words[i / 64], MaskFrom(i % 64), j);
      MaskFromBit(i % 64, j);
    }
  }
}
