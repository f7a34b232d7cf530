/** The fixed-capacity object pool: raw slots plus an index freelist. */
module Slab {
  import opened Core

  /** `kNone`: never a slot index, because a capacity is at most this value. */
  const NONE: nat := 0xFFFF_FFFF

  ghost predicate Distinct(s: seq<nat>) {
    forall i, j :: 0 <= i < j < |s| ==> s[i] != s[j]
  }

  ghost predicate ChainAt(next: seq<nat>, free: seq<nat>, i: int)
    requires 0 <= i < |free|
  {
    && free[i] < |next|
    && next[free[i]] == if i + 1 < |free| then free[i + 1] else NONE
  }

  /** Following `next` from `head` visits exactly `free`, in order, and then stops. */
  ghost predicate Chain(next: seq<nat>, head: nat, free: seq<nat>) {
    && head == (if free == [] then NONE else free[0])
    && (forall i :: 0 <= i < |free| ==> ChainAt(next, free, i))
  }

  /** Pigeonhole: a list of distinct slots is no longer than the number of slots. */
  lemma {:induction false} DistinctBounded(s: seq<nat>, n: nat)
    requires Distinct(s) && forall i :: 0 <= i < |s| ==> s[i] < n
    ensures |s| <= n
    decreases n
  {
    if s == [] {
    } else if p :| 0 <= p < |s| && s[p] == n - 1 {
      DistinctBounded(s[..p] + s[p + 1..], n - 1);
    } else {
      assert s[0] < n;
      DistinctBounded(s, n - 1);
    }
  }

  lemma FreeBelow(next: seq<nat>, head: nat, free: seq<nat>)
    requires Chain(next, head, free)
    ensures forall i :: 0 <= i < |free| ==> free[i] < |next|
  {
    forall i | 0 <= i < |free|
      ensures free[i] < |next|
    {
      assert ChainAt(next, free, i);
    }
  }

  class SlabPool<T> {
    const capacity: nat
    const blank: T
    const storage: array<T>
    const nextFree: array<nat>
    var freeHead: nat
    var liveCount: nat
    ghost var free: seq<nat>

    ghost predicate Valid()
      reads this, nextFree
    {
      && 0 < capacity <= NONE
      && storage.Length == capacity
      && nextFree.Length == capacity
      && storage as object != nextFree
      && Chain(nextFree[..], freeHead, free)
      && Distinct(free)
      && |free| + liveCount == capacity
    }

    constructor (slots: nat, value: T)
      requires 0 < slots <= NONE
      ensures Valid() && capacity == slots && blank == value
      ensures liveCount == 0
      ensures forall i: nat :: i < slots ==> i in free
      ensures fresh(storage) && fresh(nextFree)
    {
      capacity := slots;
      blank := value;
      storage := new T[slots](_ => value);
      nextFree := new nat[slots](_ => 0);
      freeHead := 0;
      liveCount := 0;
      free := seq(slots, i => i);
      new;
      for i := 0 to slots - 1
        modifies nextFree
        invariant forall k :: 0 <= k < i ==> nextFree[k] == k + 1
      {
        nextFree[i] := i + 1;
      }
      nextFree[slots - 1] := NONE;
      forall i: nat | i < slots
        ensures i in free
      {
        assert free[i] == i;
      }
    }

    /** The head of the freelist, reset to a blank value; nothing when exhausted. */
    method Allocate() returns (slot: Option<nat>)
      requires Valid()
      modifies this`freeHead, this`liveCount, this`free, storage
      ensures Valid()
      ensures slot == None <==> old(liveCount) == capacity
      ensures slot == None ==> free == old(free) && liveCount == old(liveCount) && storage[..] == old(storage[..])
      ensures slot.Some? ==>
                && slot.value < capacity
                && slot.value in old(free)
                && slot.value !in free
                && (forall x :: x in free ==> x in old(free))
                && liveCount == old(liveCount) + 1
                && storage[..] == old(storage[..])[slot.value := blank]
    {
      FreeBelow(nextFree[..], freeHead, free);
      if freeHead == NONE {
        return None;
      }
      var idx := freeHead;
      freeHead := nextFree[idx];
      liveCount := liveCount + 1;
      storage[idx] := blank;
      ghost var rest := free[1..];
      assert ChainAt(nextFree[..], free, 0);
      forall i | 0 <= i < |rest|
        ensures ChainAt(nextFree[..], rest, i)
      {
        assert ChainAt(nextFree[..], free, i + 1);
      }
      free := rest;
      return Some(idx);
    }

    /** Puts a live slot back at the head of the freelist. */
    method Deallocate(idx: nat)
      requires Valid() && idx < capacity && idx !in free
      modifies this`freeHead, this`liveCount, this`free, nextFree
      ensures Valid()
      ensures liveCount == old(liveCount) - 1
      ensures forall x :: x in free <==> x == idx || x in old(free)
    {
      FreeBelow(nextFree[..], freeHead, free);
      DistinctBounded(free + [idx], capacity);
      ghost var chain := nextFree[..];
      nextFree[idx] := freeHead;
      freeHead := idx;
      liveCount := liveCount - 1;
      free := [idx] + free;
      forall i | 0 <= i < |free|
        ensures ChainAt(nextFree[..], free, i)
      {
        if i > 0 {
          assert ChainAt(chain, old(free), i - 1);
        }
      }
    }
  }
}
