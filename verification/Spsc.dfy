/** The single-producer single-consumer ring buffer as a transition system: 64-bit counters
    that wrap, stale cached copies of the other side's counter, one step per atomic access
    and separate steps for the plain buffer write and read. */
module Spsc {
  import opened Core
  import opened Bits
  import opened Ring
  import opened Calls

  /** A count held in a `std::uint64_t`. */
  function Wrap(x: nat): nat {
    x % WORD_SPAN
  }

  /** `a - b` on `std::uint64_t`. */
  function Gap(a: nat, b: nat): nat {
    (a - b) % WORD_SPAN
  }

  /** Where the producer is inside `try_push`. */
  datatype Producer<T> =
    | PIdle
    | PStart(item: T)                // about to load its own head and test the cached tail
    | PRefresh(item: T, head: nat)   // cache says full, about to load the real tail
    | PWrite(item: T, head: nat)     // about to write the buffer slot
    | PStore(item: T, head: nat)     // about to store head

  /** Where the consumer is inside `try_pop`. */
  datatype Consumer<T> =
    | CIdle
    | CStart                         // about to load its own tail and test the cached head
    | CRefresh(tail: nat)            // cache says empty, about to load the real head
    | CRead(tail: nat)               // about to read the buffer slot
    | CStore(out: T, tail: nat)      // about to store tail

  /** The last six fields only record history: everything pushed and popped, the true counts
      behind the two cached counters, and the calls of both sides with what they returned. */
  datatype State<T> = State(
    bits: nat,
    buffer: seq<T>,
    head: nat,
    tailCache: nat,
    tail: nat,
    headCache: nat,
    producer: Producer<T>,
    consumer: Consumer<T>,
    pushed: seq<T>,
    popped: seq<T>,
    tailSeen: nat,
    headSeen: nat,
    log: Log<T>,
    pops: seq<Option<T>>)

  function Cap<T>(s: State<T>): nat {
    Pow2(s.bits)
  }

  datatype Step<T> =
    | PushBegin(item: T)
    | PushLoad
    | PushRefresh
    | PushWrite
    | PushStore
    | PopBegin
    | PopLoad
    | PopRefresh
    | PopRead
    | PopStore

  predicate IsPush<T>(step: Step<T>) {
    step.PushBegin? || step.PushLoad? || step.PushRefresh? || step.PushWrite? || step.PushStore?
  }

  predicate Can<T>(s: State<T>, step: Step<T>) {
    && |s.buffer| == Cap(s)
    && match step
       case PushBegin(_) => s.producer.PIdle?
       case PushLoad => s.producer.PStart?
       case PushRefresh => s.producer.PRefresh?
       case PushWrite => s.producer.PWrite?
       case PushStore => s.producer.PStore?
       case PopBegin => s.consumer.CIdle?
       case PopLoad => s.consumer.CStart?
       case PopRefresh => s.consumer.CRefresh?
       case PopRead => s.consumer.CRead?
       case PopStore => s.consumer.CStore?
  }

  function Do<T>(s: State<T>, step: Step<T>): State<T>
    requires Can(s, step)
  {
    match step
    case PushBegin(item) => s.(producer := PStart(item), log := Opened(s.log, item))
    case PushLoad =>
      if Gap(s.head, s.tailCache) >= Cap(s) then s.(producer := PRefresh(s.producer.item, s.head))
      else s.(producer := PWrite(s.producer.item, s.head))
    case PushRefresh =>
      var s' := s.(tailCache := s.tail, tailSeen := |s.popped|);
      if Gap(s.producer.head, s.tail) >= Cap(s) then s'.(producer := PIdle, log := Closed(s.log, false))
      else s'.(producer := PWrite(s.producer.item, s.producer.head))
    case PushWrite =>
      s.(buffer := s.buffer[Slot(s.bits, s.producer.head) := s.producer.item],
         producer := PStore(s.producer.item, s.producer.head))
    case PushStore =>
      s.(head := Wrap(s.producer.head + 1), pushed := s.pushed + [s.producer.item], producer := PIdle,
         log := Closed(s.log, true))
    case PopBegin => s.(consumer := CStart)
    case PopLoad => s.(consumer := if s.tail == s.headCache then CRefresh(s.tail) else CRead(s.tail))
    case PopRefresh =>
      var s' := s.(headCache := s.head, headSeen := |s.pushed|);
      if s.consumer.tail == s.head then s'.(consumer := CIdle, pops := s.pops + [None])
      else s'.(consumer := CRead(s.consumer.tail))
    case PopRead => s.(consumer := CStore(s.buffer[Slot(s.bits, s.consumer.tail)], s.consumer.tail))
    case PopStore =>
      s.(tail := Wrap(s.consumer.tail + 1), popped := s.popped + [s.consumer.out], consumer := CIdle,
         pops := s.pops + [Some(s.consumer.out)])
  }

  /** A capacity of 2^bits that a 64-bit counter can tell from zero. */
  ghost predicate Init<T>(s: State<T>) {
    && 1 <= s.bits < 64 && |s.buffer| == Cap(s)
    && s.head == s.tailCache == s.tail == s.headCache == s.tailSeen == s.headSeen == 0
    && s.producer == PIdle && s.consumer == CIdle && s.pushed == [] && s.popped == []
    && s.log == NoCalls() && s.pops == []
  }

  function Run<T>(s: State<T>, steps: seq<Step<T>>): Option<State<T>> {
    if steps == [] then Some(s)
    else
      match Run(s, steps[..|steps| - 1])
      case None => None
      case Some(r) => if Can(r, steps[|steps| - 1]) then Some(Do(r, steps[|steps| - 1])) else None
  }

  // ---- Wrapped counters ---------------------------------------------------

  lemma WrapForm(x: nat)
    ensures x == WORD_SPAN * (x / WORD_SPAN) + Wrap(x)
  {
  }

  /** The wrapped difference is the true one while the true one fits in a word. */
  lemma GapExact(a: nat, b: nat)
    requires 0 <= a - b < WORD_SPAN
    ensures Gap(Wrap(a), Wrap(b)) == a - b
  {
    WrapForm(a);
    WrapForm(b);
    var k := a / WORD_SPAN - b / WORD_SPAN;
    assert Wrap(a) - Wrap(b) == (a - b) - WORD_SPAN * k;
  }

  lemma WrapEqual(a: nat, b: nat)
    requires 0 <= a - b < WORD_SPAN
    ensures Wrap(a) == Wrap(b) <==> a == b
  {
    GapExact(a, b);
  }

  lemma WrapNext(x: nat)
    ensures Wrap(Wrap(x) + 1) == Wrap(x + 1)
  {
  }

  /** The capacity divides 2^64, so wrapping a counter does not move its slot. */
  lemma SlotWrap(bits: nat, x: nat)
    requires bits < 64
    ensures Slot(bits, Wrap(x)) == Slot(bits, x)
  {
    SlotIsModulo(bits, x);
    SlotIsModulo(bits, Wrap(x));
    WordSpan();
    var n := 64;
    Pow2Add(bits, n - bits);
    ModOfMod(x, Pow2(bits), Pow2(n - bits));
  }

  lemma ModOfMod(x: nat, c: nat, d: nat)
    requires c > 0 && d > 0
    ensures c * d > 0 && x % (c * d) % c == x % c
  {
    MultiplyStep(c, 0, d);
    var q, r := x / (c * d), x % (c * d);
    assert x == (c * d) * q + r;
    Regroup(c, d, q, r);
  }

  lemma Regroup(c: nat, d: nat, q: nat, r: nat)
    requires c > 0
    ensures ((c * d) * q + r) % c == r % c
  {
    var k := r / c;
    assert r == c * k + r % c;
    assert (c * d) * q == c * (d * q);
    assert c * (d * q) + c * k == c * (d * q + k);
    DivideExact(c, d * q + k, r % c);
  }

  lemma CapSmall(bits: nat)
    requires bits < 64
    ensures Pow2(bits) < WORD_SPAN
  {
    WordSpan();
    var n := 64;
    Pow2Add(bits, n - bits);
    assert Pow2(n - bits) == 2 * Pow2(n - bits - 1);
    MultiplyStep(Pow2(bits), 1, Pow2(n - bits));
  }

  // ---- The invariant ------------------------------------------------------

  /** The true counters, in the order the caches trail them. */
  ghost predicate CountersOk<T>(s: State<T>) {
    && 1 <= s.bits < 64 && |s.buffer| == Cap(s)
    && s.tailSeen <= |s.popped| <= s.headSeen <= |s.pushed| <= s.tailSeen + Cap(s)
    && s.head == Wrap(|s.pushed|) && s.tail == Wrap(|s.popped|)
    && s.tailCache == Wrap(s.tailSeen) && s.headCache == Wrap(s.headSeen)
  }

  ghost predicate BufferOk<T>(s: State<T>)
    requires |s.buffer| == Cap(s) && |s.popped| <= |s.pushed|
  {
    && (forall k :: 0 <= k < |s.popped| ==> s.popped[k] == s.pushed[k])
    && (forall k {:trigger Slot(s.bits, k)} :: |s.popped| <= k < |s.pushed| ==>
       s.buffer[Slot(s.bits, k)] == s.pushed[k])
  }

  ghost predicate ProducerOk<T>(s: State<T>)
    requires |s.buffer| == Cap(s)
  {
    match s.producer
    case PIdle => true
    case PStart(_) => true
    case PRefresh(_, head) => head == s.head
    case PWrite(_, head) => head == s.head && |s.pushed| < s.tailSeen + Cap(s)
    case PStore(item, head) =>
      head == s.head && |s.pushed| < s.tailSeen + Cap(s) && s.buffer[Slot(s.bits, |s.pushed|)] == item
  }

  ghost predicate ConsumerOk<T>(s: State<T>) {
    match s.consumer
    case CIdle => true
    case CStart => true
    case CRefresh(tail) => tail == s.tail
    case CRead(tail) => tail == s.tail && |s.popped| < s.headSeen
    case CStore(out, tail) => tail == s.tail && |s.popped| < s.headSeen <= |s.pushed| && out == s.pushed[|s.popped|]
  }

  /** A push in progress still holds its argument; what was pushed is the arguments of the
      calls that returned true, and what was popped is what the pops returned. */
  ghost predicate CallsOk<T>(s: State<T>) {
    && (if s.producer.PIdle? then Quiet(s.log) else Within(s.log, s.producer.item))
    && s.pushed == Succeeded(s.log.called, s.log.answers)
    && s.popped == Received(s.pops)
  }

  lemma CallsKept<T>(s: State<T>, step: Step<T>)
    requires CallsOk(s) && Can(s, step)
    ensures CallsOk(Do(s, step))
  {
    match step
    case PushBegin(item) => SucceededOpened(s.log.called, s.log.answers, item);
    case PushRefresh => SucceededClosed(s.log.called, s.log.answers, false);
    case PushStore => SucceededClosed(s.log.called, s.log.answers, true);
    case PopRefresh => ReceivedAppend(s.pops, None);
    case PopStore => ReceivedAppend(s.pops, Some(s.consumer.out));
    case _ =>
  }

  ghost predicate QueueOk<T>(s: State<T>) {
    CountersOk(s) && BufferOk(s) && ProducerOk(s) && ConsumerOk(s)
  }

  ghost predicate Inv<T>(s: State<T>) {
    QueueOk(s) && CallsOk(s)
  }

  lemma InitInv<T>(s: State<T>)
    requires Init(s)
    ensures Inv(s)
  {
  }

  lemma PushLoadKeeps<T>(s: State<T>)
    requires QueueOk(s) && Can(s, PushLoad)
    ensures QueueOk(Do(s, PushLoad))
  {
    CapSmall(s.bits);
    GapExact(|s.pushed|, s.tailSeen);
  }

  lemma PushRefreshKeeps<T>(s: State<T>)
    requires QueueOk(s) && Can(s, PushRefresh)
    ensures QueueOk(Do(s, PushRefresh))
  {
    CapSmall(s.bits);
    GapExact(|s.pushed|, |s.popped|);
  }

  lemma PushWriteKeeps<T>(s: State<T>)
    requires QueueOk(s) && Can(s, PushWrite)
    ensures QueueOk(Do(s, PushWrite))
  {
    var h, s' := |s.pushed|, Do(s, PushWrite);
    SlotWrap(s.bits, h);
    forall k {:trigger Slot(s.bits, k)} | |s.popped| <= k < h
      ensures s'.buffer[Slot(s.bits, k)] == s.pushed[k]
    {
      SlotsDiffer(s.bits, k, h);
    }
  }

  lemma PushStoreKeeps<T>(s: State<T>)
    requires QueueOk(s) && Can(s, PushStore)
    ensures QueueOk(Do(s, PushStore))
  {
    WrapNext(|s.pushed|);
  }

  lemma PopLoadKeeps<T>(s: State<T>)
    requires QueueOk(s) && Can(s, PopLoad)
    ensures QueueOk(Do(s, PopLoad))
  {
    CapSmall(s.bits);
    WrapEqual(s.headSeen, |s.popped|);
  }

  lemma PopRefreshKeeps<T>(s: State<T>)
    requires QueueOk(s) && Can(s, PopRefresh)
    ensures QueueOk(Do(s, PopRefresh))
  {
    CapSmall(s.bits);
    WrapEqual(|s.pushed|, |s.popped|);
  }

  lemma PopReadKeeps<T>(s: State<T>)
    requires QueueOk(s) && Can(s, PopRead)
    ensures QueueOk(Do(s, PopRead))
  {
    SlotWrap(s.bits, |s.popped|);
  }

  lemma PopStoreKeeps<T>(s: State<T>)
    requires QueueOk(s) && Can(s, PopStore)
    ensures QueueOk(Do(s, PopStore))
  {
    WrapNext(|s.popped|);
  }

  lemma StepInv<T>(s: State<T>, step: Step<T>)
    requires Inv(s) && Can(s, step)
    ensures Inv(Do(s, step))
  {
    CallsKept(s, step);
    match step
    case PushBegin(_) =>
    case PushLoad => PushLoadKeeps(s);
    case PushRefresh => PushRefreshKeeps(s);
    case PushWrite => PushWriteKeeps(s);
    case PushStore => PushStoreKeeps(s);
    case PopBegin =>
    case PopLoad => PopLoadKeeps(s);
    case PopRefresh => PopRefreshKeeps(s);
    case PopRead => PopReadKeeps(s);
    case PopStore => PopStoreKeeps(s);
  }

  lemma {:induction false} RunInv<T>(s0: State<T>, steps: seq<Step<T>>)
    requires Init(s0) && Run(s0, steps).Some?
    ensures Inv(Run(s0, steps).value)
  {
    if steps == [] {
      InitInv(s0);
    } else {
      RunInv(s0, steps[..|steps| - 1]);
      StepInv(Run(s0, steps[..|steps| - 1]).value, steps[|steps| - 1]);
    }
  }
}
