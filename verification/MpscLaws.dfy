/** What the multi-producer ring buffer promises over every run. */
module MpscLaws {
  import opened Core
  import opened Ring
  import opened Calls
  import opened Mpsc

  /** The invariant holds in every state any run can reach. */
  lemma {:induction false} RunInv<T>(s0: State<T>, steps: seq<Step<T>>)
    requires Init(s0) && Run(s0, steps).Some?
    ensures Inv(Run(s0, steps).value)
  {
    if steps == [] {
      InitInv(s0);
    } else {
      RunInv(s0, steps[..|steps| - 1]);
      StepInv(Run(s0, steps[..|steps| - 1]).value, steps[|steps| - 1]);
    }
  }

  // ---- Safety -------------------------------------------------------------

  /** However long ago a producer checked, the position its compare-and-swap wins is free:
      whatever the previous lap left in that cell has been read, and nobody else is writing
      there. */
  lemma ClaimsOnlyFreed<T>(s0: State<T>, steps: seq<Step<T>>, p: nat)
    requires Init(s0) && Run(s0, steps).Some?
    requires var s := Run(s0, steps).value;
             Can(s, CompareExchange(p, false)) && s.enqueuePos == s.producers[p].pos
    ensures var s := Run(s0, steps).value;
            && s.enqueuePos < s.freed + Cap(s)
            && At(s, s.enqueuePos).sequence == s.enqueuePos
            && forall q :: 0 <= q < |s.producers| && (s.producers[q].Write? || s.producers[q].Publish?) ==>
                 Slot(s.bits, s.producers[q].pos) != Slot(s.bits, s.enqueuePos)
  {
    var s := Run(s0, steps).value;
    RunInv(s0, steps);
    assert ProducerOk(s, p);
    assert At(s, s.enqueuePos).sequence == s.enqueuePos;
    forall q | 0 <= q < |s.producers| && (s.producers[q].Write? || s.producers[q].Publish?)
      ensures Slot(s.bits, s.producers[q].pos) != Slot(s.bits, s.enqueuePos)
    {
      WriterAlone(s, q);
      SlotsDiffer(s.bits, s.producers[q].pos, s.enqueuePos);
    }
  }

  /** Lock-freedom, as safety: a push goes round its loop again only because somebody else
      claimed a position since it read its own, or because the weak compare-and-swap failed
      spuriously. */
  lemma RetriesArePaidFor<T>(s0: State<T>, steps: seq<Step<T>>, step: Step<T>)
    requires Init(s0) && Run(s0, steps).Some? && Can(Run(s0, steps).value, step)
    ensures var s := Run(s0, steps).value;
            var s' := Do(s, step);
            && (step.CompareExchange? && s'.producers[step.p].LoadSeq? && !step.spurious ==>
                  s.enqueuePos > s.producers[step.p].pos)
            && (step.LoadSequence? && s'.producers[step.p].LoadPos? ==> s.enqueuePos > s.producers[step.p].pos)
  {
    var s := Run(s0, steps).value;
    RunInv(s0, steps);
    TailNotNewer(s);
    if step.CompareExchange? || step.LoadSequence? {
      assert ProducerOk(s, step.p);
    }
  }

  /** The cell at the tail never reads as newer than the tail. */
  lemma TailNotNewer<T>(s: State<T>)
    requires Inv(s)
    ensures At(s, s.enqueuePos).sequence <= s.enqueuePos
  {
    if s.enqueuePos == s.freed + Cap(s) {
      FullTail(s);
    }
  }

  /** The slot whose data a thread is about to touch, if any; the consumer is thread -1. */
  function Touching<T>(s: State<T>, thread: int): Option<nat>
    requires -1 <= thread < |s.producers|
  {
    if thread == -1 then
      if s.consumer.Read? then Some(Slot(s.bits, s.dequeuePos)) else None
    else if s.producers[thread].Write? then Some(Slot(s.bits, s.producers[thread].pos))
    else None
  }

  /** No two threads are ever about to touch the same cell's data. */
  lemma NoDataRace<T>(s0: State<T>, steps: seq<Step<T>>, a: int, b: int)
    requires Init(s0) && Run(s0, steps).Some?
    requires -1 <= a < b < |Run(s0, steps).value.producers|
    ensures var s := Run(s0, steps).value;
            Touching(s, a).Some? && Touching(s, b).Some? ==> Touching(s, a) != Touching(s, b)
  {
    var s := Run(s0, steps).value;
    RunInv(s0, steps);
    if Touching(s, a).Some? && Touching(s, b).Some? {
      WriterAlone(s, b);
      if a == -1 {
        SlotsDiffer(s.bits, s.dequeuePos, s.producers[b].pos);
      } else {
        WriterAlone(s, a);
        SlotsDiffer(s.bits, s.producers[a].pos, s.producers[b].pos);
      }
    }
  }

  // ---- Delivery -----------------------------------------------------------

  /** The consumer's output is exactly the claimed items, in position order, up to where it
      has got: nothing lost, duplicated or torn. */
  lemma ExactlyOnceInOrder<T>(s0: State<T>, steps: seq<Step<T>>)
    requires Init(s0) && Run(s0, steps).Some?
    ensures var s := Run(s0, steps).value;
            && |s.delivered| <= |s.claimed|
            && forall k :: 0 <= k < |s.delivered| ==> s.delivered[k] == s.claimed[k].item
  {
    RunInv(s0, steps);
  }

  /** The items one producer claimed, in position order. */
  function ClaimsOf<T>(claimed: seq<Claim<T>>, p: nat): seq<T> {
    if claimed == [] then []
    else
      var last := claimed[|claimed| - 1];
      ClaimsOf(claimed[..|claimed| - 1], p) + (if last.pid == p then [last.item] else [])
  }

  function InFlight<T>(pc: Producer<T>): seq<T> {
    if pc.Write? || pc.Publish? then [pc.item] else []
  }

  /** The arguments of a producer's calls over a run, in call order. */
  function CallsOf<T>(steps: seq<Step<T>>, p: nat): seq<T> {
    if steps == [] then []
    else
      var last := steps[|steps| - 1];
      CallsOf(steps[..|steps| - 1], p) + (if last.Begin? && last.p == p then [last.item] else [])
  }

  /** A producer inside a call still holds that call's argument, whatever it went through. */
  predicate CallOk<T(==)>(pc: Producer<T>, log: Log<T>) {
    if pc.Idle? then Quiet(log) else Within(log, pc.item)
  }

  /** A producer's claims are the arguments of its successful calls in call order, then the
      one in flight. */
  ghost predicate Holds<T>(pc: Producer<T>, log: Log<T>, claims: seq<T>) {
    CallOk(pc, log) && claims == Succeeded(log.called, log.answers) + InFlight(pc)
  }

  ghost predicate LogOk<T>(s: State<T>, p: nat) {
    p < |s.producers| == |s.logs| && Holds(s.producers[p], s.logs[p], ClaimsOf(s.claimed, p))
  }

  lemma HoldsBegun<T>(log: Log<T>, claims: seq<T>, item: T)
    requires Holds(Idle, log, claims)
    ensures Holds(LoadPos(item), Opened(log, item), claims)
  {
    SucceededOpened(log.called, log.answers, item);
  }

  /** Moving on inside the call without claiming. */
  lemma HoldsMoved<T>(pc: Producer<T>, pc': Producer<T>, log: Log<T>, claims: seq<T>)
    requires Holds(pc, log, claims) && !pc.Idle? && !pc'.Idle? && pc'.item == pc.item && InFlight(pc') == InFlight(pc)
    ensures Holds(pc', log, claims)
  {
  }

  lemma HoldsClaimed<T>(pc: Producer<T>, log: Log<T>, claims: seq<T>, pos: nat)
    requires Holds(pc, log, claims) && pc.Cas?
    ensures Holds(Write(pc.item, pos), log, claims + [pc.item])
  {
  }

  /** Returning false before claiming, or true after publishing. */
  lemma HoldsAnswered<T>(pc: Producer<T>, log: Log<T>, claims: seq<T>, answer: bool)
    requires Holds(pc, log, claims) && !pc.Idle? && (answer <==> InFlight(pc) != [])
    ensures Holds(Idle, Closed(log, answer), claims)
  {
    SucceededClosed(log.called, log.answers, answer);
  }

  lemma ClaimsAppend<T>(claimed: seq<Claim<T>>, c: Claim<T>, p: nat)
    ensures ClaimsOf(claimed + [c], p) == ClaimsOf(claimed, p) + (if c.pid == p then [c.item] else [])
  {
    assert (claimed + [c])[..|claimed|] == claimed;
  }

  lemma BeginLog<T>(s: State<T>, q: nat, item: T, p: nat)
    requires Can(s, Begin(q, item)) && p < |s.producers| && LogOk(s, p)
    ensures LogOk(Do(s, Begin(q, item)), p)
  {
    if q == p {
      HoldsBegun(s.logs[p], ClaimsOf(s.claimed, p), item);
    }
  }

  lemma LoadLog<T>(s: State<T>, q: nat, p: nat)
    requires Can(s, LoadSequence(q)) && p < |s.producers| && LogOk(s, p)
    ensures LogOk(Do(s, LoadSequence(q)), p)
  {
    if q == p {
      var s', claims := Do(s, LoadSequence(p)), ClaimsOf(s.claimed, p);
      if s'.producers[p].Idle? {
        HoldsAnswered(s.producers[p], s.logs[p], claims, false);
      } else {
        HoldsMoved(s.producers[p], s'.producers[p], s.logs[p], claims);
      }
    }
  }

  lemma ClaimLog<T>(s: State<T>, q: nat, spurious: bool, p: nat)
    requires Can(s, CompareExchange(q, spurious)) && p < |s.producers| && LogOk(s, p)
    ensures LogOk(Do(s, CompareExchange(q, spurious)), p)
  {
    var me := s.producers[q];
    if s.enqueuePos == me.pos && !spurious {
      WonLog(s, q, p);
    } else if q == p {
      HoldsMoved(me, LoadSeq(me.item, s.enqueuePos), s.logs[p], ClaimsOf(s.claimed, p));
    }
  }

  lemma WonLog<T>(s: State<T>, q: nat, p: nat)
    requires Can(s, CompareExchange(q, false)) && p < |s.producers| && LogOk(s, p)
    requires s.enqueuePos == s.producers[q].pos
    ensures LogOk(Do(s, CompareExchange(q, false)), p)
  {
    var me, s' := s.producers[q], Do(s, CompareExchange(q, false));
    ClaimsAppend(s.claimed, Claim(q, me.item), p);
    if q == p {
      HoldsClaimed(me, s.logs[p], ClaimsOf(s.claimed, p), me.pos);
    } else {
      assert s'.producers[p] == s.producers[p] && ClaimsOf(s'.claimed, p) == ClaimsOf(s.claimed, p) + [];
    }
  }

  lemma PublishLog<T>(s: State<T>, q: nat, p: nat)
    requires Can(s, StoreSequence(q)) && p < |s.producers| && LogOk(s, p)
    ensures LogOk(Do(s, StoreSequence(q)), p)
  {
    if q == p {
      HoldsAnswered(s.producers[p], s.logs[p], ClaimsOf(s.claimed, p), true);
    }
  }

  lemma QuietLog<T>(s: State<T>, step: Step<T>, p: nat)
    requires Can(s, step) && p < |s.producers| && LogOk(s, p)
    requires !step.Begin? && !step.LoadSequence? && !step.CompareExchange? && !step.StoreSequence?
    ensures LogOk(Do(s, step), p)
  {
    var s' := Do(s, step);
    if !s.producers[p].Idle? && (step.LoadEnqueue? || step.WriteData?) && step.p == p {
      HoldsMoved(s.producers[p], s'.producers[p], s.logs[p], ClaimsOf(s.claimed, p));
    }
  }

  lemma StepLog<T>(s: State<T>, step: Step<T>, p: nat)
    requires Can(s, step) && p < |s.producers| && LogOk(s, p)
    ensures LogOk(Do(s, step), p)
  {
    match step
    case Begin(q, item) => BeginLog(s, q, item, p);
    case LoadSequence(q) => LoadLog(s, q, p);
    case CompareExchange(q, spurious) => ClaimLog(s, q, spurious, p);
    case StoreSequence(q) => PublishLog(s, q, p);
    case _ => QuietLog(s, step, p);
  }

  lemma StepCalled<T>(s: State<T>, step: Step<T>, p: nat)
    requires Can(s, step) && p < |s.producers|
    ensures var s' := Do(s, step);
            && |s'.producers| == |s'.logs| == |s.producers|
            && s'.logs[p].called == s.logs[p].called + (if step.Begin? && step.p == p then [step.item] else [])
  {
  }

  lemma {:induction false} RunLog<T>(s0: State<T>, steps: seq<Step<T>>, p: nat)
    requires Init(s0) && Run(s0, steps).Some? && p < |s0.producers|
    ensures var s := Run(s0, steps).value;
            && |s.producers| == |s.logs| == |s0.producers| && LogOk(s, p)
            && s.logs[p].called == CallsOf(steps, p)
  {
    if steps != [] {
      var s := Run(s0, steps[..|steps| - 1]).value;
      RunLog(s0, steps[..|steps| - 1], p);
      StepCalled(s, steps[|steps| - 1], p);
      StepLog(s, steps[|steps| - 1], p);
    }
  }

  lemma {:induction false} ClaimsPrefix<T>(claimed: seq<Claim<T>>, k: nat, p: nat)
    requires k <= |claimed|
    ensures ClaimsOf(claimed[..k], p) <= ClaimsOf(claimed, p)
    ensures k < |claimed| && claimed[k].pid == p ==> |ClaimsOf(claimed[..k], p)| < |ClaimsOf(claimed, p)|
  {
    if k == |claimed| {
      assert claimed[..k] == claimed;
    } else {
      var init := claimed[..|claimed| - 1];
      ClaimsPrefix(init, k, p);
      assert init[..k] == claimed[..k];
    }
  }

  /** A call in progress carries its argument unchanged to the end, and returns true exactly
      when it has claimed a position with it. */
  lemma CallCarriesArgument<T>(s0: State<T>, steps: seq<Step<T>>, p: nat)
    requires Init(s0) && Run(s0, steps).Some? && p < |s0.producers|
    ensures var s := Run(s0, steps).value;
            var calls := CallsOf(steps, p);
            && p < |s.producers| == |s.logs|
            && |s.logs[p].answers| == |calls| - (if s.producers[p].Idle? then 0 else 1)
            && (!s.producers[p].Idle? ==> s.producers[p].item == calls[|calls| - 1])
            && ClaimsOf(s.claimed, p) == Succeeded(calls, s.logs[p].answers) + InFlight(s.producers[p])
  {
    RunLog(s0, steps, p);
  }

  /** What the consumer has received from a producer is a prefix of the arguments of that
      producer's successful calls, in the order it made them. */
  lemma PerProducerOrder<T>(s0: State<T>, steps: seq<Step<T>>, p: nat)
    requires Init(s0) && Run(s0, steps).Some? && p < |s0.producers|
    ensures var s := Run(s0, steps).value;
            && |s.delivered| <= |s.claimed| && p < |s.logs|
            && ClaimsOf(s.claimed[..|s.delivered|], p) <= Succeeded(CallsOf(steps, p), s.logs[p].answers)
  {
    var s := Run(s0, steps).value;
    RunInv(s0, steps);
    RunLog(s0, steps, p);
    var d, got := |s.delivered|, Succeeded(CallsOf(steps, p), s.logs[p].answers);
    ClaimsPrefix(s.claimed, d, p);
    if InFlight(s.producers[p]) != [] {
      WriterAlone(s, p);
      var pos := s.producers[p].pos;
      ClaimsPrefix(s.claimed, pos, p);
      ClaimsPrefix(s.claimed[..pos], d, p);
      assert s.claimed[..pos][..d] == s.claimed[..d];
      assert |ClaimsOf(s.claimed[..d], p)| <= |got|;
    }
    assert got == (got + InFlight(s.producers[p]))[..|got|];
  }

  // ---- Failed calls -------------------------------------------------------

  /** A push fails at its load exactly when it is looking at the tail and every cell is claimed
      and unfreed at that instant; a staler position is never a failure. */
  lemma FailedPushExact<T>(s0: State<T>, steps: seq<Step<T>>, p: nat)
    requires Init(s0) && Run(s0, steps).Some? && Can(Run(s0, steps).value, LoadSequence(p))
    ensures var s := Run(s0, steps).value;
            Do(s, LoadSequence(p)).producers[p] == Idle <==>
            s.producers[p].pos == s.enqueuePos == s.freed + Cap(s)
  {
    var s := Run(s0, steps).value;
    RunInv(s0, steps);
    assert ProducerOk(s, p);
    if At(s, s.producers[p].pos).sequence <= s.producers[p].pos {
      CheckedFree(s, s.producers[p].pos);
    }
    if s.enqueuePos == s.freed + Cap(s) {
      FullTail(s);
    }
  }

  /** On a full ring the tail's cell still holds the item a lap behind. */
  lemma FullTail<T>(s: State<T>)
    requires Inv(s) && s.enqueuePos == s.freed + Cap(s)
    ensures At(s, s.enqueuePos).sequence < s.enqueuePos
  {
    SlotLap(s.bits, s.freed);
    TwoCells(s.bits);
    assert ClaimedOk(s, s.freed);
  }

  /** A pop fails exactly when nothing is claimed or the head position's producer has not
      published it yet. */
  lemma FailedPopExact<T>(s0: State<T>, steps: seq<Step<T>>)
    requires Init(s0) && Run(s0, steps).Some? && Can(Run(s0, steps).value, PopCheck)
    ensures var s := Run(s0, steps).value;
            Do(s, PopCheck).consumer == Check <==> s.freed >= |s.claimed| || Writing(s, s.freed)
  {
    RunInv(s0, steps);
    PublishedAt(Run(s0, steps).value);
  }

  // ---- Running alone ------------------------------------------------------

  predicate OnlyBy<T>(steps: seq<Step<T>>, p: nat) {
    forall k :: 0 <= k < |steps| ==>
      !steps[k].PopCheck? && !steps[k].PopRead? && !steps[k].PopFree? && !steps[k].PopAdvance? && steps[k].p == p
  }

  lemma {:induction false} RunFrom<T>(s: State<T>, step: Step<T>, steps: seq<Step<T>>)
    requires Can(s, step) && Run(Do(s, step), steps).Some?
    ensures Run(s, [step] + steps) == Run(Do(s, step), steps)
  {
    var all := [step] + steps;
    if steps == [] {
      assert all[..0] == [] && Run(s, []) == Some(s);
    } else {
      RunFrom(s, step, steps[..|steps| - 1]);
      assert all[..|all| - 1] == [step] + steps[..|steps| - 1];
    }
  }

  /** Producer `p` finished its call with this answer and nobody else moved. */
  ghost predicate Finished<T>(s: State<T>, s': State<T>, p: nat, answer: bool) {
    && p < |s.producers| == |s.logs| && s'.producers == s.producers[p := Idle]
    && s'.logs == s.logs[p := Closed(s.logs[p], answer)]
    && s'.consumer == s.consumer && s'.delivered == s.delivered
    && s'.freed == s.freed && s'.dequeuePos == s.dequeuePos && s'.bits == s.bits
  }

  /** Steps of producer `p` alone that finish its call. */
  ghost predicate Completes<T>(s: State<T>, steps: seq<Step<T>>, p: nat, answer: bool) {
    OnlyBy(steps, p) && Run(s, steps).Some? && Finished(s, Run(s, steps).value, p, answer)
  }

  /** A step inside the call before steps that finish it. */
  lemma Chained<T>(s: State<T>, step: Step<T>, steps: seq<Step<T>>, p: nat, answer: bool)
    requires Can(s, step) && Completes(Do(s, step), steps, p, answer) && !Do(s, step).producers[p].Idle?
    requires || step == LoadEnqueue(p) || step == LoadSequence(p)
             || step == CompareExchange(p, false) || step == WriteData(p)
    ensures Completes(s, [step] + steps, p, answer)
  {
    var s1 := Do(s, step);
    RunFrom(s, step, steps);
    assert s.producers[p := s1.producers[p]][p := Idle] == s.producers[p := Idle];
  }

  lemma FinishPublish<T>(s: State<T>, p: nat)
    requires Can(s, StoreSequence(p))
    ensures Completes(s, [StoreSequence(p)], p, true)
  {
    var steps: seq<Step<T>> := [StoreSequence(p)];
    RunFrom(s, StoreSequence(p), []);
    assert steps + [] == steps;
  }

  lemma FinishWrite<T>(s: State<T>, p: nat)
    requires Can(s, WriteData(p))
    ensures Completes(s, [WriteData(p)] + [StoreSequence(p)], p, true)
  {
    FinishPublish(Do(s, WriteData(p)), p);
    Chained(s, WriteData(p), [StoreSequence(p)], p, true);
  }

  lemma FinishClaim<T>(s: State<T>, p: nat) returns (steps: seq<Step<T>>)
    requires Can(s, CompareExchange(p, false)) && s.producers[p].pos == s.enqueuePos
    ensures Completes(s, steps, p, true) && |steps| == 3
  {
    steps := [WriteData(p)] + [StoreSequence(p)];
    FinishWrite(Do(s, CompareExchange(p, false)), p);
    Chained(s, CompareExchange(p, false), steps, p, true);
    steps := [CompareExchange(p, false)] + steps;
  }

  predicate Room<T>(s: State<T>) {
    s.enqueuePos < s.freed + Cap(s)
  }

  /** Looking at the tail, a producer alone claims it if there is room and fails if not. */
  lemma FinishTail<T>(s: State<T>, p: nat) returns (steps: seq<Step<T>>)
    requires Inv(s) && Can(s, LoadSequence(p)) && s.producers[p].pos == s.enqueuePos
    ensures Completes(s, steps, p, Room(s)) && |steps| <= 4
  {
    if Room(s) {
      assert At(s, s.enqueuePos).sequence == s.enqueuePos;
      steps := FinishClaim(Do(s, LoadSequence(p)), p);
      Chained(s, LoadSequence(p), steps, p, true);
      steps := [LoadSequence(p)] + steps;
    } else {
      FullTail(s);
      RunFrom(s, LoadSequence(p), []);
      steps := [LoadSequence(p)] + [];
    }
  }

  lemma FinishLoad<T>(s: State<T>, p: nat) returns (steps: seq<Step<T>>)
    requires Inv(s) && Can(s, LoadEnqueue(p))
    ensures Completes(s, steps, p, Room(s)) && |steps| <= 5
  {
    var s1 := Do(s, LoadEnqueue(p));
    StepInv(s, LoadEnqueue(p));
    steps := FinishTail(s1, p);
    Chained(s, LoadEnqueue(p), steps, p, Room(s));
    steps := [LoadEnqueue(p)] + steps;
  }

  lemma FinishCas<T>(s: State<T>, p: nat) returns (steps: seq<Step<T>>)
    requires Inv(s) && Can(s, CompareExchange(p, false))
    ensures Completes(s, steps, p, Room(s)) && |steps| <= 5
  {
    var step := CompareExchange(p, false);
    if s.producers[p].pos == s.enqueuePos {
      assert ProducerOk(s, p);
      steps := FinishClaim(s, p);
    } else {
      StepInv(s, step);
      steps := FinishTail(Do(s, step), p);
      Chained(s, step, steps, p, Room(s));
      steps := [step] + steps;
    }
  }

  lemma FinishStale<T>(s: State<T>, p: nat) returns (steps: seq<Step<T>>)
    requires Inv(s) && Can(s, LoadSequence(p)) && s.producers[p].pos != s.enqueuePos
    ensures Completes(s, steps, p, Room(s)) && |steps| <= 6
  {
    var s1 := Do(s, LoadSequence(p));
    StepInv(s, LoadSequence(p));
    assert ProducerOk(s, p);
    if At(s, s.producers[p].pos).sequence <= s.producers[p].pos {
      CheckedFree(s, s.producers[p].pos);
      steps := FinishCas(s1, p);
    } else {
      steps := FinishLoad(s1, p);
    }
    Chained(s, LoadSequence(p), steps, p, Room(s));
    steps := [LoadSequence(p)] + steps;
  }

  /** From every reachable state a push in progress, however stale what it saw, finishes within
      six steps of its own if the others stand still: true if it has claimed or there is room,
      false if not. */
  lemma AlonePushFinishes<T>(s0: State<T>, before: seq<Step<T>>, s: State<T>, p: nat) returns (steps: seq<Step<T>>)
    requires Init(s0) && Run(s0, before) == Some(s) && p < |s.producers| && !s.producers[p].Idle?
    ensures Completes(s, steps, p, InFlight(s.producers[p]) != [] || Room(s)) && |steps| <= 6
  {
    RunInv(s0, before);
    match s.producers[p]
    case LoadPos(_) => steps := FinishLoad(s, p);
    case LoadSeq(_, pos) =>
      if pos == s.enqueuePos {
        steps := FinishTail(s, p);
      } else {
        steps := FinishStale(s, p);
      }
    case Cas(_, _) => steps := FinishCas(s, p);
    case Write(_, _) =>
      FinishWrite(s, p);
      steps := [WriteData(p)] + [StoreSequence(p)];
    case Publish(_, _) =>
      FinishPublish(s, p);
      steps := [StoreSequence(p)];
  }

  function After<T>(s: Option<State<T>>, step: Step<T>): Option<State<T>> {
    match s
    case None => None
    case Some(r) => if Can(r, step) then Some(Do(r, step)) else None
  }

  lemma RunLast<T>(s: State<T>, steps: seq<Step<T>>, step: Step<T>)
    ensures Run(s, steps + [step]) == After(Run(s, steps), step)
  {
    assert (steps + [step])[..|steps|] == steps;
  }

  lemma {:induction false} RunAfter<T>(s: State<T>, steps: seq<Step<T>>, later: seq<Step<T>>, r: State<T>)
    requires Run(s, steps) == Some(r)
    ensures Run(s, steps + later) == Run(r, later)
  {
    if later == [] {
      assert steps + later == steps;
    } else {
      var init, last := later[..|later| - 1], later[|later| - 1];
      calc {
        Run(s, steps + later);
      == { assert steps + later == steps + init + [last]; RunLast(s, steps + init, last); }
        After(Run(s, steps + init), last);
      == { RunAfter(s, steps, init, r); }
        After(Run(r, init), last);
      == { assert later == init + [last]; RunLast(r, init, last); }
        Run(r, later);
      }
    }
  }

  /** A pop of a published head, with the others standing still, delivers the item claimed there
      in four steps. */
  lemma AlonePopDelivers<T>(s0: State<T>, before: seq<Step<T>>, s: State<T>)
    requires Init(s0) && Run(s0, before) == Some(s) && s.consumer == Check
    requires s.freed < |s.claimed| && !Writing(s, s.freed)
    ensures var steps := [PopCheck] + ([PopRead] + ([PopFree] + ([PopAdvance] + [])));
            && Run(s, steps).Some? && s.dequeuePos < |s.claimed|
            && Run(s, steps).value.delivered == s.delivered + [s.claimed[s.dequeuePos].item]
            && Run(s, steps).value.dequeuePos == s.dequeuePos + 1
  {
    RunInv(s0, before);
    PublishedAt(s);
    var s1 := Do(s, PopCheck);
    var s2 := Do(s1, PopRead);
    var s3 := Do(s2, PopFree);
    RunFrom(s3, PopAdvance, []);
    RunFrom(s2, PopFree, [PopAdvance] + []);
    RunFrom(s1, PopRead, [PopFree] + ([PopAdvance] + []));
    RunFrom(s, PopCheck, [PopRead] + ([PopFree] + ([PopAdvance] + [])));
  }

  lemma RunOne<T>(s: State<T>, step: Step<T>)
    requires Can(s, step)
    ensures Run(s, [step]) == Some(Do(s, step))
  {
    assert [step][..0] == [] && Run(s, []) == Some(s);
  }

  /** The state in which the first producer has claimed position 0 and not written it. */
  function Slowed<T>(s0: State<T>, slow: T): State<T>
    requires |s0.producers| >= 2 && |s0.logs| >= 2
  {
    WithLog(WithProducer(s0, 0, Write(slow, 0)), 0, Opened(s0.logs[0], slow)).(
      enqueuePos := 1, claimed := s0.claimed + [Claim(0, slow)])
  }

  lemma SlowClaim<T>(s0: State<T>, slow: T) returns (steps: seq<Step<T>>)
    requires Init(s0) && |s0.producers| >= 2
    ensures Run(s0, steps) == Some(Slowed(s0, slow))
  {
    InitInv(s0);
    var s1 := Do(s0, Begin(0, slow));
    var s2 := s1.(producers := s0.producers[0 := LoadSeq(slow, 0)]);
    var s3 := s1.(producers := s0.producers[0 := Cas(slow, 0)]);
    assert s2 == Do(s1, LoadEnqueue(0));
    assert At(s0, 0).sequence == 0 && s3 == Do(s2, LoadSequence(0));
    assert s3.producers[0 := Write(slow, 0)] == s0.producers[0 := Write(slow, 0)];
    steps := [CompareExchange(0, false)];
    RunOne(s3, CompareExchange(0, false));
    RunFrom(s2, LoadSequence(0), steps);
    steps := [LoadSequence(0)] + steps;
    RunFrom(s1, LoadEnqueue(0), steps);
    steps := [LoadEnqueue(0)] + steps;
    RunFrom(s0, Begin(0, slow), steps);
    steps := [Begin(0, slow)] + steps;
  }

  /** A failed pop does not mean the queue is empty: from every initial state with two producers
      there is a run in which a slow first producer hides the second's published item. */
  lemma FailedPopNotEmpty<T>(s0: State<T>, slow: T, fast: T) returns (steps: seq<Step<T>>)
    requires Init(s0) && |s0.producers| >= 2
    ensures Run(s0, steps).Some?
    ensures var s := Run(s0, steps).value;
            && Can(s, PopCheck) && Do(s, PopCheck) == s
            && |s.logs| > 1 && s.logs[1] == Log([fast], [true]) && s.delivered == []
  {
    var s1 := Slowed(s0, slow);
    steps := SlowClaim(s0, slow);
    var s2 := Do(s1, Begin(1, fast));
    RunOne(s1, Begin(1, fast));
    RunAfter(s0, steps, [Begin(1, fast)], s1);
    steps := steps + [Begin(1, fast)];
    TwoCells(s0.bits);
    var second := AlonePushFinishes(s0, steps, s2, 1);
    RunAfter(s0, steps, second, s2);
    steps := steps + second;
    RunInv(s0, steps);
    assert ProducerOk(Run(s0, steps).value, 0);
  }
}
