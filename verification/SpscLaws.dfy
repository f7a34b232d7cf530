/** What the single-producer ring buffer promises over every run. */
module SpscLaws {
  import opened Core
  import opened Ring
  import opened Calls
  import opened Spsc

  /** The abstract queue: pushed and not yet popped. */
  ghost function Contents<T>(s: State<T>): seq<T>
    requires |s.popped| <= |s.pushed|
  {
    s.pushed[|s.popped|..]
  }

  /** A step, seen through the calls alone: a push that returns true appends its argument to a
      queue that is not full, one that returns false finds it full; a pop that gives an item
      takes the oldest, one that gives none finds the queue empty; and no other step is
      visible. */
  ghost predicate FifoStep<T>(s: State<T>, s': State<T>)
    requires |s.popped| <= |s.pushed| && |s'.popped| <= |s'.pushed|
  {
    || (&& |s.log.called| == |s.log.answers| + 1 && s'.log == Closed(s.log, true) && s'.pops == s.pops
        && |Contents(s)| < Cap(s) && Contents(s') == Contents(s) + [s.log.called[|s.log.answers|]])
    || (&& s'.log == Closed(s.log, false) && s'.pops == s.pops
        && |Contents(s)| == Cap(s) && Contents(s') == Contents(s))
    || (&& Contents(s) != [] && s'.pops == s.pops + [Some(Contents(s)[0])] && s'.log == s.log
        && Contents(s') == Contents(s)[1..])
    || (&& s'.pops == s.pops + [None] && s'.log == s.log
        && Contents(s) == [] && Contents(s') == [])
    || (s'.log.answers == s.log.answers && s'.pops == s.pops && Contents(s') == Contents(s))
  }

  /** Every run refines a FIFO of bounded size. */
  lemma RefinesBoundedFifo<T>(s0: State<T>, steps: seq<Step<T>>, step: Step<T>)
    requires Init(s0) && Run(s0, steps).Some? && Can(Run(s0, steps).value, step)
    ensures var s := Run(s0, steps).value;
            var s' := Do(s, step);
            && |s.popped| <= |s.pushed| && |s'.popped| <= |s'.pushed|
            && |Contents(s)| <= Cap(s) && FifoStep(s, s')
  {
    RunInv(s0, steps);
    StepRefines(Run(s0, steps).value, step);
  }

  lemma PushStoreRefines<T>(s: State<T>)
    requires Inv(s) && Can(s, PushStore)
    ensures |s.popped| <= |s.pushed| && FifoStep(s, Do(s, PushStore))
  {
    assert (s.pushed + [s.producer.item])[|s.popped|..] == Contents(s) + [s.producer.item];
  }

  lemma PopStoreRefines<T>(s: State<T>)
    requires Inv(s) && Can(s, PopStore)
    ensures |s.popped| < |s.pushed| && FifoStep(s, Do(s, PopStore))
  {
    assert s.pushed[|s.popped| + 1..] == Contents(s)[1..];
  }

  lemma RefreshRefines<T>(s: State<T>, step: Step<T>)
    requires Inv(s) && Can(s, step) && (step.PushRefresh? || step.PopRefresh?)
    ensures |s.popped| <= |s.pushed| && FifoStep(s, Do(s, step))
  {
    NaiveIsExact(s);
  }

  lemma OtherRefines<T>(s: State<T>, step: Step<T>)
    requires Inv(s) && Can(s, step)
    requires !step.PushStore? && !step.PopStore? && !step.PushRefresh? && !step.PopRefresh?
    ensures |s.popped| <= |s.pushed| && FifoStep(s, Do(s, step))
  {
  }

  lemma StepRefines<T>(s: State<T>, step: Step<T>)
    requires Inv(s) && Can(s, step)
    ensures var s' := Do(s, step);
            |s.popped| <= |s.pushed| && |s'.popped| <= |s'.pushed| && FifoStep(s, s')
  {
    match step
    case PushStore => PushStoreRefines(s);
    case PopStore => PopStoreRefines(s);
    case PushRefresh => RefreshRefines(s, step);
    case PopRefresh => RefreshRefines(s, step);
    case _ => OtherRefines(s, step);
  }

  /** The arguments of the pushes of a run, in call order. */
  function PushesOf<T>(steps: seq<Step<T>>): seq<T> {
    if steps == [] then []
    else
      var last := steps[|steps| - 1];
      PushesOf(steps[..|steps| - 1]) + (if last.PushBegin? then [last.item] else [])
  }

  lemma {:induction false} RunCalled<T>(s0: State<T>, steps: seq<Step<T>>)
    requires Init(s0) && Run(s0, steps).Some?
    ensures Run(s0, steps).value.log.called == PushesOf(steps)
  {
    if steps != [] {
      RunCalled(s0, steps[..|steps| - 1]);
    }
  }

  /** What the pops returned is, in order, the arguments of the pushes that returned true, as far
      as the consumer has got. */
  lemma FirstInFirstOut<T>(s0: State<T>, steps: seq<Step<T>>)
    requires Init(s0) && Run(s0, steps).Some?
    ensures var s := Run(s0, steps).value;
            Received(s.pops) <= Succeeded(PushesOf(steps), s.log.answers)
  {
    RunInv(s0, steps);
    RunCalled(s0, steps);
  }

  /** The decision of the baseline queue that re-reads the other counter on every call. */
  predicate NaiveRejectsPush<T>(s: State<T>) {
    Gap(s.head, s.tail) >= Cap(s)
  }

  predicate NaiveRejectsPop<T>(s: State<T>) {
    s.tail == s.head
  }

  /** The baseline rejects exactly on a full, respectively empty, queue. */
  lemma NaiveIsExact<T>(s: State<T>)
    requires Inv(s)
    ensures NaiveRejectsPush(s) <==> |Contents(s)| == Cap(s)
    ensures NaiveRejectsPop(s) <==> Contents(s) == []
  {
    CapSmall(s.bits);
    GapExact(|s.pushed|, |s.popped|);
    WrapEqual(|s.pushed|, |s.popped|);
  }

  /** The cached queue decides as the baseline would at the same instant: a fast-path accept
      is an accept, and a push (pop) fails exactly when the queue is full (empty) at its load
      of the other counter. */
  lemma DecidesAsNaive<T>(s0: State<T>, steps: seq<Step<T>>, step: Step<T>)
    requires Init(s0) && Run(s0, steps).Some? && Can(Run(s0, steps).value, step)
    ensures var s := Run(s0, steps).value;
            var s' := Do(s, step);
            && |s.popped| <= |s.pushed|
            && (step.PushLoad? && s'.producer.PWrite? ==> !NaiveRejectsPush(s))
            && (step.PushRefresh? ==> (s'.producer.PIdle? <==> NaiveRejectsPush(s)))
            && (step.PushRefresh? ==> (s'.producer.PIdle? <==> |Contents(s)| == Cap(s)))
            && (step.PopLoad? && s'.consumer.CRead? ==> !NaiveRejectsPop(s))
            && (step.PopRefresh? ==> (s'.consumer.CIdle? <==> NaiveRejectsPop(s)))
            && (step.PopRefresh? ==> (s'.consumer.CIdle? <==> Contents(s) == []))
  {
    var s := Run(s0, steps).value;
    RunInv(s0, steps);
    StepInv(s, step);
    NaiveIsExact(s);
  }

  // ---- Running alone ------------------------------------------------------

  lemma {:induction false} RunFrom<T>(s: State<T>, step: Step<T>, steps: seq<Step<T>>)
    requires Can(s, step) && Run(Do(s, step), steps).Some?
    ensures Run(s, [step] + steps) == Run(Do(s, step), steps)
  {
    var all := [step] + steps;
    if steps == [] {
      assert all[..0] == [] && Run(s, []) == Some(s);
    } else {
      RunFrom(s, step, steps[..|steps| - 1]);
      assert all[..|all| - 1] == [step] + steps[..|steps| - 1];
    }
  }

  function PushLeft<T>(pc: Producer<T>): nat {
    match pc
    case PIdle => 0
    case PStart(_) => 4
    case PRefresh(_, _) => 3
    case PWrite(_, _) => 2
    case PStore(_, _) => 1
  }

  function NextPush<T>(pc: Producer<T>): Step<T>
    requires !pc.PIdle?
  {
    match pc
    case PStart(_) => PushLoad
    case PRefresh(_, _) => PushRefresh
    case PWrite(_, _) => PushWrite
    case PStore(_, _) => PushStore
  }

  /** One step of a push alone: it answers, by whether there was room, or goes on with the queue
      unchanged. */
  lemma PushMoves<T>(s: State<T>)
    requires Inv(s) && !s.producer.PIdle? && |s.buffer| == Cap(s)
    ensures var s' := Do(s, NextPush(s.producer));
            && Inv(s') && s'.pops == s.pops && Cap(s') == Cap(s) && PushLeft(s'.producer) < PushLeft(s.producer)
            && (if s'.producer.PIdle? then s'.log == Closed(s.log, |Contents(s)| < Cap(s))
                else s'.log == s.log && Contents(s') == Contents(s))
  {
    StepInv(s, NextPush(s.producer));
    StepRefines(s, NextPush(s.producer));
  }

  /** Push steps that finish the call in progress, with the answer the queue as it stands asks
      for. */
  ghost predicate PushAnswered<T>(s: State<T>, steps: seq<Step<T>>)
    requires |s.popped| <= |s.pushed|
  {
    && (forall k :: 0 <= k < |steps| ==> IsPush(steps[k]))
    && Run(s, steps).Some?
    && var s' := Run(s, steps).value;
    s'.producer.PIdle? && s'.pops == s.pops && s'.log == Closed(s.log, |Contents(s)| < Cap(s))
  }

  lemma PushPrepend<T>(s: State<T>, step: Step<T>, s1: State<T>, steps: seq<Step<T>>)
    requires Can(s, step) && IsPush(step) && s1 == Do(s, step)
    requires |s.popped| <= |s.pushed| && |s1.popped| <= |s1.pushed|
    requires if s1.producer.PIdle? then
               steps == [] && s1.pops == s.pops && s1.log == Closed(s.log, |Contents(s)| < Cap(s))
             else
               PushAnswered(s1, steps) && s1.pops == s.pops && s1.log == s.log && Contents(s1) == Contents(s)
               && Cap(s1) == Cap(s)
    ensures PushAnswered(s, [step] + steps)
  {
    RunFrom(s, step, steps);
  }

  lemma {:induction false} PushesOn<T>(s: State<T>) returns (steps: seq<Step<T>>)
    requires Inv(s) && !s.producer.PIdle?
    ensures |steps| <= PushLeft(s.producer) && PushAnswered(s, steps)
    decreases PushLeft(s.producer)
  {
    var s1 := Do(s, NextPush(s.producer));
    PushMoves(s);
    if s1.producer.PIdle? {
      steps := [];
    } else {
      steps := PushesOn(s1);
    }
    PushPrepend(s, NextPush(s.producer), s1, steps);
    steps := [NextPush(s.producer)] + steps;
  }

  /** From every reachable state a push in progress finishes within four steps of its own if the
      consumer stands still, and returns true exactly if the queue is not full. */
  lemma AlonePushFinishes<T>(s0: State<T>, before: seq<Step<T>>, s: State<T>) returns (steps: seq<Step<T>>)
    requires Init(s0) && Run(s0, before) == Some(s) && !s.producer.PIdle?
    ensures |steps| <= 4 && forall k :: 0 <= k < |steps| ==> IsPush(steps[k])
    ensures Run(s, steps).Some? && |s.popped| <= |s.pushed|
    ensures var s' := Run(s, steps).value;
            s'.producer.PIdle? && s'.pops == s.pops && s'.log == Closed(s.log, |Contents(s)| < Cap(s))
  {
    RunInv(s0, before);
    steps := PushesOn(s);
  }

  function PopLeft<T>(pc: Consumer<T>): nat {
    match pc
    case CIdle => 0
    case CStart => 4
    case CRefresh(_) => 3
    case CRead(_) => 2
    case CStore(_, _) => 1
  }

  function NextPop<T>(pc: Consumer<T>): Step<T>
    requires !pc.CIdle?
  {
    match pc
    case CStart => PopLoad
    case CRefresh(_) => PopRefresh
    case CRead(_) => PopRead
    case CStore(_, _) => PopStore
  }

  function Oldest<T>(contents: seq<T>): Option<T> {
    if contents == [] then None else Some(contents[0])
  }

  lemma PopMoves<T>(s: State<T>)
    requires Inv(s) && !s.consumer.CIdle? && |s.buffer| == Cap(s)
    ensures var s' := Do(s, NextPop(s.consumer));
            && Inv(s') && s'.log == s.log && PopLeft(s'.consumer) < PopLeft(s.consumer)
            && (if s'.consumer.CIdle? then s'.pops == s.pops + [Oldest(Contents(s))]
                else s'.pops == s.pops && Contents(s') == Contents(s))
  {
    StepInv(s, NextPop(s.consumer));
    StepRefines(s, NextPop(s.consumer));
  }

  ghost predicate PopAnswered<T>(s: State<T>, steps: seq<Step<T>>)
    requires |s.popped| <= |s.pushed|
  {
    && (forall k :: 0 <= k < |steps| ==> !IsPush(steps[k]))
    && Run(s, steps).Some?
    && var s' := Run(s, steps).value;
    s'.consumer.CIdle? && s'.log == s.log && s'.pops == s.pops + [Oldest(Contents(s))]
  }

  lemma PopPrepend<T>(s: State<T>, step: Step<T>, s1: State<T>, steps: seq<Step<T>>)
    requires Can(s, step) && !IsPush(step) && s1 == Do(s, step)
    requires |s.popped| <= |s.pushed| && |s1.popped| <= |s1.pushed|
    requires if s1.consumer.CIdle? then
               steps == [] && s1.log == s.log && s1.pops == s.pops + [Oldest(Contents(s))]
             else
               PopAnswered(s1, steps) && s1.pops == s.pops && s1.log == s.log && Contents(s1) == Contents(s)
    ensures PopAnswered(s, [step] + steps)
  {
    RunFrom(s, step, steps);
  }

  lemma {:induction false} PopsOn<T>(s: State<T>) returns (steps: seq<Step<T>>)
    requires Inv(s) && !s.consumer.CIdle?
    ensures |steps| <= PopLeft(s.consumer) && PopAnswered(s, steps)
    decreases PopLeft(s.consumer)
  {
    var s1 := Do(s, NextPop(s.consumer));
    PopMoves(s);
    if s1.consumer.CIdle? {
      steps := [];
    } else {
      steps := PopsOn(s1);
    }
    PopPrepend(s, NextPop(s.consumer), s1, steps);
    steps := [NextPop(s.consumer)] + steps;
  }

  /** Likewise a pop, which gives the oldest item exactly if there is one. */
  lemma AlonePopFinishes<T>(s0: State<T>, before: seq<Step<T>>, s: State<T>) returns (steps: seq<Step<T>>)
    requires Init(s0) && Run(s0, before) == Some(s) && !s.consumer.CIdle?
    ensures |steps| <= 4 && forall k :: 0 <= k < |steps| ==> !IsPush(steps[k])
    ensures Run(s, steps).Some? && |s.popped| <= |s.pushed|
    ensures var s' := Run(s, steps).value;
            s'.consumer.CIdle? && s'.log == s.log && s'.pops == s.pops + [Oldest(Contents(s))]
  {
    RunInv(s0, before);
    steps := PopsOn(s);
  }

  /** The producer's slot and the consumer's slot never coincide while both are about to
      touch the buffer. */
  lemma NoDataRace<T>(s0: State<T>, steps: seq<Step<T>>)
    requires Init(s0) && Run(s0, steps).Some?
    ensures var s := Run(s0, steps).value;
            s.producer.PWrite? && s.consumer.CRead? ==>
              Slot(s.bits, s.producer.head) != Slot(s.bits, s.consumer.tail)
  {
    var s := Run(s0, steps).value;
    RunInv(s0, steps);
    if s.producer.PWrite? && s.consumer.CRead? {
      SlotWrap(s.bits, |s.pushed|);
      SlotWrap(s.bits, |s.popped|);
      SlotsDiffer(s.bits, |s.pushed|, |s.popped|);
    }
  }
}
