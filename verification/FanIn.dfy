/** The fan-in sequencer: one consumer polling N single-producer queues round robin, with
    every producer pushing concurrently. */
module FanIn {
  import opened Core
  import opened Calls
  import opened Spsc
  import opened SpscLaws

  /** Where the sequencer thread is inside `try_drain_one`. */
  datatype Sequencer = Resting | Polling(attempt: nat, idx: nat)

  /** `served` and `misses` record the results of finished calls: which queue each item came
      from, and how many calls found nothing. */
  datatype State<T> = State(
    queues: seq<Spsc.State<T>>,
    next: nat,
    sequencer: Sequencer,
    served: seq<(nat, T)>,
    misses: nat)

  datatype Step<T> =
    | PushStep(i: nat, step: Spsc.Step<T>)  // a step of producer i
    | DrainBegin
    | PopStep(step: Spsc.Step<T>)           // a step of the pop in progress

  /** Takes the cursor, advances it and starts a pop on the queue taken. */
  function Polled<T>(s: State<T>, attempt: nat): State<T>
    requires s.next < |s.queues|
  {
    s.(queues := s.queues[s.next := s.queues[s.next].(consumer := CStart)],
       next := (s.next + 1) % |s.queues|,
       sequencer := Polling(attempt, s.next))
  }

  predicate Enabled<T>(s: State<T>, step: Step<T>) {
    && s.next < |s.queues|
    && match step
       case PushStep(i, q) => i < |s.queues| && IsPush(q) && Can(s.queues[i], q)
       case DrainBegin => s.sequencer.Resting?
       case PopStep(q) =>
         && s.sequencer.Polling? && s.sequencer.idx < |s.queues|
         && !IsPush(q) && Can(s.queues[s.sequencer.idx], q)
  }

  function Moved<T>(s: State<T>, step: Step<T>): State<T>
    requires Enabled(s, step)
  {
    match step
    case PushStep(i, q) => s.(queues := s.queues[i := Do(s.queues[i], q)])
    case DrainBegin => Polled(s, 0)
    case PopStep(q) =>
      var idx, attempt := s.sequencer.idx, s.sequencer.attempt;
      var queue := Do(s.queues[idx], q);
      var s' := s.(queues := s.queues[idx := queue]);
      if !queue.consumer.CIdle? then s'
      else if q.PopStore? then
        s'.(sequencer := Resting, served := s.served + [(idx, s.queues[idx].consumer.out)])
      else if attempt + 1 < |s.queues| then Polled(s', attempt + 1)
      else s'.(sequencer := Resting, misses := s.misses + 1)
  }

  function Run<T>(s: State<T>, steps: seq<Step<T>>): Option<State<T>> {
    if steps == [] then Some(s)
    else
      match Run(s, steps[..|steps| - 1])
      case None => None
      case Some(r) => if Enabled(r, steps[|steps| - 1]) then Some(Moved(r, steps[|steps| - 1])) else None
  }

  ghost predicate Init<T>(s: State<T>) {
    && |s.queues| > 0 && s.next == 0 && s.sequencer == Resting && s.served == [] && s.misses == 0
    && forall i :: 0 <= i < |s.queues| ==> Spsc.Init(s.queues[i])
  }

  // ---- The invariant ------------------------------------------------------

  /** The items served from queue `i`, in order. */
  function From<T>(served: seq<(nat, T)>, i: nat): seq<T> {
    if served == [] then []
    else
      var last := served[|served| - 1];
      From(served[..|served| - 1], i) + (if last.0 == i then [last.1] else [])
  }

  predicate PollingAt<T>(s: State<T>, i: nat) {
    s.sequencer.Polling? && s.sequencer.idx == i
  }

  /** Each queue is sound, idle unless it is the one being polled, and has given up exactly
      what was served from it. */
  ghost predicate QueueOk<T>(s: State<T>, i: nat)
    requires i < |s.queues|
  {
    && Spsc.Inv(s.queues[i])
    && (s.queues[i].consumer.CIdle? <==> !PollingAt(s, i))
    && s.queues[i].popped == From(s.served, i)
  }

  ghost predicate Inv<T>(s: State<T>) {
    && s.next < |s.queues|
    && (s.sequencer.Polling? ==> s.sequencer.idx < |s.queues| && s.next == (s.sequencer.idx + 1) % |s.queues|)
    && forall i {:trigger QueueOk(s, i)} :: 0 <= i < |s.queues| ==> QueueOk(s, i)
  }

  lemma InitInv<T>(s: State<T>)
    requires Init(s)
    ensures Inv(s)
  {
    forall i | 0 <= i < |s.queues|
      ensures QueueOk(s, i)
    {
      Spsc.InitInv(s.queues[i]);
    }
  }

  lemma FromAppend<T>(served: seq<(nat, T)>, idx: nat, item: T, i: nat)
    ensures From(served + [(idx, item)], i) == From(served, i) + (if idx == i then [item] else [])
  {
    assert (served + [(idx, item)])[..|served|] == served;
  }

  lemma Successor(x: nat, n: nat)
    requires x < n
    ensures (x + 1) % n == if x + 1 == n then 0 else x + 1
  {
  }

  /** Starting a pop on an idle queue at the cursor keeps the invariant. */
  lemma PolledKeeps<T>(s: State<T>, attempt: nat)
    requires Inv(s) && s.sequencer.Resting?
    ensures Inv(Polled(s, attempt))
  {
    var s' := Polled(s, attempt);
    Successor(s.next, |s.queues|);
    forall i | 0 <= i < |s.queues|
      ensures QueueOk(s', i)
    {
      assert QueueOk(s, i);
      Spsc.StepInv(s.queues[i], PopBegin);
    }
  }

  lemma PushKeeps<T>(s: State<T>, j: nat, q: Spsc.Step<T>)
    requires Inv(s) && Enabled(s, PushStep(j, q))
    ensures Inv(Moved(s, PushStep(j, q)))
  {
    var s' := Moved(s, PushStep(j, q));
    forall i | 0 <= i < |s.queues|
      ensures QueueOk(s', i)
    {
      assert QueueOk(s, i);
      if i == j {
        Spsc.StepInv(s.queues[i], q);
      }
    }
  }

  /** The pop in progress takes a step; if it ends, the sequencer rests. */
  function Popped<T>(s: State<T>, q: Spsc.Step<T>): State<T>
    requires Enabled(s, PopStep(q))
  {
    var idx := s.sequencer.idx;
    var queue := Do(s.queues[idx], q);
    var s' := s.(queues := s.queues[idx := queue]);
    if !queue.consumer.CIdle? then s'
    else s'.(sequencer := Resting,
             served := if q.PopStore? then s.served + [(idx, s.queues[idx].consumer.out)] else s.served)
  }

  lemma PoppedKeeps<T>(s: State<T>, q: Spsc.Step<T>)
    requires Inv(s) && Enabled(s, PopStep(q))
    ensures Inv(Popped(s, q))
  {
    var s', idx := Popped(s, q), s.sequencer.idx;
    forall i | 0 <= i < |s.queues|
      ensures QueueOk(s', i)
    {
      assert QueueOk(s, i) && QueueOk(s, idx);
      Spsc.StepInv(s.queues[idx], q);
      if q.PopStore? {
        FromAppend(s.served, idx, s.queues[idx].consumer.out, i);
      }
    }
  }

  lemma StepInv<T>(s: State<T>, step: Step<T>)
    requires Inv(s) && Enabled(s, step)
    ensures Inv(Moved(s, step))
  {
    match step
    case PushStep(j, q) => PushKeeps(s, j, q);
    case DrainBegin => PolledKeeps(s, 0);
    case PopStep(q) =>
      var s' := Popped(s, q);
      PoppedKeeps(s, q);
      if s'.sequencer.Resting? && !q.PopStore? {
        if s.sequencer.attempt + 1 < |s.queues| {
          PolledKeeps(s', s.sequencer.attempt + 1);
        } else {
          MissKeeps(s');
        }
      }
  }

  lemma MissKeeps<T>(s: State<T>)
    requires Inv(s)
    ensures Inv(s.(misses := s.misses + 1))
  {
    var s' := s.(misses := s.misses + 1);
    forall i | 0 <= i < |s.queues|
      ensures QueueOk(s', i)
    {
      assert QueueOk(s, i);
    }
  }

  lemma {:induction false} RunInv<T>(s: State<T>, steps: seq<Step<T>>)
    requires Inv(s) && Run(s, steps).Some?
    ensures Inv(Run(s, steps).value) && |Run(s, steps).value.queues| == |s.queues|
  {
    if steps != [] {
      RunInv(s, steps[..|steps| - 1]);
      StepInv(Run(s, steps[..|steps| - 1]).value, steps[|steps| - 1]);
    }
  }

  /** The arguments of producer `i`'s pushes over a run, in call order. */
  function PushesInto<T>(steps: seq<Step<T>>, i: nat): seq<T> {
    if steps == [] then []
    else
      var last := steps[|steps| - 1];
      PushesInto(steps[..|steps| - 1], i)
        + (if last.PushStep? && last.i == i && last.step.PushBegin? then [last.step.item] else [])
  }

  lemma StepCalled<T>(s: State<T>, step: Step<T>, i: nat)
    requires Enabled(s, step) && i < |s.queues|
    ensures var s' := Moved(s, step);
            && |s'.queues| == |s.queues|
            && s'.queues[i].log.called ==
               s.queues[i].log.called
                 + (if step.PushStep? && step.i == i && step.step.PushBegin? then [step.step.item] else [])
  {
  }

  lemma {:induction false} RunCalled<T>(s0: State<T>, steps: seq<Step<T>>, i: nat)
    requires Init(s0) && Run(s0, steps).Some? && i < |s0.queues|
    ensures var s := Run(s0, steps).value;
            |s.queues| == |s0.queues| && s.queues[i].log.called == PushesInto(steps, i)
  {
    if steps != [] {
      RunCalled(s0, steps[..|steps| - 1], i);
      StepCalled(Run(s0, steps[..|steps| - 1]).value, steps[|steps| - 1], i);
    }
  }

  /** The items drained from each source are a prefix of the arguments of that producer's
      successful pushes, in call order. */
  lemma MergeKeepsOrder<T>(s0: State<T>, steps: seq<Step<T>>, i: nat)
    requires Init(s0) && Run(s0, steps).Some? && i < |s0.queues|
    ensures var s := Run(s0, steps).value;
            && i < |s.queues|
            && From(s.served, i) <= Succeeded(PushesInto(steps, i), s.queues[i].log.answers)
  {
    InitInv(s0);
    RunInv(s0, steps);
    RunCalled(s0, steps, i);
    assert QueueOk(Run(s0, steps).value, i);
  }

  // ---- Fairness -----------------------------------------------------------

  /** How many queues the cursor passes before it reaches `j`. */
  function Distance(n: nat, from: nat, j: nat): int {
    if from <= j then j - from else j + n - from
  }

  predicate Waiting<T>(q: Spsc.State<T>) {
    |q.popped| < |q.pushed|
  }

  /** Queue `j` waits, and the cursor reaches it before `budget` more calls are spent and
      before the current sweep ends. */
  ghost predicate Due<T>(s: State<T>, j: nat, budget: int)
    requires j < |s.queues| && s.next < |s.queues|
  {
    && Waiting(s.queues[j])
    && match s.sequencer
       case Resting => Distance(|s.queues|, s.next, j) <= budget
       case Polling(attempt, idx) =>
         && Distance(|s.queues|, idx, j) <= budget
         && attempt + Distance(|s.queues|, idx, j) < |s.queues|
  }

  /** One step later queue `j` has been served, or is still due, with no call failed and one
      less to wait for each call finished. */
  lemma DueStep<T>(s: State<T>, step: Step<T>, j: nat, budget: int)
    requires Inv(s) && Enabled(s, step) && j < |s.queues| && Due(s, j, budget)
    ensures var s' := Moved(s, step);
            && s'.next < |s'.queues| == |s.queues|
            && |s'.served| >= |s.served|
            && (|| |From(s'.served, j)| > |From(s.served, j)|
                || (s'.misses == s.misses && Due(s', j, budget - (|s'.served| - |s.served|))))
  {
    StepInv(s, step);
    assert QueueOk(s, j);
    match step
    case PushStep(i, q) =>
    case DrainBegin =>
      Successor(s.next, |s.queues|);
    case PopStep(q) =>
      var idx := s.sequencer.idx;
      assert QueueOk(s, idx);
      Successor(idx, |s.queues|);
      Successor(s.next, |s.queues|);
      if q.PopStore? {
        FromAppend(s.served, idx, s.queues[idx].consumer.out, j);
      } else {
        PopNeverFails(s.queues[idx], q);
      }
  }

  /** A pop of a waiting queue does not come back empty-handed. */
  lemma PopNeverFails<T>(q: Spsc.State<T>, step: Spsc.Step<T>)
    requires Spsc.Inv(q) && Can(q, step) && !IsPush(step) && !step.PopStore? && !q.consumer.CIdle?
    ensures Do(q, step).consumer.CIdle? ==> !Waiting(q)
    ensures Do(q, step).popped == q.popped && Do(q, step).pushed == q.pushed
  {
    NaiveIsExact(q);
  }

  lemma {:induction false} DueRun<T>(s: State<T>, steps: seq<Step<T>>, j: nat, budget: int)
    requires Inv(s) && Run(s, steps).Some? && j < |s.queues| && Due(s, j, budget)
    ensures var s' := Run(s, steps).value;
            && |s'.served| >= |s.served| && s'.next < |s'.queues| == |s.queues|
            && |From(s'.served, j)| >= |From(s.served, j)|
            && (|From(s'.served, j)| == |From(s.served, j)| ==>
                  s'.misses == s.misses && Due(s', j, budget - (|s'.served| - |s.served|)))
  {
    if steps != [] {
      var init := steps[..|steps| - 1];
      DueRun(s, init, j, budget);
      RunInv(s, init);
      var r := Run(s, init).value;
      ServedGrows(r, steps[|steps| - 1], j);
      if |From(r.served, j)| == |From(s.served, j)| {
        DueStep(r, steps[|steps| - 1], j, budget - (|r.served| - |s.served|));
      }
    }
  }

  lemma ServedGrows<T>(s: State<T>, step: Step<T>, j: nat)
    requires Inv(s) && Enabled(s, step)
    ensures var s' := Moved(s, step);
            |s'.served| >= |s.served| && |From(s'.served, j)| >= |From(s.served, j)|
            && |s'.queues| == |s.queues| && s'.next < |s'.queues|
  {
    StepInv(s, step);
    if step.PopStep? && step.step.PopStore? {
      FromAppend(s.served, s.sequencer.idx, s.queues[s.sequencer.idx].consumer.out, j);
    }
  }

  /** A queue that is non-empty when the sequencer rests is served within N calls, whatever
      the producers do meanwhile, and none of the calls before that returns false: as long as
      it has not been served, fewer than N calls have finished and all of them succeeded. */
  lemma ServedWithinOneRound<T>(s0: State<T>, before: seq<Step<T>>, steps: seq<Step<T>>, j: nat)
    requires Init(s0) && Run(s0, before).Some?
    requires var s := Run(s0, before).value;
             j < |s.queues| && s.sequencer == Resting && Waiting(s.queues[j]) && Run(s, steps).Some?
    ensures var s := Run(s0, before).value;
            var s' := Run(s, steps).value;
            |From(s'.served, j)| == |From(s.served, j)| ==>
              s'.misses == s.misses && |s'.served| - |s.served| < |s.queues|
  {
    InitInv(s0);
    RunInv(s0, before);
    var s := Run(s0, before).value;
    DueRun(s, steps, j, Distance(|s.queues|, s.next, j));
  }
}
