/** The multi-producer ring buffer as a transition system: one step per atomic load, store
    or compare-and-swap, and separate steps for the plain data write and read, interleaved
    in any order. */
module Mpsc {
  import opened Core
  import opened Bits
  import opened Ring
  import opened Calls

  datatype Cell<T> = Cell(sequence: nat, data: T)

  /** Where a producer thread is inside `try_push`. */
  datatype Producer<T> =
    | Idle
    | LoadPos(item: T)             // about to load enqueue_pos_
    | LoadSeq(item: T, pos: nat)   // about to load the cell's sequence
    | Cas(item: T, pos: nat)       // saw its position free, about to claim it
    | Write(item: T, pos: nat)     // claimed, about to write the data
    | Publish(item: T, pos: nat)   // wrote the data, about to store the sequence

  /** Where the consumer thread is inside `try_pop`. */
  datatype Consumer<T> =
    | Check              // about to load the head cell's sequence
    | Read               // saw it published, about to read the data
    | Free(out: T)       // about to store the next lap's sequence
    | Advance(out: T)    // about to increment dequeue_pos_

  datatype Claim<T> = Claim(pid: nat, item: T)

  /** The shared state and every thread.  The last four fields only record history: how many
      cells were freed, who claimed each position with what, each producer's calls and what
      they returned, and what the consumer got. */
  datatype State<T> = State(
    bits: nat,
    cells: seq<Cell<T>>,
    enqueuePos: nat,
    dequeuePos: nat,
    producers: seq<Producer<T>>,
    consumer: Consumer<T>,
    freed: nat,
    claimed: seq<Claim<T>>,
    logs: seq<Log<T>>,
    delivered: seq<T>)

  function Cap<T>(s: State<T>): nat {
    Pow2(s.bits)
  }

  /** The cell a position uses. */
  function At<T>(s: State<T>, pos: nat): Cell<T>
    requires |s.cells| == Cap(s)
  {
    s.cells[Slot(s.bits, pos)]
  }

  function WithCell<T>(s: State<T>, pos: nat, c: Cell<T>): State<T>
    requires |s.cells| == Cap(s)
  {
    s.(cells := s.cells[Slot(s.bits, pos) := c])
  }

  function WithProducer<T>(s: State<T>, p: nat, pc: Producer<T>): State<T>
    requires p < |s.producers|
  {
    s.(producers := s.producers[p := pc])
  }

  function WithLog<T>(s: State<T>, p: nat, log: Log<T>): State<T>
    requires p < |s.logs|
  {
    s.(logs := s.logs[p := log])
  }

  datatype Step<T> =
    | Begin(p: nat, item: T)
    | LoadEnqueue(p: nat)
    | LoadSequence(p: nat)
    | CompareExchange(p: nat, spurious: bool)
    | WriteData(p: nat)
    | StoreSequence(p: nat)
    | PopCheck
    | PopRead
    | PopFree
    | PopAdvance

  predicate ProducerCan<T>(pc: Producer<T>, step: Step<T>) {
    match step
    case Begin(_, _) => pc.Idle?
    case LoadEnqueue(_) => pc.LoadPos?
    case LoadSequence(_) => pc.LoadSeq?
    case CompareExchange(_, _) => pc.Cas?
    case WriteData(_) => pc.Write?
    case StoreSequence(_) => pc.Publish?
    case _ => false
  }

  predicate Can<T>(s: State<T>, step: Step<T>) {
    && |s.cells| == Cap(s) && |s.logs| == |s.producers|
    && match step
       case PopCheck => s.consumer.Check?
       case PopRead => s.consumer.Read?
       case PopFree => s.consumer.Free?
       case PopAdvance => s.consumer.Advance?
       case _ => step.p < |s.producers| && ProducerCan(s.producers[step.p], step)
  }

  function Do<T>(s: State<T>, step: Step<T>): State<T>
    requires Can(s, step)
  {
    match step
    case Begin(p, item) => WithLog(WithProducer(s, p, LoadPos(item)), p, Opened(s.logs[p], item))
    case LoadEnqueue(p) => WithProducer(s, p, LoadSeq(s.producers[p].item, s.enqueuePos))
    case LoadSequence(p) =>
      var me := s.producers[p];
      var seen := At(s, me.pos).sequence;
      if seen == me.pos then WithProducer(s, p, Cas(me.item, me.pos))
      else if seen < me.pos then WithLog(WithProducer(s, p, Idle), p, Closed(s.logs[p], false))
      else WithProducer(s, p, LoadPos(me.item))
    case CompareExchange(p, spurious) =>
      var me := s.producers[p];
      if s.enqueuePos == me.pos && !spurious then
        WithProducer(s, p, Write(me.item, me.pos)).(
          enqueuePos := me.pos + 1, claimed := s.claimed + [Claim(p, me.item)])
      else WithProducer(s, p, LoadSeq(me.item, s.enqueuePos))
    case WriteData(p) =>
      var me := s.producers[p];
      WithProducer(WithCell(s, me.pos, At(s, me.pos).(data := me.item)), p, Publish(me.item, me.pos))
    case StoreSequence(p) =>
      var me := s.producers[p];
      WithLog(WithProducer(WithCell(s, me.pos, At(s, me.pos).(sequence := me.pos + 1)), p, Idle), p,
        Closed(s.logs[p], true))
    case PopCheck =>
      if At(s, s.dequeuePos).sequence == s.dequeuePos + 1 then s.(consumer := Read) else s
    case PopRead => s.(consumer := Free(At(s, s.dequeuePos).data))
    case PopFree =>
      WithCell(s, s.dequeuePos, At(s, s.dequeuePos).(sequence := s.dequeuePos + Cap(s))).(
        consumer := Advance(s.consumer.out), freed := s.freed + 1)
    case PopAdvance =>
      s.(consumer := Check, dequeuePos := s.dequeuePos + 1, delivered := s.delivered + [s.consumer.out])
  }

  ghost predicate Init<T>(s: State<T>) {
    && s.bits >= 1 && |s.cells| == Cap(s) && |s.logs| == |s.producers|
    && (forall i :: 0 <= i < |s.cells| ==> s.cells[i].sequence == i)
    && (forall p :: 0 <= p < |s.producers| ==> s.producers[p] == Idle && s.logs[p] == NoCalls())
    && s.enqueuePos == s.dequeuePos == s.freed == 0 && s.consumer == Check
    && s.claimed == [] && s.delivered == []
  }

  /** A run: any number of producers, any interleaving; `None` if a step was not enabled. */
  function Run<T>(s: State<T>, steps: seq<Step<T>>): Option<State<T>> {
    if steps == [] then Some(s)
    else
      match Run(s, steps[..|steps| - 1])
      case None => None
      case Some(r) => if Can(r, steps[|steps| - 1]) then Some(Do(r, steps[|steps| - 1])) else None
  }

  // ---- The invariant ------------------------------------------------------

  /** The producer that claimed `pos` is still writing it. */
  ghost predicate Writing<T>(s: State<T>, pos: nat)
    requires pos < |s.claimed|
  {
    var c := s.claimed[pos];
    c.pid < |s.producers| && (s.producers[c.pid] == Write(c.item, pos) || s.producers[c.pid] == Publish(c.item, pos))
  }

  /** A claimed, unfreed position is either owned by its one writer or published with the
      claimed item. */
  ghost predicate ClaimedOk<T>(s: State<T>, pos: nat)
    requires |s.cells| == Cap(s)
  {
    && pos < |s.claimed|
    && (|| (At(s, pos).sequence == pos && Writing(s, pos))
        || (At(s, pos).sequence == pos + 1 && At(s, pos).data == s.claimed[pos].item))
  }

  ghost predicate ProducerOk<T>(s: State<T>, p: nat)
    requires |s.cells| == Cap(s) && p < |s.producers|
  {
    match s.producers[p]
    case Idle => true
    case LoadPos(_) => true
    case LoadSeq(_, pos) => pos <= s.enqueuePos
    case Cas(_, pos) => pos <= s.enqueuePos && pos < s.freed + Cap(s)
    case Write(item, pos) =>
      s.freed <= pos < |s.claimed| && s.claimed[pos] == Claim(p, item) && At(s, pos).sequence == pos
    case Publish(item, pos) =>
      s.freed <= pos < |s.claimed| && s.claimed[pos] == Claim(p, item) && At(s, pos) == Cell(pos, item)
  }

  ghost predicate Published<T>(s: State<T>, pos: nat)
    requires |s.cells| == Cap(s)
  {
    pos < |s.claimed| && At(s, pos) == Cell(pos + 1, s.claimed[pos].item)
  }

  ghost predicate ConsumerOk<T>(s: State<T>)
    requires |s.cells| == Cap(s)
  {
    match s.consumer
    case Check => s.dequeuePos == s.freed
    case Read => s.dequeuePos == s.freed && Published(s, s.freed)
    case Free(out) => s.dequeuePos == s.freed && Published(s, s.freed) && out == s.claimed[s.freed].item
    case Advance(out) => s.dequeuePos + 1 == s.freed <= |s.claimed| && out == s.claimed[s.dequeuePos].item
  }

  /** The ring's window: claimed and unfreed positions, then free ones. */
  ghost predicate WindowOk<T>(s: State<T>) {
    && s.bits >= 1 && |s.cells| == Cap(s)
    && |s.claimed| == s.enqueuePos
    && s.freed <= s.enqueuePos <= s.freed + Cap(s)
    && (forall pos {:trigger ClaimedOk(s, pos)} :: s.freed <= pos < s.enqueuePos ==> ClaimedOk(s, pos))
    && (forall pos {:trigger At(s, pos)} :: s.enqueuePos <= pos < s.freed + Cap(s) ==> At(s, pos).sequence == pos)
  }

  ghost predicate ThreadsOk<T>(s: State<T>)
    requires |s.cells| == Cap(s)
  {
    && |s.logs| == |s.producers|
    && (forall p {:trigger ProducerOk(s, p)} :: 0 <= p < |s.producers| ==> ProducerOk(s, p))
    && ConsumerOk(s)
  }

  /** What was delivered is what was claimed, position by position. */
  ghost predicate DeliveredOk<T>(s: State<T>) {
    && |s.delivered| == s.dequeuePos <= |s.claimed|
    && forall k :: 0 <= k < |s.delivered| ==> s.delivered[k] == s.claimed[k].item
  }

  ghost predicate Inv<T>(s: State<T>) {
    WindowOk(s) && ThreadsOk(s) && DeliveredOk(s)
  }

  lemma InitInv<T>(s: State<T>)
    requires Init(s)
    ensures Inv(s)
  {
    forall pos {:trigger At(s, pos)} | s.enqueuePos <= pos < s.freed + Cap(s)
      ensures At(s, pos).sequence == pos
    {
      FirstLap(s.bits, pos);
    }
  }

  // ---- Every step keeps the invariant -------------------------------------

  /** A producer that has claimed nothing may move freely among the claim-free states. */
  lemma MoveFree<T>(s: State<T>, p: nat, pc: Producer<T>)
    requires Inv(s) && p < |s.producers| && !s.producers[p].Write? && !s.producers[p].Publish?
    requires !pc.Write? && !pc.Publish? && ProducerOk(WithProducer(s, p, pc), p)
    ensures Inv(WithProducer(s, p, pc))
  {
    var s' := WithProducer(s, p, pc);
    forall pos | s.freed <= pos < s.enqueuePos
      ensures ClaimedOk(s', pos)
    {
      assert ClaimedOk(s, pos);
    }
    forall pos | s.enqueuePos <= pos < s.freed + Cap(s)
      ensures At(s', pos).sequence == pos
    {
      assert At(s, pos).sequence == pos;
    }
    forall q | 0 <= q < |s.producers|
      ensures ProducerOk(s', q)
    {
      assert ProducerOk(s, q);
    }
  }

  lemma LogFree<T>(s: State<T>, p: nat, log: Log<T>)
    requires Inv(s) && p < |s.logs|
    ensures Inv(WithLog(s, p, log))
  {
    var s' := WithLog(s, p, log);
    forall pos | s.freed <= pos < s.enqueuePos
      ensures ClaimedOk(s', pos)
    {
      assert ClaimedOk(s, pos);
    }
    forall pos | s.enqueuePos <= pos < s.freed + Cap(s)
      ensures At(s', pos).sequence == pos
    {
      assert At(s, pos).sequence == pos;
    }
    forall q | 0 <= q < |s.producers|
      ensures ProducerOk(s', q)
    {
      assert ProducerOk(s, q);
    }
  }

  lemma MoveLogged<T>(s: State<T>, p: nat, pc: Producer<T>, log: Log<T>)
    requires Inv(s) && p < |s.producers| && !s.producers[p].Write? && !s.producers[p].Publish?
    requires !pc.Write? && !pc.Publish? && ProducerOk(WithProducer(s, p, pc), p)
    ensures Inv(WithLog(WithProducer(s, p, pc), p, log))
  {
    MoveFree(s, p, pc);
    LogFree(WithProducer(s, p, pc), p, log);
  }

  /** The check: a cell whose sequence equals a position not beyond the tail is inside the
      window, so it stays claimable until somebody claims it. */
  lemma CheckedFree<T>(s: State<T>, pos: nat)
    requires WindowOk(s) && pos <= s.enqueuePos && At(s, pos).sequence <= pos
    ensures At(s, pos).sequence == pos ==> pos < s.freed + Cap(s)
    ensures At(s, pos).sequence < pos ==> pos == s.enqueuePos == s.freed + Cap(s)
  {
    if pos == s.freed + Cap(s) {
      SlotLap(s.bits, s.freed);
      TwoCells(s.bits);
      assert ClaimedOk(s, s.freed);
    } else if s.freed <= pos {
      if pos < s.enqueuePos {
        assert ClaimedOk(s, pos);
      } else {
        assert At(s, pos).sequence == pos;
      }
    } else {
      StalePosition(s, pos);
    }
  }

  lemma TwoCells(bits: nat)
    requires bits >= 1
    ensures Pow2(bits) >= 2
  {
    assert Pow2(bits) == 2 * Pow2(bits - 1);
  }

  /** A position freed long ago is served by a later lap, so its cell reads as newer. */
  lemma StalePosition<T>(s: State<T>, pos: nat)
    requires WindowOk(s) && pos < s.freed
    ensures At(s, pos).sequence > pos
  {
    SlotLap(s.bits, pos);
    StaleFrom(s, pos, pos + Cap(s));
  }

  lemma {:induction false} StaleFrom<T>(s: State<T>, pos: nat, q: nat)
    requires WindowOk(s) && pos < s.freed && pos < q && Slot(s.bits, q) == Slot(s.bits, pos) && q < s.freed + Cap(s)
    ensures At(s, pos).sequence > pos
    decreases s.freed + Cap(s) - q
  {
    if q < s.freed {
      SlotLap(s.bits, q);
      StaleFrom(s, pos, q + Cap(s));
    } else if q < s.enqueuePos {
      assert ClaimedOk(s, q);
    } else {
      assert At(s, q).sequence == q;
    }
  }

  /** Editing the cell of one window position leaves every other window position alone. */
  lemma OtherCell<T>(s: State<T>, pos: nat, c: Cell<T>, q: nat)
    requires |s.cells| == Cap(s) && pos != q && pos < q + Cap(s) && q < pos + Cap(s)
    ensures At(WithCell(s, pos, c), q) == At(s, q)
  {
    SlotsDiffer(s.bits, pos, q);
  }

  /** A successful compare-and-swap claims a free cell: it can hold no unread item. */
  lemma ClaimKeeps<T>(s: State<T>, p: nat, s': State<T>)
    requires Inv(s) && p < |s.producers| && s.producers[p].Cas? && s.enqueuePos == s.producers[p].pos
    requires Can(s, CompareExchange(p, false)) && s' == Do(s, CompareExchange(p, false))
    ensures Inv(s')
  {
    var me := s.producers[p];
    assert ProducerOk(s, p);
    assert At(s, me.pos).sequence == me.pos;
    forall pos | s'.freed <= pos < s'.enqueuePos
      ensures ClaimedOk(s', pos)
    {
      if pos < s.enqueuePos {
        assert ClaimedOk(s, pos);
      }
    }
    forall pos | s'.enqueuePos <= pos < s'.freed + Cap(s')
      ensures At(s', pos).sequence == pos
    {
      assert At(s, pos).sequence == pos;
    }
    forall q | 0 <= q < |s'.producers|
      ensures ProducerOk(s', q)
    {
      assert ProducerOk(s, q);
    }
  }

  /** What an edit to a writer's own cell needs of the rest. */
  lemma WriterAlone<T>(s: State<T>, p: nat)
    requires Inv(s) && p < |s.producers| && (s.producers[p].Write? || s.producers[p].Publish?)
    ensures var pos := s.producers[p].pos;
            && s.freed <= pos < s.enqueuePos && s.claimed[pos].pid == p && At(s, pos).sequence == pos
            && (forall q :: 0 <= q < |s.producers| && q != p && (s.producers[q].Write? || s.producers[q].Publish?) ==>
                  s.producers[q].pos != pos)
            && ((s.consumer.Read? || s.consumer.Free?) ==> pos != s.freed)
  {
    assert ProducerOk(s, p);
    forall q | 0 <= q < |s.producers| && q != p && (s.producers[q].Write? || s.producers[q].Publish?)
      ensures s.producers[q].pos != s.producers[p].pos
    {
      assert ProducerOk(s, q);
    }
  }

  lemma WriteKeeps<T>(s: State<T>, p: nat, s': State<T>)
    requires Inv(s) && Can(s, WriteData(p)) && s' == Do(s, WriteData(p))
    ensures Inv(s')
  {
    var me := s.producers[p];
    var c := At(s, me.pos).(data := me.item);
    WriterAlone(s, p);
    forall pos | s.freed <= pos < s.freed + Cap(s) && pos != me.pos
      ensures At(s', pos) == At(s, pos)
    {
      OtherCell(s, me.pos, c, pos);
    }
    forall pos | s.freed <= pos < s.enqueuePos
      ensures ClaimedOk(s', pos)
    {
      assert ClaimedOk(s, pos);
    }
    forall q | 0 <= q < |s.producers|
      ensures ProducerOk(s', q)
    {
      assert ProducerOk(s, q);
    }
  }

  lemma PublishKeeps<T>(s: State<T>, p: nat, s': State<T>)
    requires Inv(s) && Can(s, StoreSequence(p)) && s' == Do(s, StoreSequence(p))
    ensures Inv(s')
  {
    var me := s.producers[p];
    var c := At(s, me.pos).(sequence := me.pos + 1);
    WriterAlone(s, p);
    assert ProducerOk(s, p);
    forall pos | s.freed <= pos < s.freed + Cap(s) && pos != me.pos
      ensures At(s', pos) == At(s, pos)
    {
      OtherCell(s, me.pos, c, pos);
    }
    forall pos | s.freed <= pos < s.enqueuePos
      ensures ClaimedOk(s', pos)
    {
      assert ClaimedOk(s, pos);
    }
    forall q | 0 <= q < |s.producers|
      ensures ProducerOk(s', q)
    {
      assert ProducerOk(s, q);
    }
  }

  lemma FreeKeeps<T>(s: State<T>, s': State<T>)
    requires Inv(s) && Can(s, PopFree) && s' == Do(s, PopFree)
    ensures Inv(s')
  {
    var c := At(s, s.freed).(sequence := s.freed + Cap(s));
    forall pos | s.freed < pos < s.freed + Cap(s)
      ensures At(s', pos) == At(s, pos)
    {
      OtherCell(s, s.freed, c, pos);
    }
    SlotLap(s.bits, s.freed);
    forall pos | s'.freed <= pos < s'.enqueuePos
      ensures ClaimedOk(s', pos)
    {
      assert ClaimedOk(s, pos);
    }
    forall pos | s'.enqueuePos <= pos < s'.freed + Cap(s')
      ensures At(s', pos).sequence == pos
    {
      if pos < s.freed + Cap(s) {
        assert At(s, pos).sequence == pos;
      }
    }
    forall q | 0 <= q < |s.producers|
      ensures ProducerOk(s', q)
    {
      assert ProducerOk(s, q);
    }
  }

  lemma ConsumerKeeps<T>(s: State<T>, step: Step<T>, s': State<T>)
    requires Inv(s) && (step.PopCheck? || step.PopRead? || step.PopAdvance?) && Can(s, step) && s' == Do(s, step)
    ensures Inv(s')
  {
    if step.PopCheck? && s'.consumer.Read? {
      PublishedAt(s);
    }
    forall pos | s.freed <= pos < s.enqueuePos
      ensures ClaimedOk(s', pos)
    {
      assert ClaimedOk(s, pos);
    }
    forall pos | s.enqueuePos <= pos < s.freed + Cap(s)
      ensures At(s', pos).sequence == pos
    {
      assert At(s, pos).sequence == pos;
    }
    forall q | 0 <= q < |s.producers|
      ensures ProducerOk(s', q)
    {
      assert ProducerOk(s, q);
    }
  }

  /** The head cell's sequence says exactly whether the head position is published. */
  lemma PublishedAt<T>(s: State<T>)
    requires Inv(s)
    ensures At(s, s.freed).sequence == s.freed + 1 <==> s.freed < s.enqueuePos && !Writing(s, s.freed)
    ensures At(s, s.freed).sequence == s.freed + 1 ==> Published(s, s.freed)
  {
    TwoCells(s.bits);
    if s.freed < s.enqueuePos {
      assert ClaimedOk(s, s.freed);
      if Writing(s, s.freed) {
        assert ProducerOk(s, s.claimed[s.freed].pid);
      }
    } else {
      assert At(s, s.freed).sequence == s.freed;
    }
  }

  lemma ProducerKeeps<T>(s: State<T>, step: Step<T>, s': State<T>)
    requires Inv(s) && (step.Begin? || step.LoadEnqueue? || step.LoadSequence?) && Can(s, step) && s' == Do(s, step)
    ensures Inv(s')
  {
    var me := s.producers[step.p];
    assert ProducerOk(s, step.p);
    if step.LoadSequence? && At(s, me.pos).sequence <= me.pos {
      CheckedFree(s, me.pos);
    }
    assert s' == WithLog(WithProducer(s, step.p, s'.producers[step.p]), step.p, s'.logs[step.p]);
    MoveLogged(s, step.p, s'.producers[step.p], s'.logs[step.p]);
  }

  lemma StepInv<T>(s: State<T>, step: Step<T>)
    requires Inv(s) && Can(s, step)
    ensures Inv(Do(s, step))
  {
    var s' := Do(s, step);
    match step
    case Begin(_, _) => ProducerKeeps(s, step, s');
    case LoadEnqueue(_) => ProducerKeeps(s, step, s');
    case LoadSequence(_) => ProducerKeeps(s, step, s');
    case CompareExchange(p, spurious) =>
      if s.enqueuePos == s.producers[p].pos && !spurious {
        ClaimKeeps(s, p, s');
      } else {
        MoveFree(s, p, s'.producers[p]);
      }
    case WriteData(p) => WriteKeeps(s, p, s');
    case StoreSequence(p) => PublishKeeps(s, p, s');
    case PopCheck => ConsumerKeeps(s, step, s');
    case PopRead => ConsumerKeeps(s, step, s');
    case PopFree => FreeKeeps(s, s');
    case PopAdvance => ConsumerKeeps(s, step, s');
  }
}
