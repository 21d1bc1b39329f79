/** http/logs/looper.hpp with http/logs/logger.hpp: any number of producers, one
    consumer thread and one caller of `stop` over two buffers, one mutex and two
    condition variables, as a step system. Every step is one access to shared
    state; a thread's program counter names the source line it is about to run. */
module LooperModel {
  import opened LogBuffer
  import opened Text

  type Record = string

  datatype AsyncType = ASYNC_SAFE | ASYNC_UNSAFE

  datatype Holder = Free | HeldByProducer(id: nat) | HeldByConsumer

  /** Where a thread is inside `push`. */
  datatype Producer =
    | Idle                      // not in push
    | Acquiring(rec: Record)    // wants the mutex
    | Testing(rec: Record)      // holds it, evaluates the wait predicate
    | Parking(rec: Record)      // predicate was false, is about to block
    | Blocked(rec: Record)      // in the wait set of _cond_pro, mutex released
    | Waking(rec: Record)       // left the wait set, wants the mutex again
    | Appending(rec: Record)    // holds it, is about to copy the record
    | Notifying                 // holds it, is about to notify _cond_con
    | Releasing                 // is about to give the mutex back

  /** Where the consumer thread is inside `threadEntry`. */
  datatype Consumer =
    | Entering                  // wants the mutex
    | ExitCheck                 // holds it, evaluates the exit test
    | WaitCheck                 // holds it, evaluates the wait predicate
    | Dozing                    // predicate was false, is about to block
    | Asleep                    // in the wait set of _cond_con, mutex released
    | Rousing                   // left the wait set, wants the mutex again
    | Swapping
    | WakingProducers
    | Unlocking
    | Delivering(sink: nat)     // mutex free, callback is at this sink
    | Resetting
    | Exited

  /** Where the caller of `stop` is. `consumerDozed` remembers whether the
      consumer was between its predicate and its wait when notify_all ran. */
  datatype Stopper = Running | Stored | Notified(consumerDozed: bool) | Joined(consumerDozed: bool)

  /** `batches` and `staged` are history: the records of every swap so far, and
      those appended since the last one. No step reads them. `sinks[k]` lists
      the arguments of the calls to the k-th sink. */
  datatype State = State(
    mode: AsyncType,
    holder: Holder,
    stopper: Stopper,
    pro: BufferView,
    con: BufferView,
    producers: seq<Producer>,
    consumer: Consumer,
    sinks: seq<seq<string>>,
    batches: seq<seq<Record>>,
    staged: seq<Record>)
  {
    predicate Stop() { !stopper.Running? }

    /** The predicate handed to `_cond_pro.wait`. */
    predicate HasRoom(len: nat)
      requires pro.Valid()
    {
      mode == ASYNC_UNSAFE || pro.Free() >= len
    }
  }

  datatype Step =
    | Call(id: nat, rec: Record)   // a thread enters push
    | ProducerStep(id: nat)
    | ConsumerStep
    | StopStore                    // someone calls stop
    | StopNotify
    | StopJoin
    | SpuriousProducer(id: nat)
    | SpuriousConsumer

  predicate Init(s: State) {
    && s.holder == Free
    && s.stopper == Running
    && s.pro == EMPTY && s.con == EMPTY
    && (forall i | 0 <= i < |s.producers| :: s.producers[i] == Idle)
    && s.consumer == Entering
    && (forall k | 0 <= k < |s.sinks| :: s.sinks[k] == [])
    && s.batches == [] && s.staged == []
  }

  predicate Enabled(s: State, step: Step) {
    match step
    case Call(i, _) => i < |s.producers| && s.producers[i].Idle?
    case ProducerStep(i) =>
      && i < |s.producers|
      && !s.producers[i].Idle? && !s.producers[i].Blocked?
      && (s.producers[i].Acquiring? || s.producers[i].Waking? ==> s.holder.Free?)
      && s.pro.Valid()
    case ConsumerStep =>
      && !s.consumer.Asleep? && !s.consumer.Exited?
      && (s.consumer.Entering? || s.consumer.Rousing? ==> s.holder.Free?)
    case StopStore => s.stopper.Running?
    case StopNotify => s.stopper.Stored?
    case StopJoin => s.stopper.Notified? && s.consumer.Exited?
    case SpuriousProducer(i) => i < |s.producers| && s.producers[i].Blocked?
    case SpuriousConsumer => s.consumer.Asleep?
  }

  /** notify_all on _cond_pro. */
  function WakeAll(ps: seq<Producer>): (r: seq<Producer>)
    ensures |r| == |ps|
    ensures forall i | 0 <= i < |ps| :: r[i] == if ps[i].Blocked? then Waking(ps[i].rec) else ps[i]
  {
    seq(|ps|, i requires 0 <= i < |ps| => if ps[i].Blocked? then Waking(ps[i].rec) else ps[i])
  }

  function WakeConsumer(c: Consumer): Consumer {
    if c.Asleep? then Rousing else c
  }

  function NextProducer(s: State, i: nat): State
    requires Enabled(s, ProducerStep(i))
  {
    var p := s.producers[i];
    match p
    case Acquiring(rec) => s.(holder := HeldByProducer(i), producers := s.producers[i := Testing(rec)])
    case Waking(rec) => s.(holder := HeldByProducer(i), producers := s.producers[i := Testing(rec)])
    case Testing(rec) =>
      s.(producers := s.producers[i := if s.HasRoom(|rec|) then Appending(rec) else Parking(rec)])
    case Parking(rec) => s.(holder := Free, producers := s.producers[i := Blocked(rec)])
    case Appending(rec) =>
      s.(pro := s.pro.Push(rec), staged := s.staged + [rec], producers := s.producers[i := Notifying])
    case Notifying => s.(consumer := WakeConsumer(s.consumer), producers := s.producers[i := Releasing])
    case Releasing => s.(holder := Free, producers := s.producers[i := Idle])
  }

  function NextConsumer(s: State): State
    requires Enabled(s, ConsumerStep)
  {
    match s.consumer
    case Entering => s.(holder := HeldByConsumer, consumer := ExitCheck)
    case ExitCheck =>
      if s.Stop() && s.pro.unread == "" then s.(holder := Free, consumer := Exited)
      else s.(consumer := WaitCheck)
    case WaitCheck =>
      s.(consumer := if s.Stop() || s.pro.unread != "" then Swapping else Dozing)
    case Dozing => s.(holder := Free, consumer := Asleep)
    case Rousing => s.(holder := HeldByConsumer, consumer := WaitCheck)
    case Swapping =>
      s.(pro := s.con, con := s.pro, batches := s.batches + [s.staged], staged := [],
         consumer := if s.mode == ASYNC_SAFE then WakingProducers else Unlocking)
    case WakingProducers => s.(producers := WakeAll(s.producers), consumer := Unlocking)
    case Unlocking => s.(holder := Free, consumer := Delivering(0))
    case Delivering(k) =>
      if k < |s.sinks| then
        s.(sinks := s.sinks[k := s.sinks[k] + [s.con.unread]], consumer := Delivering(k + 1))
      else s.(consumer := Resetting)
    case Resetting => s.(con := s.con.Reset(), consumer := Entering)
  }

  function Next(s: State, step: Step): State
    requires Enabled(s, step)
  {
    match step
    case Call(i, rec) => s.(producers := s.producers[i := Acquiring(rec)])
    case ProducerStep(i) => NextProducer(s, i)
    case ConsumerStep => NextConsumer(s)
    case StopStore => s.(stopper := Stored)
    case StopNotify => s.(stopper := Notified(s.consumer.Dozing?), consumer := WakeConsumer(s.consumer))
    case StopJoin => s.(stopper := Joined(s.stopper.consumerDozed))
    case SpuriousProducer(i) => s.(producers := s.producers[i := Waking(s.producers[i].rec)])
    case SpuriousConsumer => s.(consumer := Rousing)
  }

  /** Every step of the list can be taken when its turn comes. */
  predicate Legal(s: State, steps: seq<Step>)
    decreases steps
  {
    steps == [] || (Enabled(s, steps[0]) && Legal(Next(s, steps[0]), steps[1..]))
  }

  function Exec(s: State, steps: seq<Step>): State
    requires Legal(s, steps)
    decreases steps
  {
    if steps == [] then s else Exec(Next(s, steps[0]), steps[1..])
  }

  /** The records appended during a run, in the order their threads held the mutex. */
  function Accepted(s: State, steps: seq<Step>): seq<Record>
    requires Legal(s, steps)
    decreases steps
  {
    if steps == [] then []
    else
      var step := steps[0];
      var here := if step.ProducerStep? && s.producers[step.id].Appending?
                  then [s.producers[step.id].rec] else [];
      here + Accepted(Next(s, step), steps[1..])
  }

  // --------------------------------------------------------------- invariants

  predicate ProducerHolds(p: Producer) {
    p.Testing? || p.Parking? || p.Appending? || p.Notifying? || p.Releasing?
  }

  predicate ConsumerHolds(c: Consumer) {
    c.ExitCheck? || c.WaitCheck? || c.Dozing? || c.Swapping? || c.WakingProducers? || c.Unlocking?
  }

  /** Mutual exclusion: the mutex belongs to exactly the thread inside it. */
  predicate LockInv(s: State) {
    && (forall i | 0 <= i < |s.producers| :: ProducerHolds(s.producers[i]) <==> s.holder == HeldByProducer(i))
    && (ConsumerHolds(s.consumer) <==> s.holder == HeldByConsumer)
    && (s.holder.HeldByProducer? ==> s.holder.id < |s.producers|)
  }

  /** A batch was swapped out and is not yet reset. */
  predicate BatchOut(c: Consumer) {
    c.WakingProducers? || c.Unlocking? || c.Delivering? || c.Resetting?
  }

  /** The batch swapped out last has not reached sink k. */
  predicate Undelivered(c: Consumer, k: nat) {
    c.WakingProducers? || c.Unlocking? || (c.Delivering? && c.sink <= k)
  }

  /** The batches sink k has been handed. */
  function DeliveredTo(s: State, k: nat): seq<seq<Record>> {
    if Undelivered(s.consumer, k) && s.batches != [] then s.batches[..|s.batches| - 1] else s.batches
  }

  /** Both buffers hold whole records, and every sink call carries one whole batch. */
  predicate DataInv(s: State) {
    && s.pro.Valid() && s.con.Valid()
    && s.pro.consumed == 0 && s.con.consumed == 0
    && s.pro.unread == Flat(s.staged)
    && (BatchOut(s.consumer) ==> s.batches != [] && s.con.unread == Flat(s.batches[|s.batches| - 1]))
    && (!BatchOut(s.consumer) ==> s.con.unread == "")
    && (s.consumer.Delivering? ==> s.consumer.sink <= |s.sinks|)
    && (forall k | 0 <= k < |s.sinks| :: s.sinks[k] == FlatEach(DeliveredTo(s, k)))
  }

  /** In safe mode neither array ever grows. */
  predicate SizeInv(s: State) {
    s.mode == ASYNC_SAFE ==> s.pro.capacity == DEFAULT_BUFFER_SIZE && s.con.capacity == DEFAULT_BUFFER_SIZE
  }

  /** What each blocked or deciding thread still knows about the buffer. */
  predicate ProducerInv(s: State, p: Producer)
    requires s.pro.Valid()
  {
    && (p.Parking? ==> !s.HasRoom(|p.rec|))
    && (p.Appending? ==> s.HasRoom(|p.rec|))
    && (p.Blocked? && s.HasRoom(|p.rec|) ==> s.consumer.WakingProducers?)
    && (p.Parking? || p.Blocked? || p.Waking? ==> s.mode == ASYNC_SAFE)
  }

  predicate WaitInv(s: State) {
    && s.pro.Valid()
    && (forall i | 0 <= i < |s.producers| :: ProducerInv(s, s.producers[i]))
    && (s.consumer.Dozing? ==> s.pro.unread == "")
    && (s.consumer.Asleep? && s.pro.unread != "" ==>
          s.holder.HeldByProducer? && s.holder.id < |s.producers| && s.producers[s.holder.id].Notifying?)
    && (s.consumer.WakingProducers? ==> s.mode == ASYNC_SAFE)
  }

  /** What the caller of `stop` has achieved. */
  predicate StopInv(s: State) {
    && (s.stopper.Notified? && !s.stopper.consumerDozed ==> !s.consumer.Dozing? && !s.consumer.Asleep?)
    && (s.stopper.Joined? ==> s.consumer.Exited?)
    && (s.consumer.Exited? ==> s.Stop())
  }

  predicate Inv(s: State) {
    LockInv(s) && DataInv(s) && SizeInv(s) && WaitInv(s) && StopInv(s)
  }

  lemma InitInv(s: State)
    requires Init(s)
    ensures Inv(s)
  {
  }

  lemma ProducerKeepsLock(s: State, i: nat)
    requires LockInv(s) && Enabled(s, ProducerStep(i))
    ensures LockInv(NextProducer(s, i))
  {
  }

  lemma ProducerKeepsData(s: State, i: nat)
    requires DataInv(s) && Enabled(s, ProducerStep(i))
    ensures DataInv(NextProducer(s, i))
  {
    var t := NextProducer(s, i);
    if s.producers[i].Appending? {
      FlatSnoc(s.staged, s.producers[i].rec);
    }
    assert BatchOut(t.consumer) == BatchOut(s.consumer);
    assert forall k | 0 <= k < |s.sinks| :: DeliveredTo(t, k) == DeliveredTo(s, k);
  }

  lemma ProducerKeepsWait(s: State, i: nat)
    requires LockInv(s) && WaitInv(s) && s.con.Valid() && Enabled(s, ProducerStep(i))
    ensures WaitInv(NextProducer(s, i))
  {
    var t := NextProducer(s, i);
    forall j | 0 <= j < |t.producers|
      ensures ProducerInv(t, t.producers[j])
    {
      assert ProducerInv(s, s.producers[j]);
    }
  }

  lemma ProducerKeepsRest(s: State, i: nat)
    requires Enabled(s, ProducerStep(i)) && ProducerInv(s, s.producers[i]) && SizeInv(s) && StopInv(s)
    ensures SizeInv(NextProducer(s, i)) && StopInv(NextProducer(s, i))
  {
    var t := NextProducer(s, i);
    assert t.con == s.con && t.mode == s.mode && t.stopper == s.stopper;
    assert t.consumer == s.consumer || t.consumer == WakeConsumer(s.consumer);
    if s.producers[i].Appending? {
      assert s.mode == ASYNC_SAFE ==> t.pro.capacity == s.pro.capacity;
    } else {
      assert t.pro == s.pro;
    }
  }

  lemma ProducerKeepsInv(s: State, i: nat)
    requires Inv(s) && Enabled(s, ProducerStep(i))
    ensures Inv(NextProducer(s, i))
  {
    ProducerKeepsLock(s, i);
    ProducerKeepsData(s, i);
    ProducerKeepsWait(s, i);
    ProducerKeepsRest(s, i);
  }

  lemma ConsumerKeepsLock(s: State)
    requires LockInv(s) && Enabled(s, ConsumerStep)
    ensures LockInv(NextConsumer(s))
  {
  }

  lemma SwapKeepsData(s: State)
    requires DataInv(s) && s.consumer.Swapping?
    ensures DataInv(NextConsumer(s))
  {
    var t := NextConsumer(s);
    assert t.batches[..|t.batches| - 1] == s.batches;
  }

  lemma DeliverKeepsData(s: State)
    requires DataInv(s) && s.consumer.Delivering?
    ensures DataInv(NextConsumer(s))
  {
    var t := NextConsumer(s);
    var k := s.consumer.sink;
    if k < |s.sinks| {
      var n := |s.batches| - 1;
      FlatEachSnoc(s.batches[..n], s.batches[n]);
      assert s.batches[..n] + [s.batches[n]] == s.batches;
      forall j | 0 <= j < |t.sinks|
        ensures t.sinks[j] == FlatEach(DeliveredTo(t, j))
      {
        assert s.sinks[j] == FlatEach(DeliveredTo(s, j));
      }
    } else {
      assert forall j | 0 <= j < |s.sinks| :: DeliveredTo(t, j) == DeliveredTo(s, j);
    }
  }

  lemma SameData(s: State, t: State)
    requires DataInv(s)
    requires t.pro == s.pro && t.con == s.con && t.sinks == s.sinks && t.batches == s.batches && t.staged == s.staged
    requires BatchOut(t.consumer) == BatchOut(s.consumer)
    requires forall k: nat :: Undelivered(t.consumer, k) == Undelivered(s.consumer, k)
    requires t.consumer.Delivering? ==> t.consumer.sink <= |t.sinks|
    ensures DataInv(t)
  {
    assert forall k | 0 <= k < |s.sinks| :: DeliveredTo(t, k) == DeliveredTo(s, k);
  }

  lemma ResetKeepsData(s: State)
    requires DataInv(s) && s.consumer.Resetting?
    ensures DataInv(NextConsumer(s))
  {
    assert forall k | 0 <= k < |s.sinks| :: DeliveredTo(NextConsumer(s), k) == DeliveredTo(s, k);
  }

  lemma {:induction false} ConsumerKeepsData(s: State)
    requires DataInv(s) && Enabled(s, ConsumerStep)
    ensures DataInv(NextConsumer(s))
  {
    if s.consumer.Swapping? {
      SwapKeepsData(s);
    } else if s.consumer.Delivering? {
      DeliverKeepsData(s);
    } else if s.consumer.Resetting? {
      ResetKeepsData(s);
    } else {
      SameData(s, NextConsumer(s));
    }
  }

  lemma SwapKeepsProducers(s: State)
    requires LockInv(s) && DataInv(s) && SizeInv(s) && WaitInv(s) && s.consumer.Swapping?
    ensures WaitInv(NextConsumer(s))
  {
    var t := NextConsumer(s);
    forall j | 0 <= j < |t.producers|
      ensures ProducerInv(t, t.producers[j])
    {
      assert ProducerInv(s, s.producers[j]);
    }
  }

  lemma ConsumerKeepsWait(s: State)
    requires LockInv(s) && DataInv(s) && SizeInv(s) && WaitInv(s) && Enabled(s, ConsumerStep)
    ensures WaitInv(NextConsumer(s))
  {
    if s.consumer.Swapping? {
      SwapKeepsProducers(s);
    } else {
      var t := NextConsumer(s);
      forall j | 0 <= j < |t.producers|
        ensures ProducerInv(t, t.producers[j])
      {
        assert ProducerInv(s, s.producers[j]);
      }
    }
  }

  lemma ConsumerKeepsRest(s: State)
    requires StopInv(s) && SizeInv(s) && Enabled(s, ConsumerStep)
    ensures StopInv(NextConsumer(s)) && SizeInv(NextConsumer(s))
  {
  }

  lemma OtherKeepsLock(s: State, step: Step)
    requires LockInv(s) && Enabled(s, step) && !step.ProducerStep? && !step.ConsumerStep?
    ensures LockInv(Next(s, step))
  {
  }

  lemma OtherKeepsData(s: State, step: Step)
    requires DataInv(s) && Enabled(s, step) && !step.ProducerStep? && !step.ConsumerStep?
    ensures DataInv(Next(s, step))
  {
    SameData(s, Next(s, step));
  }

  lemma OtherKeepsWait(s: State, step: Step)
    requires LockInv(s) && WaitInv(s) && Enabled(s, step) && !step.ProducerStep? && !step.ConsumerStep?
    ensures WaitInv(Next(s, step))
  {
    var t := Next(s, step);
    forall j | 0 <= j < |t.producers|
      ensures ProducerInv(t, t.producers[j])
    {
      assert ProducerInv(s, s.producers[j]);
    }
  }

  lemma StepKeepsInv(s: State, step: Step)
    requires Inv(s) && Enabled(s, step)
    ensures Inv(Next(s, step))
  {
    if step.ProducerStep? {
      ProducerKeepsInv(s, step.id);
    } else if step.ConsumerStep? {
      ConsumerKeepsLock(s);
      ConsumerKeepsData(s);
      ConsumerKeepsWait(s);
      ConsumerKeepsRest(s);
    } else {
      OtherKeepsLock(s, step);
      OtherKeepsData(s, step);
      OtherKeepsWait(s, step);
    }
  }

  lemma {:induction false} RunKeepsInv(s: State, steps: seq<Step>)
    requires Inv(s) && Legal(s, steps)
    ensures Inv(Exec(s, steps))
    decreases steps
  {
    if steps != [] {
      StepKeepsInv(s, steps[0]);
      RunKeepsInv(Next(s, steps[0]), steps[1..]);
    }
  }
}
