/** What the asynchronous looper promises over all runs. */
module LooperTheorems {
  import opened LogBuffer
  import opened Text
  import opened LooperModel
  import opened Loggers
  import opened Counting

  // ------------------------------------------------------------- conservation

  /** What one step appends. */
  function AcceptedBy(s: State, step: Step): seq<Record>
    requires Enabled(s, step)
  {
    if step.ProducerStep? && s.producers[step.id].Appending? then [s.producers[step.id].rec] else []
  }

  lemma ProducerHistory(s: State, i: nat)
    requires Enabled(s, ProducerStep(i))
    ensures var t := NextProducer(s, i);
            && t.batches == s.batches && t.staged == s.staged + AcceptedBy(s, ProducerStep(i))
            && t.mode == s.mode && |t.producers| == |s.producers| && |t.sinks| == |s.sinks|
  {
    if AcceptedBy(s, ProducerStep(i)) == [] {
      assert s.staged + [] == s.staged;
    }
  }

  lemma ConsumerHistory(s: State)
    requires Enabled(s, ConsumerStep)
    ensures var t := NextConsumer(s);
            && Flat(t.batches) + t.staged == Flat(s.batches) + s.staged
            && t.mode == s.mode && |t.producers| == |s.producers| && |t.sinks| == |s.sinks|
  {
    if s.consumer.Swapping? {
      FlatSnoc(s.batches, s.staged);
      assert Flat(s.batches + [s.staged]) + [] == Flat(s.batches) + s.staged;
    }
  }

  lemma StepHistory(s: State, step: Step)
    requires Enabled(s, step)
    ensures var t := Next(s, step);
            && Flat(t.batches) + t.staged == Flat(s.batches) + s.staged + AcceptedBy(s, step)
            && t.mode == s.mode && |t.producers| == |s.producers| && |t.sinks| == |s.sinks|
  {
    var before := Flat(s.batches) + s.staged;
    if step.ProducerStep? {
      ProducerHistory(s, step.id);
      Assoc(Flat(s.batches), s.staged, AcceptedBy(s, step));
    } else {
      assert before + [] == before;
      if step.ConsumerStep? {
        ConsumerHistory(s);
      }
    }
  }

  lemma {:induction false} RunHistory(s: State, steps: seq<Step>)
    requires Legal(s, steps)
    ensures var t := Exec(s, steps);
            && Flat(t.batches) + t.staged == Flat(s.batches) + s.staged + Accepted(s, steps)
            && t.mode == s.mode && |t.producers| == |s.producers| && |t.sinks| == |s.sinks|
    decreases steps
  {
    var before := Flat(s.batches) + s.staged;
    if steps == [] {
      assert before + [] == before;
    } else {
      StepHistory(s, steps[0]);
      RunHistory(Next(s, steps[0]), steps[1..]);
      Assoc(before, AcceptedBy(s, steps[0]), Accepted(Next(s, steps[0]), steps[1..]));
    }
  }

  /** The bytes swapped out but not yet handed to sink k. */
  function InFlight(s: State, k: nat): string {
    if Undelivered(s.consumer, k) then s.con.unread else ""
  }

  lemma DeliveredPlusInFlight(s: State, k: nat)
    requires Inv(s) && k < |s.sinks|
    ensures Flat(s.sinks[k]) + InFlight(s, k) == Flat(Flat(s.batches))
  {
    FlatFlat(DeliveredTo(s, k));
    if Undelivered(s.consumer, k) {
      var n := |s.batches| - 1;
      assert s.batches == s.batches[..n] + [s.batches[n]];
      FlatSnoc(s.batches[..n], s.batches[n]);
      FlatAppend(Flat(s.batches[..n]), s.batches[n]);
    }
  }

  /** Async refines sync, for every run and every sink: what the sink got, then
      what is in the consumer's hands, then what is still staged is exactly what
      SyncLogger writes to that sink for the same records in mutex order. */
  lemma AsyncRefinesSync(s: State, steps: seq<Step>, k: nat)
    requires Init(s) && Legal(s, steps) && k < |s.sinks|
    ensures var t := Exec(s, steps);
            && |t.sinks| == |s.sinks|
            && Flat(t.sinks[k]) + InFlight(t, k) + t.pro.unread
               == Flat(SyncRun(s.sinks, Accepted(s, steps))[k])
  {
    var t := Exec(s, steps);
    InitInv(s);
    RunKeepsInv(s, steps);
    RunHistory(s, steps);
    DeliveredPlusInFlight(t, k);
    FlatAppend(Flat(t.batches), t.staged);
    SyncRunAppends(s.sinks, Accepted(s, steps), k);
    assert Flat(s.batches) + s.staged + Accepted(s, steps) == Accepted(s, steps);
    assert s.sinks[k] + Accepted(s, steps) == Accepted(s, steps);
  }

  /** Every call to a sink carries whole records, in mutex order, none missing. */
  lemma NoRecordIsSplit(s: State, steps: seq<Step>, k: nat)
    requires Init(s) && Legal(s, steps) && k < |s.sinks|
    ensures var t := Exec(s, steps);
            && |t.sinks| == |s.sinks|
            && t.sinks[k] == FlatEach(DeliveredTo(t, k))
            && Flat(DeliveredTo(t, k)) <= Accepted(s, steps)
  {
    var t := Exec(s, steps);
    InitInv(s);
    RunKeepsInv(s, steps);
    RunHistory(s, steps);
    var d := DeliveredTo(t, k);
    assert t.batches == d + t.batches[|d|..];
    FlatAppend(d, t.batches[|d|..]);
    assert Flat(s.batches) + s.staged + Accepted(s, steps) == Accepted(s, steps);
  }

  /** At the step with which the consumer leaves its loop both buffers are empty
      and every sink has every byte accepted until then. */
  lemma DrainedAtExit(s: State, steps: seq<Step>)
    requires Init(s) && Legal(s, steps) && Enabled(Exec(s, steps), ConsumerStep)
    requires Next(Exec(s, steps), ConsumerStep).consumer.Exited?
    ensures var t := Next(Exec(s, steps), ConsumerStep);
            && t.Stop() && t.pro.unread == "" && t.con.unread == ""
            && forall k | 0 <= k < |t.sinks| :: Flat(t.sinks[k]) == Flat(Accepted(s, steps))
  {
    var u := Exec(s, steps);
    InitInv(s);
    RunKeepsInv(s, steps);
    RunHistory(s, steps);
    ExitIsDrained(u);
    forall k | 0 <= k < |s.sinks|
      ensures Flat(u.sinks[k]) == Flat(Accepted(s, steps))
    {
      SinkHasEverything(s, steps, k);
    }
  }

  /** The consumer leaves only through its exit test. */
  lemma ExitIsDrained(u: State)
    requires DataInv(u) && Enabled(u, ConsumerStep) && NextConsumer(u).consumer.Exited?
    ensures u.consumer.ExitCheck? && u.Stop() && u.pro.unread == "" && u.con.unread == ""
    ensures NextConsumer(u) == u.(holder := Free, consumer := Exited)
  {
  }

  lemma SinkHasEverything(s: State, steps: seq<Step>, k: nat)
    requires Init(s) && Legal(s, steps) && k < |s.sinks|
    requires Exec(s, steps).pro.unread == "" && !Undelivered(Exec(s, steps).consumer, k)
    ensures |Exec(s, steps).sinks| == |s.sinks| && Flat(Exec(s, steps).sinks[k]) == Flat(Accepted(s, steps))
  {
    AsyncRefinesSync(s, steps, k);
    SyncRunAppends(s.sinks, Accepted(s, steps), k);
    assert s.sinks[k] + Accepted(s, steps) == Accepted(s, steps);
    var f := Flat(Exec(s, steps).sinks[k]);
    assert f + "" + "" == f;
  }

  // ---------------------------------------------------------------- safe mode

  /** In safe mode both arrays keep their first size, what is appended always
      fits, and right after a swap there is room for any record of up to 1 MiB. */
  lemma SafeModeNeverResizes(s: State, steps: seq<Step>)
    requires Init(s) && Legal(s, steps) && s.mode == ASYNC_SAFE
    ensures var t := Exec(s, steps);
            && Inv(t)
            && t.pro.capacity == t.con.capacity == 1024 * 1024
            && (forall i | 0 <= i < |t.producers| && t.producers[i].Appending? ::
                  |t.producers[i].rec| <= t.pro.Free() <= 1024 * 1024)
            && (t.consumer.Swapping? ==> Next(t, ConsumerStep).pro.Free() == 1024 * 1024)
  {
    InitInv(s);
    RunKeepsInv(s, steps);
    RunHistory(s, steps);
    var t := Exec(s, steps);
    forall i | 0 <= i < |t.producers| && t.producers[i].Appending?
      ensures |t.producers[i].rec| <= t.pro.Free() <= 1024 * 1024
    {
      assert ProducerInv(t, t.producers[i]);
    }
  }

  /** No lost wake-up: while the mutex is free, a sleeping consumer has nothing
      to fetch, a blocked producer has no room, and with records of at most
      1 MiB the two are never stuck at once. */
  lemma NeverBothBlocked(s: State, steps: seq<Step>, i: nat)
    requires Init(s) && Legal(s, steps) && i < |s.producers|
    requires Exec(s, steps).holder.Free?
    ensures var t := Exec(s, steps);
            && Inv(t) && i < |t.producers|
            && (t.consumer.Asleep? ==> t.pro.unread == "")
            && (t.producers[i].Blocked? ==> t.pro.Free() < |t.producers[i].rec|)
            && (t.producers[i].Blocked? && t.consumer.Asleep? ==> |t.producers[i].rec| > 1024 * 1024)
  {
    InitInv(s);
    RunKeepsInv(s, steps);
    RunHistory(s, steps);
    var t := Exec(s, steps);
    assert ProducerInv(t, t.producers[i]);
  }

  // ------------------------------------------------------------------- growth

  /** The call a step makes on one of the two buffers. */
  function OpOf(s: State, step: Step): seq<Op>
    requires Enabled(s, step)
  {
    if step.ProducerStep? && s.producers[step.id].Appending? then [Op.Push(true, s.producers[step.id].rec)]
    else if step.ConsumerStep? && s.consumer.Swapping? then [Op.Swap]
    else if step.ConsumerStep? && s.consumer.Resetting? then [Op.Reset(false)]
    else []
  }

  function OpsOf(s: State, steps: seq<Step>): seq<Op>
    requires Legal(s, steps)
    decreases steps
  {
    if steps == [] then [] else OpOf(s, steps[0]) + OpsOf(Next(s, steps[0]), steps[1..])
  }

  /** The most bytes the producer buffer ever held during a run. */
  function MostHeld(s: State, steps: seq<Step>): nat
    requires Legal(s, steps)
    decreases steps
  {
    var later := if steps == [] then 0 else MostHeld(Next(s, steps[0]), steps[1..]);
    if s.pro.Writer() > later then s.pro.Writer() else later
  }

  function Max(x: nat, y: nat): nat { if x > y then x else y }

  lemma RunOpsCons(a: Tracked, b: Tracked, op: Op, rest: seq<Op>)
    requires a.Valid() && b.Valid() && Allowed(a, b, op)
    ensures RunOps(a, b, [op] + rest) == RunOps(ApplyPair(a, b, op).0, ApplyPair(a, b, op).1, rest)
  {
    assert ([op] + rest)[1..] == rest;
  }

  /** The two buffers of the looper and their histories after one step. */
  function Followed(a: Tracked, b: Tracked, s: State, step: Step): (r: (Tracked, Tracked))
    requires a.Valid() && b.Valid() && Enabled(s, step)
    ensures r.0.Valid() && r.1.Valid()
  {
    if OpOf(s, step) == [] then (a, b) else ApplyPair(a, b, OpOf(s, step)[0])
  }

  lemma StepFollowsOp(s: State, step: Step, a: Tracked, b: Tracked)
    requires a.Valid() && b.Valid() && a.view == s.pro && b.view == s.con && Enabled(s, step)
    ensures var t := Next(s, step);
            var r := Followed(a, b, s, step);
            && r.0.view == t.pro && r.1.view == t.con
            && Max(r.0.peak, r.1.peak) <= Max(Max(a.peak, b.peak), t.pro.Writer())
  {
  }

  /** The looper uses its buffers only through these calls, and no array ever
      held more than the producer buffer did at some moment. */
  lemma {:induction false} RunFollowsOps(s: State, steps: seq<Step>, a: Tracked, b: Tracked)
    requires a.Valid() && b.Valid() && a.view == s.pro && b.view == s.con && Legal(s, steps)
    ensures var r := RunOps(a, b, OpsOf(s, steps));
            && r.0.view == Exec(s, steps).pro && r.1.view == Exec(s, steps).con
            && Max(r.0.peak, r.1.peak) <= Max(Max(a.peak, b.peak), MostHeld(s, steps))
    decreases steps
  {
    if steps != [] {
      var t := Next(s, steps[0]);
      var r := Followed(a, b, s, steps[0]);
      StepFollowsOp(s, steps[0], a, b);
      RunFollowsOps(t, steps[1..], r.0, r.1);
      var rest := OpsOf(t, steps[1..]);
      if OpOf(s, steps[0]) == [] {
        assert [] + rest == rest;
      } else {
        RunOpsCons(a, b, OpOf(s, steps[0])[0], rest);
      }
    }
  }

  /** In both modes and in every reachable state each array is exactly 1 MiB, or
      smaller than three times the most the producer buffer held so far. */
  lemma ArraysStayInProportion(s: State, steps: seq<Step>)
    requires Init(s) && Legal(s, steps)
    ensures var t := Exec(s, steps);
            && (t.pro.capacity == 1024 * 1024 || t.pro.capacity < 3 * MostHeld(s, steps))
            && (t.con.capacity == 1024 * 1024 || t.con.capacity < 3 * MostHeld(s, steps))
  {
    RunFollowsOps(s, steps, Tracked(EMPTY, 0, 0), Tracked(EMPTY, 0, 0));
    GrowthBound(OpsOf(s, steps), true);
    GrowthBound(OpsOf(s, steps), false);
  }

  // ----------------------------------------------------------------- progress

  /** The steps threads take on their own: no new call, no spurious wake-up. */
  predicate Internal(step: Step) {
    step.ProducerStep? || step.ConsumerStep? || step.StopNotify? || step.StopJoin?
  }

  ghost predicate Stuck(s: State) {
    forall step: Step :: Internal(step) ==> !Enabled(s, step)
  }

  function StopRank(s: State): nat {
    match s.stopper
    case Stored => 2
    case Notified(_) => 1
    case _ => 0
  }

  /** Notifications and records a producer still owes. */
  function Owed(p: Producer): nat {
    if p.Idle? || p.Releasing? then 0 else if p.Notifying? then 1 else 2
  }

  function ProducerRank(p: Producer): nat {
    match p
    case Acquiring(_) => 4
    case Waking(_) => 4
    case Testing(_) => 3
    case Parking(_) => 2
    case Appending(_) => 2
    case Notifying => 2
    case Blocked(_) => 1
    case Releasing => 1
    case Idle => 0
  }

  /** Steps the consumer can take until it swaps, with data waiting and n sinks. */
  function RankWithData(c: Consumer, n: nat): nat {
    match c
    case WakingProducers => 7 + n
    case Unlocking => 6 + n
    case Delivering(k) => if k <= n then 5 + n - k else 0
    case Resetting => 4
    case Entering => 3
    case ExitCheck => 2
    case Rousing => 2
    case WaitCheck => 1
    case Dozing => 1
    case _ => 0
  }

  /** Without data, after stop: until it exits, or sleeps. */
  function RankStopping(c: Consumer, n: nat): nat {
    match c
    case Rousing => 9 + n
    case WaitCheck => 8 + n
    case Swapping => 7 + n
    case WakingProducers => 6 + n
    case Unlocking => 5 + n
    case Delivering(k) => if k <= n then 4 + n - k else 0
    case Resetting => 3
    case Entering => 2
    case ExitCheck => 1
    case Dozing => 1
    case _ => 0
  }

  /** Without data and without stop: until it sleeps. */
  function RankIdle(c: Consumer, n: nat): nat {
    match c
    case Swapping => 9 + n
    case WakingProducers => 8 + n
    case Unlocking => 7 + n
    case Delivering(k) => if k <= n then 6 + n - k else 0
    case Resetting => 5
    case Entering => 4
    case ExitCheck => 3
    case Rousing => 3
    case WaitCheck => 2
    case Dozing => 1
    case _ => 0
  }

  /** Steps the consumer can take before the next swap, or before it rests. */
  function ConsumerRank(s: State): nat {
    if s.pro.unread != "" then RankWithData(s.consumer, |s.sinks|)
    else if s.Stop() then RankStopping(s.consumer, |s.sinks|)
    else RankIdle(s.consumer, |s.sinks|)
  }

  datatype Measure = Measure(stop: nat, owed: nat, unread: nat, consumer: nat, producers: nat)

  function MeasureOf(s: State): Measure {
    Measure(StopRank(s), Total(s.producers, Owed), if s.pro.unread != "" then 1 else 0,
            ConsumerRank(s), Total(s.producers, ProducerRank))
  }

  predicate Less(a: Measure, b: Measure) {
    || a.stop < b.stop
    || (a.stop == b.stop && (
        || a.owed < b.owed
        || (a.owed == b.owed && (
            || a.unread < b.unread
            || (a.unread == b.unread && (
                || a.consumer < b.consumer
                || (a.consumer == b.consumer && a.producers < b.producers)))))))
  }

  lemma WeightsAfter(s: State, i: nat)
    requires Enabled(s, ProducerStep(i))
    ensures var t := NextProducer(s, i);
            && i < |t.producers|
            && Total(t.producers, Owed) + Owed(s.producers[i]) == Total(s.producers, Owed) + Owed(t.producers[i])
            && Total(t.producers, ProducerRank) + ProducerRank(s.producers[i])
               == Total(s.producers, ProducerRank) + ProducerRank(t.producers[i])
  {
    var p := NextProducer(s, i).producers[i];
    TotalUpdate(s.producers, i, p, Owed);
    TotalUpdate(s.producers, i, p, ProducerRank);
  }

  lemma SameRank(s: State, t: State)
    requires t.consumer == s.consumer && t.sinks == s.sinks && t.pro == s.pro && t.stopper == s.stopper
    ensures ConsumerRank(t) == ConsumerRank(s)
  {
  }

  lemma ProducerStepDecreases(s: State, i: nat)
    requires Enabled(s, ProducerStep(i))
    ensures Less(MeasureOf(NextProducer(s, i)), MeasureOf(s))
  {
    var t := NextProducer(s, i);
    WeightsAfter(s, i);
    if s.producers[i].Appending? || s.producers[i].Notifying? {
      assert Total(t.producers, Owed) < Total(s.producers, Owed);
    } else {
      SameRank(s, t);
      assert Total(t.producers, Owed) == Total(s.producers, Owed);
      assert Total(t.producers, ProducerRank) < Total(s.producers, ProducerRank);
    }
  }

  lemma ConsumerOwesNothing(s: State)
    requires Enabled(s, ConsumerStep)
    ensures Total(NextConsumer(s).producers, Owed) == Total(s.producers, Owed)
    ensures StopRank(NextConsumer(s)) == StopRank(s)
  {
    TotalSame(s.producers, NextConsumer(s).producers, Owed);
  }

  /** All the consumer can do next, except swapping. */
  lemma ConsumerMoves(s: State)
    requires DataInv(s) && Enabled(s, ConsumerStep) && !s.consumer.Swapping?
    ensures var t := NextConsumer(s);
            && t.pro == s.pro && t.stopper == s.stopper && |t.sinks| == |s.sinks|
            && t.consumer == match s.consumer
                             case Entering => ExitCheck
                             case ExitCheck => if s.Stop() && s.pro.unread == "" then Exited else WaitCheck
                             case WaitCheck => if s.Stop() || s.pro.unread != "" then Swapping else Dozing
                             case Dozing => Asleep
                             case Rousing => WaitCheck
                             case WakingProducers => Unlocking
                             case Unlocking => Delivering(0)
                             case Delivering(k) => if k < |s.sinks| then Delivering(k + 1) else Resetting
                             case _ => Entering
  {
  }

  lemma RankFalls(s: State)
    requires DataInv(s) && WaitInv(s) && Enabled(s, ConsumerStep) && !s.consumer.Swapping?
    ensures ConsumerRank(NextConsumer(s)) < ConsumerRank(s)
  {
    ConsumerMoves(s);
    var c, n := NextConsumer(s).consumer, |s.sinks|;
    if s.pro.unread != "" {
      assert RankWithData(c, n) < RankWithData(s.consumer, n);
    } else if s.Stop() {
      assert RankStopping(c, n) < RankStopping(s.consumer, n);
    } else {
      assert RankIdle(c, n) < RankIdle(s.consumer, n);
    }
  }

  lemma SwapDecreases(s: State)
    requires DataInv(s) && s.consumer.Swapping?
    ensures NextConsumer(s).pro.unread == ""
    ensures s.pro.unread == "" ==> ConsumerRank(NextConsumer(s)) < ConsumerRank(s)
  {
    var n := |s.sinks|;
    assert NextConsumer(s).consumer == if s.mode == ASYNC_SAFE then WakingProducers else Unlocking;
    assert RankStopping(NextConsumer(s).consumer, n) < RankStopping(Swapping, n);
    assert RankIdle(NextConsumer(s).consumer, n) < RankIdle(Swapping, n);
  }

  lemma ConsumerStepDecreases(s: State)
    requires DataInv(s) && WaitInv(s) && StopInv(s) && Enabled(s, ConsumerStep)
    ensures Less(MeasureOf(NextConsumer(s)), MeasureOf(s))
  {
    ConsumerOwesNothing(s);
    if s.consumer.Swapping? {
      SwapDecreases(s);
    } else {
      ConsumerMoves(s);
      RankFalls(s);
    }
  }

  /** Every step a thread takes on its own brings the system closer to rest. */
  lemma InternalStepDecreases(s: State, step: Step)
    requires Inv(s) && Internal(step) && Enabled(s, step)
    ensures Less(MeasureOf(Next(s, step)), MeasureOf(s))
  {
    match step
    case ProducerStep(i) => ProducerStepDecreases(s, i);
    case ConsumerStep => ConsumerStepDecreases(s);
    case _ =>
  }

  /** When nothing moves on its own, either the consumer has exited, or it sleeps
      on an empty buffer and only records that can never fit are waiting. Then
      every sink has every batch. */
  lemma StuckMeansSettled(s: State)
    requires Inv(s) && Stuck(s)
    ensures s.holder.Free? && !s.stopper.Stored?
    ensures s.consumer.Exited? || (s.consumer.Asleep? && s.pro.unread == "" && s.con.unread == "")
    ensures forall i | 0 <= i < |s.producers| :: s.producers[i].Idle? || s.producers[i].Blocked?
    ensures s.consumer.Asleep? ==> forall i | 0 <= i < |s.producers| && s.producers[i].Blocked? ::
              s.mode == ASYNC_SAFE && |s.producers[i].rec| > 1024 * 1024
    ensures forall k | 0 <= k < |s.sinks| :: s.sinks[k] == FlatEach(s.batches)
    ensures s.Stop() && s.consumer.Asleep? ==> s.stopper.Notified? && s.stopper.consumerDozed
  {
    assert !Enabled(s, ConsumerStep);
    assert !Enabled(s, StopNotify);
    assert s.holder.HeldByProducer? ==> Enabled(s, ProducerStep(s.holder.id));
    forall i | 0 <= i < |s.producers|
      ensures s.producers[i].Idle? || s.producers[i].Blocked?
      ensures s.consumer.Asleep? && s.producers[i].Blocked? ==>
                s.mode == ASYNC_SAFE && |s.producers[i].rec| > 1024 * 1024
    {
      assert !Enabled(s, ProducerStep(i));
      assert ProducerInv(s, s.producers[i]);
    }
    assert !Enabled(s, StopJoin);
  }

  /** A schedule: while some thread can move on its own, one of them does. */
  ghost predicate Schedule(run: nat -> State, pick: nat -> Step) {
    forall n: nat {:trigger pick(n)} :: Moves(run(n), pick(n), run(n + 1))
  }

  ghost predicate Moves(s: State, step: Step, t: State) {
    Stuck(s) || (Internal(step) && Enabled(s, step) && t == Next(s, step))
  }

  lemma {:induction false} ScheduleSettles(run: nat -> State, pick: nat -> Step, n: nat) returns (m: nat)
    requires Schedule(run, pick) && Inv(run(n))
    ensures n <= m && Stuck(run(m)) && Inv(run(m))
    decreases MeasureOf(run(n)).stop, MeasureOf(run(n)).owed, MeasureOf(run(n)).unread,
              MeasureOf(run(n)).consumer, MeasureOf(run(n)).producers
  {
    if Stuck(run(n)) {
      m := n;
    } else {
      assert Moves(run(n), pick(n), run(n + 1));
      StepKeepsInv(run(n), pick(n));
      InternalStepDecreases(run(n), pick(n));
      m := ScheduleSettles(run, pick, n + 1);
    }
  }

  /** Everything appended so far, in mutex order. */
  function Pushed(s: State): seq<Record> { Flat(s.batches) + s.staged }

  /** At rest every sink has everything that was appended, except what nobody is
      left to fetch. */
  lemma SettledSinks(s: State, k: nat)
    requires Inv(s) && Stuck(s) && k < |s.sinks|
    ensures Flat(s.sinks[k]) + s.pro.unread == Flat(Pushed(s))
  {
    StuckMeansSettled(s);
    FlatFlat(s.batches);
    FlatAppend(Flat(s.batches), s.staged);
  }

  /** No deadlock and no livelock: from any reachable state, whatever the
      scheduler does, the threads come to rest after finitely many steps of
      their own; there the consumer has exited, or nothing is left in the
      buffer, every record that can fit was appended and every sink has it. */
  lemma EveryScheduleDelivers(s: State, steps: seq<Step>, run: nat -> State, pick: nat -> Step)
    requires Init(s) && Legal(s, steps) && run(0) == Exec(s, steps) && Schedule(run, pick)
    ensures exists m: nat ::
              && Stuck(run(m))
              && (forall k | 0 <= k < |run(m).sinks| ::
                    Flat(run(m).sinks[k]) + run(m).pro.unread == Flat(Pushed(run(m))))
              && (run(m).consumer.Exited?
                  || (&& run(m).pro.unread == ""
                      && (forall i | 0 <= i < |run(m).producers| ::
                            run(m).producers[i].Idle?
                            || (run(m).producers[i].Blocked? && |run(m).producers[i].rec| > 1024 * 1024))))
  {
    InitInv(s);
    RunKeepsInv(s, steps);
    var m := ScheduleSettles(run, pick, 0);
    StuckMeansSettled(run(m));
    forall k | 0 <= k < |run(m).sinks|
      ensures Flat(run(m).sinks[k]) + run(m).pro.unread == Flat(Pushed(run(m)))
    {
      SettledSinks(run(m), k);
    }
  }

  // --------------------------------------------------------------------- stop

  lemma {:induction false} NoticedStopStays(s: State, steps: seq<Step>)
    requires Inv(s) && Legal(s, steps) && s.stopper == Notified(false)
    ensures !Exec(s, steps).consumer.Asleep?
    decreases steps
  {
    if steps != [] {
      var t := Next(s, steps[0]);
      StepKeepsInv(s, steps[0]);
      if t.stopper.Joined? {
        ExitedStays(t, steps[1..]);
      } else {
        NoticedStopStays(t, steps[1..]);
      }
    }
  }

  lemma {:induction false} ExitedStays(s: State, steps: seq<Step>)
    requires Legal(s, steps) && s.consumer.Exited?
    ensures Exec(s, steps).consumer.Exited?
    decreases steps
  {
    if steps != [] {
      ExitedStays(Next(s, steps[0]), steps[1..]);
    }
  }

  /** Some continuation puts the consumer to sleep. */
  ghost predicate CanStillSleep(s: State) {
    exists more: seq<Step> :: Legal(s, more) && Exec(s, more).consumer.Asleep?
  }

  /** `stop` stores its flag outside the mutex, so its notification can be lost.
      It is lost exactly when the consumer, at that moment, has evaluated its
      predicate but not yet blocked: then the consumer can fall asleep after
      `stop` has notified, and otherwise it can never sleep again. */
  lemma StopIsLostExactlyWhenDozing(s: State, steps: seq<Step>)
    requires Init(s) && Legal(s, steps) && Exec(s, steps).stopper.Stored?
    ensures CanStillSleep(Next(Exec(s, steps), StopNotify)) <==> Exec(s, steps).consumer.Dozing?
  {
    var t := Exec(s, steps);
    InitInv(s);
    RunKeepsInv(s, steps);
    var u := Next(t, StopNotify);
    StepKeepsInv(t, StopNotify);
    if t.consumer.Dozing? {
      var more := [ConsumerStep];
      assert more[1..] == [];
      assert Legal(u, more) && Exec(u, more) == Next(u, ConsumerStep);
    } else {
      forall more: seq<Step> | Legal(u, more)
        ensures !Exec(u, more).consumer.Asleep?
      {
        NoticedStopStays(u, more);
      }
    }
  }

  /** The loss is real: this run, in which nothing is ever logged, ends with
      `stop` waiting forever for a consumer that sleeps. */
  lemma StopCanHang(s: State)
    requires Init(s)
    ensures var run := [ConsumerStep, ConsumerStep, ConsumerStep, StopStore, StopNotify, ConsumerStep];
            Legal(s, run) && Stuck(Exec(s, run)) && Exec(s, run).Stop() && !Exec(s, run).consumer.Exited?
  {
  }

  /** When no notification was lost, a stopped looper comes to rest only with
      the consumer exited and `stop` returned. */
  lemma StopReturnsUnlessLost(s: State, steps: seq<Step>)
    requires Init(s) && Legal(s, steps) && Stuck(Exec(s, steps)) && Exec(s, steps).Stop()
    ensures var t := Exec(s, steps);
            (t.stopper.Joined? && t.consumer.Exited?) || t.stopper == Notified(true)
  {
    var t := Exec(s, steps);
    InitInv(s);
    RunKeepsInv(s, steps);
    StuckMeansSettled(t);
    assert !Enabled(t, StopJoin);
  }

  // When does `stop` return under every schedule?

  /** A producer on its way to notifying the consumer. */
  predicate WillNotify(s: State, p: Producer)
    requires s.pro.Valid()
  {
    || ((p.Acquiring? || p.Waking? || p.Testing?) && s.HasRoom(|p.rec|))
    || p.Appending? || p.Notifying?
  }

  ghost predicate SomeoneWillNotify(s: State)
    requires s.pro.Valid()
  {
    exists i :: 0 <= i < |s.producers| && WillNotify(s, s.producers[i])
  }

  /** `stop` has set its flag, and the consumer is up, or will be woken by `stop`
      or by a producer. */
  ghost predicate SureToWake(s: State)
    requires s.pro.Valid()
  {
    && s.Stop()
    && ((!s.consumer.Dozing? && (s.stopper.Stored? || !s.consumer.Asleep?)) || SomeoneWillNotify(s))
  }

  /** `stop` has notified in vain, and no producer will notify either. */
  ghost predicate Abandoned(s: State)
    requires s.pro.Valid()
  {
    && s.stopper == Notified(true) && (s.consumer.Dozing? || s.consumer.Asleep?)
    && !SomeoneWillNotify(s)
  }

  /** Whether a producer will notify is kept by all steps of others that leave
      the buffer alone. */
  lemma StillWillNotify(s: State, t: State)
    requires s.pro.Valid() && t.pro == s.pro && t.mode == s.mode && SomeoneWillNotify(s)
    requires |t.producers| == |s.producers|
    requires forall i | 0 <= i < |s.producers| && !s.producers[i].Blocked? ::
               t.producers[i] == s.producers[i] || WillNotify(t, t.producers[i])
    ensures SomeoneWillNotify(t)
  {
    var j :| 0 <= j < |s.producers| && WillNotify(s, s.producers[j]);
    assert WillNotify(t, t.producers[j]);
  }

  lemma ProducerGoesOn(s: State, i: nat)
    requires s.pro.Valid() && Enabled(s, ProducerStep(i)) && NextProducer(s, i).pro.Valid()
    requires SomeoneWillNotify(s) && !s.producers[i].Notifying?
    ensures SomeoneWillNotify(NextProducer(s, i))
  {
    var t := NextProducer(s, i);
    assert t.producers == s.producers[i := t.producers[i]] && t.mode == s.mode;
    if s.producers[i].Appending? {
      assert WillNotify(t, t.producers[i]);
    } else {
      assert t.pro == s.pro;
      assert WillNotify(s, s.producers[i]) ==> WillNotify(t, t.producers[i]);
      var j :| 0 <= j < |s.producers| && WillNotify(s, s.producers[j]);
      assert WillNotify(t, t.producers[j]);
    }
  }

  lemma ProducerKeepsSure(s: State, i: nat)
    requires LockInv(s) && s.pro.Valid() && SureToWake(s) && Enabled(s, ProducerStep(i))
    requires NextProducer(s, i).pro.Valid()
    ensures SureToWake(NextProducer(s, i))
  {
    var t := NextProducer(s, i);
    assert t.stopper == s.stopper;
    if s.producers[i].Notifying? {
      assert ProducerHolds(s.producers[i]) && s.holder == HeldByProducer(i);
      assert !s.consumer.Dozing? && t.consumer == WakeConsumer(s.consumer);
    } else {
      assert t.consumer == s.consumer;
      if s.consumer.Dozing? || (!s.stopper.Stored? && s.consumer.Asleep?) {
        ProducerGoesOn(s, i);
      }
    }
  }

  lemma ConsumerKeepsSure(s: State)
    requires DataInv(s) && SureToWake(s) && Enabled(s, ConsumerStep)
    requires NextConsumer(s).pro.Valid()
    ensures SureToWake(NextConsumer(s))
  {
    var t := NextConsumer(s);
    assert t.stopper == s.stopper;
    if s.consumer.Dozing? {
      StillWillNotify(s, t);
    } else {
      assert !t.consumer.Dozing? && !t.consumer.Asleep?;
    }
  }

  lemma NotifyKeepsSure(s: State)
    requires s.pro.Valid() && SureToWake(s) && s.stopper.Stored?
    ensures SureToWake(Next(s, StopNotify))
  {
    if s.consumer.Dozing? {
      StillWillNotify(s, Next(s, StopNotify));
    }
  }

  lemma StepKeepsSure(s: State, step: Step)
    requires Inv(s) && SureToWake(s) && Internal(step) && Enabled(s, step)
    ensures Inv(Next(s, step)) && SureToWake(Next(s, step))
  {
    StepKeepsInv(s, step);
    match step
    case ProducerStep(i) => ProducerKeepsSure(s, i);
    case ConsumerStep => ConsumerKeepsSure(s);
    case StopNotify => NotifyKeepsSure(s);
    case _ =>
  }

  lemma SureMeansJoined(s: State)
    requires Inv(s) && SureToWake(s) && Stuck(s)
    ensures s.stopper.Joined?
  {
    StuckMeansSettled(s);
    assert !Enabled(s, StopJoin);
  }

  lemma {:induction false} SureReturns(run: nat -> State, pick: nat -> Step, n: nat) returns (m: nat)
    requires Schedule(run, pick) && Inv(run(n)) && SureToWake(run(n))
    ensures run(m).stopper.Joined?
    decreases MeasureOf(run(n)).stop, MeasureOf(run(n)).owed, MeasureOf(run(n)).unread,
              MeasureOf(run(n)).consumer, MeasureOf(run(n)).producers
  {
    if Stuck(run(n)) {
      SureMeansJoined(run(n));
      m := n;
    } else {
      assert Moves(run(n), pick(n), run(n + 1));
      StepKeepsSure(run(n), pick(n));
      InternalStepDecreases(run(n), pick(n));
      m := SureReturns(run, pick, n + 1);
    }
  }

  lemma StepKeepsAbandoned(s: State, step: Step)
    requires Inv(s) && Abandoned(s) && Internal(step) && Enabled(s, step)
    ensures Inv(Next(s, step)) && Abandoned(Next(s, step))
  {
    StepKeepsInv(s, step);
    var t := Next(s, step);
    if step.ProducerStep? {
      assert !WillNotify(s, s.producers[step.id]);
    }
    forall i | 0 <= i < |t.producers|
      ensures !WillNotify(t, t.producers[i])
    {
      assert !WillNotify(s, s.producers[i]);
    }
  }

  /** A step some thread can take on its own, if there is one. */
  ghost function SomeStep(s: State): (step: Step)
    ensures !Stuck(s) ==> Internal(step) && Enabled(s, step)
  {
    if Stuck(s) then StopJoin
    else
      var step :| Internal(step) && Enabled(s, step);
      step
  }

  ghost function Onward(t: State): State { if Stuck(t) then t else Next(t, SomeStep(t)) }

  ghost function RunFrom(s: State, n: nat): State { if n == 0 then s else Onward(RunFrom(s, n - 1)) }

  lemma OnwardKeepsAbandoned(t: State)
    requires Inv(t) && Abandoned(t)
    ensures Inv(Onward(t)) && Abandoned(Onward(t))
  {
    if !Stuck(t) {
      StepKeepsAbandoned(t, SomeStep(t));
    }
  }

  lemma {:induction false} AbandonedForGood(s: State, n: nat)
    requires Inv(s) && Abandoned(s)
    ensures Inv(RunFrom(s, n)) && Abandoned(RunFrom(s, n))
  {
    if n > 0 {
      AbandonedForGood(s, n - 1);
      OnwardKeepsAbandoned(RunFrom(s, n - 1));
    }
  }

  /** `stop` returns at some point of this run. */
  ghost predicate Returns(run: nat -> State) { exists m: nat :: run(m).stopper.Joined? }

  function After(t: State, step: Step): State { if Enabled(t, step) then Next(t, step) else t }

  ghost function RunAfter(t: State, first: Step, n: nat): State {
    if n == 0 then t else RunFrom(After(t, first), n - 1)
  }

  ghost function PickAfter(t: State, first: Step, n: nat): Step {
    if n == 0 then first else SomeStep(RunFrom(After(t, first), n - 1))
  }

  lemma RunAfterMoves(t: State, first: Step, n: nat)
    requires Internal(first) && Enabled(t, first)
    ensures Moves(RunAfter(t, first, n), PickAfter(t, first, n), RunAfter(t, first, n + 1))
  {
  }

  /** Any first step can be continued to a schedule. */
  lemma ScheduleAfter(t: State, first: Step) returns (run: nat -> State, pick: nat -> Step)
    requires Internal(first) && Enabled(t, first)
    ensures Schedule(run, pick) && forall n: nat :: run(n) == RunAfter(t, first, n)
  {
    run := (n: nat) => RunAfter(t, first, n);
    pick := (n: nat) => PickAfter(t, first, n);
    forall n: nat {:trigger pick(n)}
      ensures Moves(run(n), pick(n), run(n + 1))
    {
      RunAfterMoves(t, first, n);
    }
  }

  lemma NotifyAbandons(t: State)
    requires Inv(t) && t.stopper.Stored? && t.consumer.Dozing? && !SomeoneWillNotify(t)
    ensures Inv(Next(t, StopNotify)) && Abandoned(Next(t, StopNotify))
  {
    var u := Next(t, StopNotify);
    StepKeepsInv(t, StopNotify);
    forall i | 0 <= i < |u.producers|
      ensures !WillNotify(u, u.producers[i])
    {
      assert !WillNotify(t, t.producers[i]);
    }
  }

  /** A schedule in which `stop` notifies at once and in vain. */
  lemma NotifiesInVain(t: State) returns (run: nat -> State, pick: nat -> Step)
    requires Inv(t) && t.stopper.Stored? && t.consumer.Dozing? && !SomeoneWillNotify(t)
    ensures run(0) == t && Schedule(run, pick) && !Returns(run)
  {
    run, pick := ScheduleAfter(t, StopNotify);
    assert run(0) == t;
    NotifyAbandons(t);
    forall m: nat
      ensures !run(m).stopper.Joined?
    {
      if m > 0 {
        AbandonedForGood(Next(t, StopNotify), m - 1);
        assert run(m) == RunAfter(t, StopNotify, m);
      }
    }
  }

  /** From a reachable state in which `stop` has set its flag and not yet
      notified, it returns under every schedule if and only if the consumer is
      not between its predicate and its wait, or some producer that wants the
      mutex has a record that fits and so will wake the consumer in its place. */
  lemma StopReturnsExactly(s: State, steps: seq<Step>)
    requires Init(s) && Legal(s, steps) && Exec(s, steps).stopper.Stored?
    ensures Inv(Exec(s, steps))
    ensures var t := Exec(s, steps);
            (forall run: nat -> State, pick: nat -> Step | run(0) == t && Schedule(run, pick) :: Returns(run))
            <==> !t.consumer.Dozing?
                 || exists i :: 0 <= i < |t.producers| && (t.producers[i].Acquiring? || t.producers[i].Waking?)
                                && t.HasRoom(|t.producers[i].rec|)
  {
    InitInv(s);
    RunKeepsInv(s, steps);
    var t := Exec(s, steps);
    DozingHoldsTheMutex(t);
    if SureToWake(t) {
      forall run: nat -> State, pick: nat -> Step | run(0) == t && Schedule(run, pick)
        ensures Returns(run)
      {
        var m := SureReturns(run, pick, 0);
      }
    } else {
      var run, pick := NotifiesInVain(t);
    }
  }

  lemma DozingHoldsTheMutex(t: State)
    requires Inv(t) && t.stopper.Stored?
    ensures SureToWake(t)
            <==> !t.consumer.Dozing?
                 || exists i :: 0 <= i < |t.producers| && (t.producers[i].Acquiring? || t.producers[i].Waking?)
                                && t.HasRoom(|t.producers[i].rec|)
  {
    if t.consumer.Dozing? {
      forall i | 0 <= i < |t.producers|
        ensures WillNotify(t, t.producers[i])
                <==> (t.producers[i].Acquiring? || t.producers[i].Waking?) && t.HasRoom(|t.producers[i].rec|)
      {
        assert !ProducerHolds(t.producers[i]);
      }
    }
  }
}
