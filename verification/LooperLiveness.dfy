/** http/logs/looper.hpp under endless arrivals: on every fair infinite run what was
    appended reaches every sink, whatever else is pushed meanwhile. */
module LooperLiveness {
  import opened Text
  import opened LooperModel
  import opened LooperTheorems
  import opened Fairness

  type Turn = Option<Step>

  /** One moment: a thread moves, or nobody does. */
  predicate Goes(s: State, turn: Turn, t: State) {
    match turn
    case None => t == s
    case Some(step) => Enabled(s, step) && t == Next(s, step)
  }

  ghost predicate Run(run: nat -> State, pick: nat -> Turn) {
    forall n: nat {:trigger pick(n)} :: Goes(run(n), pick(n), run(n + 1))
  }

  function ByProducer(i: nat): Step -> bool { (step: Step) => step == ProducerStep(i) }

  function ByConsumer(): Step -> bool { (step: Step) => step == ConsumerStep }

  function ProducerCan(i: nat): State -> bool { (s: State) => Enabled(s, ProducerStep(i)) }

  function ConsumerCan(): State -> bool { (s: State) => Enabled(s, ConsumerStep) }

  ghost predicate Reachable(t: State) {
    exists s: State, steps: seq<Step> :: Init(s) && Legal(s, steps) && Exec(s, steps) == t
  }

  /** From a reachable state on, the scheduler and the mutex starve neither a
      producer nor the consumer. */
  ghost predicate FairRun(run: nat -> State, pick: nat -> Turn) {
    && Reachable(run(0)) && Run(run, pick)
    && Fair(run, pick, ByConsumer(), ConsumerCan())
    && forall i: nat :: Fair(run, pick, ByProducer(i), ProducerCan(i))
  }

  lemma OneMomentGrows(s: State, turn: Turn, t: State)
    requires Goes(s, turn, t)
    ensures |t.producers| == |s.producers| && |t.sinks| == |s.sinks| && Flat(Pushed(s)) <= Flat(Pushed(t))
  {
    if turn.Some? {
      StepHistory(s, turn.value);
      FlatAppend(Pushed(s), AcceptedBy(s, turn.value));
    }
  }

  lemma {:induction false} Later(run: nat -> State, pick: nat -> Turn, n: nat, m: nat)
    requires Run(run, pick) && n <= m
    ensures |run(m).producers| == |run(n).producers| && |run(m).sinks| == |run(n).sinks|
    ensures Flat(Pushed(run(n))) <= Flat(Pushed(run(m)))
    decreases m - n
  {
    if n < m {
      assert Goes(run(n), pick(n), run(n + 1));
      OneMomentGrows(run(n), pick(n), run(n + 1));
      Later(run, pick, n + 1, m);
    }
  }

  lemma OneMoment(s: State, turn: Turn, t: State)
    requires Goes(s, turn, t) && Inv(s)
    ensures Inv(t)
  {
    if turn.Some? {
      StepKeepsInv(s, turn.value);
    }
  }

  lemma ReachableInv(t: State)
    requires Reachable(t)
    ensures Inv(t)
  {
    var s: State, steps: seq<Step> :| Init(s) && Legal(s, steps) && Exec(s, steps) == t;
    InitInv(s);
    RunKeepsInv(s, steps);
  }

  lemma {:induction false} InvAt(run: nat -> State, pick: nat -> Turn, n: nat)
    requires Run(run, pick) && Reachable(run(0))
    ensures Inv(run(n))
  {
    if n == 0 {
      ReachableInv(run(0));
    } else {
      var m: nat := n - 1;
      InvAt(run, pick, m);
      assert Goes(run(m), pick(m), run(m + 1));
      OneMoment(run(m), pick(m), run(n));
    }
  }

  // ------------------------------------------------- what others leave alone

  /** The consumer's place, except that it may have been woken. */
  predicate SameConsumer(s: State, t: State) {
    && (t.consumer == s.consumer || (s.consumer.Asleep? && t.consumer.Rousing?))
    && t.batches == s.batches && t.sinks == s.sinks
  }

  lemma OthersLeaveConsumer(s: State, turn: Turn, t: State)
    requires Goes(s, turn, t) && !IsMine(turn, ByConsumer())
    ensures SameConsumer(s, t)
  {
  }

  lemma {:induction false} ConsumerStays(run: nat -> State, pick: nat -> Turn, n: nat, m: nat)
    requires Run(run, pick) && n <= m
    requires forall k: nat | n <= k < m :: !IsMine(pick(k), ByConsumer())
    ensures SameConsumer(run(n), run(m))
    decreases m - n
  {
    if n < m {
      assert Goes(run(n), pick(n), run(n + 1));
      OthersLeaveConsumer(run(n), pick(n), run(n + 1));
      ConsumerStays(run, pick, n + 1, m);
    }
  }

  lemma OthersLeaveHolder(s: State, turn: Turn, t: State, i: nat)
    requires Goes(s, turn, t) && !IsMine(turn, ByProducer(i)) && i < |s.producers| && ProducerHolds(s.producers[i])
    ensures i < |t.producers| && t.producers[i] == s.producers[i]
  {
  }

  lemma {:induction false} HolderStays(run: nat -> State, pick: nat -> Turn, i: nat, n: nat, m: nat)
    requires Run(run, pick) && n <= m && i < |run(n).producers| && ProducerHolds(run(n).producers[i])
    requires forall k: nat | n <= k < m :: !IsMine(pick(k), ByProducer(i))
    ensures i < |run(m).producers| && run(m).producers[i] == run(n).producers[i]
    decreases m - n
  {
    if n < m {
      assert Goes(run(n), pick(n), run(n + 1));
      OthersLeaveHolder(run(n), pick(n), run(n + 1), i);
      HolderStays(run, pick, i, n + 1, m);
    }
  }

  // -------------------------------------------------------------- the mutex

  lemma HolderCan(s: State, i: nat)
    requires Inv(s) && i < |s.producers| && ProducerHolds(s.producers[i])
    ensures Enabled(s, ProducerStep(i))
  {
  }

  /** A producer that holds the mutex takes its next step. */
  lemma HolderActs(run: nat -> State, pick: nat -> Turn, i: nat, n: nat) returns (m: nat)
    requires FairRun(run, pick) && i < |run(n).producers| && ProducerHolds(run(n).producers[i])
    ensures n <= m && pick(m) == Some(ProducerStep(i))
    ensures i < |run(m).producers| && run(m).producers[i] == run(n).producers[i]
  {
    var taken;
    taken, m := NextTurn(run, pick, ByProducer(i), ProducerCan(i), n);
    HolderStays(run, pick, i, n, m);
    if !taken {
      InvAt(run, pick, m);
      HolderCan(run(m), i);
      assert false;
    }
  }

  /** Steps until whoever holds the mutex gives it back. */
  function HoldRank(s: State): nat {
    match s.holder
    case Free => 0
    case HeldByProducer(i) =>
      if i < |s.producers| then
        match s.producers[i]
        case Testing(_) => 5
        case Appending(_) => 4
        case Notifying => 3
        case _ => 1
      else 0
    case HeldByConsumer =>
      match s.consumer
      case ExitCheck => 9
      case WaitCheck => 8
      case Swapping => 7
      case WakingProducers => 6
      case Unlocking => 5
      case _ => 1
  }

  lemma ProducerStepFrees(s: State, i: nat)
    requires Inv(s) && Enabled(s, ProducerStep(i)) && ProducerHolds(s.producers[i])
    ensures HoldRank(NextProducer(s, i)) < HoldRank(s)
  {
    assert s.holder == HeldByProducer(i);
  }

  lemma ConsumerStepFrees(s: State)
    requires Inv(s) && ConsumerHolds(s.consumer)
    ensures Enabled(s, ConsumerStep) && HoldRank(NextConsumer(s)) < HoldRank(s)
  {
    assert s.holder == HeldByConsumer;
  }

  /** A consumer that holds the mutex takes its next step. */
  lemma HoldingConsumerActs(run: nat -> State, pick: nat -> Turn, n: nat) returns (m: nat)
    requires FairRun(run, pick) && ConsumerHolds(run(n).consumer)
    ensures n <= m && pick(m) == Some(ConsumerStep) && run(m).consumer == run(n).consumer
  {
    var taken;
    taken, m := NextTurn(run, pick, ByConsumer(), ConsumerCan(), n);
    ConsumerStays(run, pick, n, m);
    if !taken {
      InvAt(run, pick, m);
      ConsumerStepFrees(run(m));
      assert false;
    }
  }

  lemma WhoHolds(s: State)
    requires Inv(s)
    ensures s.holder.HeldByProducer? <==> exists i :: 0 <= i < |s.producers| && ProducerHolds(s.producers[i])
    ensures forall i | 0 <= i < |s.producers| && ProducerHolds(s.producers[i]) :: s.holder == HeldByProducer(i)
    ensures s.holder.HeldByProducer? ==> s.holder.id < |s.producers| && ProducerHolds(s.producers[s.holder.id])
    ensures s.holder.HeldByConsumer? <==> ConsumerHolds(s.consumer)
  {
  }

  lemma WhoHoldsAt(run: nat -> State, pick: nat -> Turn, n: nat)
    requires FairRun(run, pick)
    ensures forall i | 0 <= i < |run(n).producers| && ProducerHolds(run(n).producers[i]) ::
              run(n).holder == HeldByProducer(i)
    ensures run(n).holder.HeldByProducer? ==>
              run(n).holder.id < |run(n).producers| && ProducerHolds(run(n).producers[run(n).holder.id])
    ensures run(n).holder.HeldByConsumer? <==> ConsumerHolds(run(n).consumer)
  {
    InvAt(run, pick, n);
    WhoHolds(run(n));
  }

  lemma ProducerFrees(run: nat -> State, pick: nat -> Turn, i: nat, n: nat) returns (m: nat)
    requires FairRun(run, pick) && run(n).holder == HeldByProducer(i)
    ensures n < m && HoldRank(run(m)) < HoldRank(run(n))
  {
    WhoHoldsAt(run, pick, n);
    var k := HolderActs(run, pick, i, n);
    WhoHoldsAt(run, pick, k);
    assert HoldRank(run(k)) == HoldRank(run(n));
    ProducerFreesAt(run, pick, i, k);
    m := k + 1;
  }

  lemma ProducerFreesAt(run: nat -> State, pick: nat -> Turn, i: nat, k: nat)
    requires FairRun(run, pick) && pick(k) == Some(ProducerStep(i))
    requires i < |run(k).producers| && ProducerHolds(run(k).producers[i])
    ensures HoldRank(run(k + 1)) < HoldRank(run(k))
  {
    InvAt(run, pick, k);
    assert Goes(run(k), pick(k), run(k + 1));
    ProducerStepFrees(run(k), i);
  }

  lemma ConsumerFrees(run: nat -> State, pick: nat -> Turn, n: nat) returns (m: nat)
    requires FairRun(run, pick) && run(n).holder == HeldByConsumer
    ensures n < m && HoldRank(run(m)) < HoldRank(run(n))
  {
    WhoHoldsAt(run, pick, n);
    var k := HoldingConsumerActs(run, pick, n);
    WhoHoldsAt(run, pick, k);
    assert HoldRank(run(k)) == HoldRank(run(n));
    ConsumerFreesAt(run, pick, k);
    m := k + 1;
  }

  lemma ConsumerFreesAt(run: nat -> State, pick: nat -> Turn, k: nat)
    requires FairRun(run, pick) && pick(k) == Some(ConsumerStep) && ConsumerHolds(run(k).consumer)
    ensures HoldRank(run(k + 1)) < HoldRank(run(k))
  {
    InvAt(run, pick, k);
    assert Goes(run(k), pick(k), run(k + 1));
    ConsumerStepFrees(run(k));
  }

  /** The mutex is given back again and again. */
  lemma {:induction false} MutexComesFree(run: nat -> State, pick: nat -> Turn, n: nat) returns (m: nat)
    requires FairRun(run, pick)
    ensures n <= m && run(m).holder.Free?
    decreases HoldRank(run(n))
  {
    match run(n).holder
    case Free => m := n;
    case HeldByProducer(i) =>
      var k := ProducerFrees(run, pick, i, n);
      m := MutexComesFree(run, pick, k);
    case HeldByConsumer =>
      var k := ConsumerFrees(run, pick, n);
      m := MutexComesFree(run, pick, k);
  }

  // ------------------------------------------------------------ the consumer

  /** A consumer that neither sleeps nor has exited takes its next step. */
  lemma ConsumerActs(run: nat -> State, pick: nat -> Turn, n: nat) returns (m: nat)
    requires FairRun(run, pick) && !run(n).consumer.Asleep? && !run(n).consumer.Exited?
    ensures n <= m && pick(m) == Some(ConsumerStep)
    ensures run(m).consumer == run(n).consumer && SameConsumer(run(n), run(m))
  {
    var taken;
    taken, m := NextTurn(run, pick, ByConsumer(), ConsumerCan(), n);
    if !taken {
      var k := MutexComesFree(run, pick, m);
      ConsumerStays(run, pick, n, k);
      assert false;
    }
    ConsumerStays(run, pick, n, m);
  }

  /** Any step of the consumer: the producer buffer is emptied, or it is as before
      and the consumer is closer to its rest. */
  predicate Advances(s: State, t: State) {
    || (t.pro.unread == "" && s.pro.unread != "")
    || ((t.pro.unread == "" <==> s.pro.unread == "") && ConsumerRank(t) < ConsumerRank(s))
  }

  lemma ConsumerAdvances(s: State)
    requires Inv(s) && Enabled(s, ConsumerStep)
    ensures Advances(s, NextConsumer(s))
  {
    if s.consumer.Swapping? {
      SwapDecreases(s);
    } else {
      ConsumerMoves(s);
      RankFalls(s);
    }
  }

  /** A sleeper until moment m: woken on the way, or still asleep then. */
  lemma {:induction false} WatchSleeper(run: nat -> State, pick: nat -> Turn, n: nat, m: nat) returns (j: nat)
    requires Run(run, pick) && n <= m && run(n).consumer.Asleep?
    ensures n <= j <= m && SameConsumer(run(n), run(j))
    ensures run(j).consumer.Rousing? || (j == m && run(m).consumer.Asleep?)
    decreases m - n
  {
    j := n;
    if n < m {
      assert Goes(run(n), pick(n), run(n + 1));
      OthersLeaveConsumer(run(n), pick(n), run(n + 1));
      j := n + 1;
      if run(n + 1).consumer.Asleep? {
        j := WatchSleeper(run, pick, n + 1, m);
      }
    }
  }

  lemma NotifyWakes(s: State, i: nat)
    requires Enabled(s, ProducerStep(i)) && s.producers[i].Notifying? && s.consumer.Asleep?
    ensures NextProducer(s, i).consumer.Rousing? && SameConsumer(s, NextProducer(s, i))
  {
  }

  lemma NotifierAt(run: nat -> State, pick: nat -> Turn, n: nat) returns (i: nat)
    requires FairRun(run, pick) && run(n).consumer.Asleep? && run(n).pro.unread != ""
    ensures i < |run(n).producers| && run(n).producers[i].Notifying?
  {
    InvAt(run, pick, n);
    i := run(n).holder.id;
  }

  /** A consumer that sleeps while data waits is woken. */
  lemma SleeperWakes(run: nat -> State, pick: nat -> Turn, n: nat) returns (m: nat)
    requires FairRun(run, pick) && run(n).consumer.Asleep? && run(n).pro.unread != ""
    ensures n <= m && run(m).consumer.Rousing? && SameConsumer(run(n), run(m))
  {
    var i := NotifierAt(run, pick, n);
    var k := HolderActs(run, pick, i, n);
    m := WatchSleeper(run, pick, n, k);
    if run(m).consumer.Asleep? {
      assert Goes(run(k), pick(k), run(k + 1));
      NotifyWakes(run(k), i);
      m := k + 1;
    }
  }

  // ---------------------------------------------------------------- delivery

  /** The first len bytes: still in the producer buffer, swapped out, or at sink k. */
  function Stage(s: State, k: nat, len: nat): nat
    requires k < |s.sinks|
  {
    if len <= |Flat(s.sinks[k])| then 0
    else if len <= |Flat(Flat(s.batches))| then 1
    else 2
  }

  /** Steps of the consumer until the stage falls. */
  function StageRank(c: Consumer, n: nat, k: nat, stage: nat): nat {
    if stage == 2 then if c.Asleep? then 3 else RankWithData(c, n)
    else if stage == 1 then
      match c
      case WakingProducers => k + 3
      case Unlocking => k + 2
      case Delivering(j) => if j <= k then k + 1 - j else 0
      case _ => 0
    else 0
  }

  lemma StageTwo(s: State, k: nat, len: nat)
    requires Inv(s) && k < |s.sinks| && len <= |Flat(Pushed(s))| && Stage(s, k, len) == 2
    ensures s.pro.unread != ""
  {
    FlatAppend(Flat(s.batches), s.staged);
  }

  lemma StageOne(s: State, k: nat, len: nat)
    requires Inv(s) && k < |s.sinks| && Stage(s, k, len) == 1
    ensures Undelivered(s.consumer, k)
  {
    DeliveredPlusInFlight(s, k);
  }

  lemma StageOneStep(s: State, k: nat, len: nat)
    requires Inv(s) && k < |s.sinks| && Stage(s, k, len) == 1
    ensures Enabled(s, ConsumerStep)
    ensures var t := NextConsumer(s);
            && k < |t.sinks| && !t.consumer.Exited?
            && (Stage(t, k, len) == 0
                || (Stage(t, k, len) == 1
                    && StageRank(t.consumer, |t.sinks|, k, 1) < StageRank(s.consumer, |s.sinks|, k, 1)))
  {
    StageOne(s, k, len);
    var t := NextConsumer(s);
    assert t.batches == s.batches;
    if !Undelivered(t.consumer, k) {
      StepKeepsInv(s, ConsumerStep);
      DeliveredPlusInFlight(t, k);
    }
  }

  lemma StageTwoStep(s: State, k: nat, len: nat)
    requires Inv(s) && k < |s.sinks| && len <= |Flat(Pushed(s))| && Stage(s, k, len) == 2
    requires Enabled(s, ConsumerStep)
    ensures var t := NextConsumer(s);
            && k < |t.sinks| && !t.consumer.Exited?
            && (Stage(t, k, len) < 2
                || StageRank(t.consumer, |t.sinks|, k, 2) < StageRank(s.consumer, |s.sinks|, k, 2))
  {
    StageTwo(s, k, len);
    var t := NextConsumer(s);
    if s.consumer.Swapping? {
      FlatSnoc(s.batches, s.staged);
    } else {
      ConsumerMoves(s);
      RankFalls(s);
      assert s.pro.unread != "" && !s.consumer.Dozing?;
    }
  }

  lemma AsleepIsStageTwo(s: State, k: nat, len: nat)
    requires Inv(s) && k < |s.sinks| && len <= |Flat(Pushed(s))| && Stage(s, k, len) != 0 && s.consumer.Asleep?
    ensures Stage(s, k, len) == 2 && s.pro.unread != ""
  {
    if Stage(s, k, len) == 1 {
      StageOne(s, k, len);
    } else {
      StageTwo(s, k, len);
    }
  }

  /** Sink k has come closer to having the first len bytes. */
  predicate Nearer(s: State, t: State, k: nat, len: nat)
    requires k < |s.sinks| && k < |t.sinks|
  {
    var a, b := Stage(s, k, len), Stage(t, k, len);
    b < a || (b == a && StageRank(t.consumer, |t.sinks|, k, b) < StageRank(s.consumer, |s.sinks|, k, a))
  }

  lemma WakingIsNearer(s: State, t: State, k: nat, len: nat)
    requires k < |s.sinks| && s.consumer.Asleep? && t.consumer.Rousing? && SameConsumer(s, t) && Stage(s, k, len) == 2
    ensures k < |t.sinks| && Nearer(s, t, k, len)
  {
  }

  lemma StepIsNearer(s: State, k: nat, len: nat)
    requires Inv(s) && k < |s.sinks| && len <= |Flat(Pushed(s))| && Stage(s, k, len) > 0
    requires Enabled(s, ConsumerStep)
    ensures k < |NextConsumer(s).sinks| && !NextConsumer(s).consumer.Exited? && Nearer(s, NextConsumer(s), k, len)
  {
    if Stage(s, k, len) == 1 {
      StageOneStep(s, k, len);
    } else {
      StageTwoStep(s, k, len);
    }
  }

  lemma StepIsNearerAt(run: nat -> State, pick: nat -> Turn, k: nat, len: nat, i: nat)
    requires FairRun(run, pick) && pick(i) == Some(ConsumerStep)
    requires k < |run(i).sinks| && len <= |Flat(Pushed(run(i)))| && Stage(run(i), k, len) > 0
    ensures k < |run(i + 1).sinks| && !run(i + 1).consumer.Exited? && Nearer(run(i), run(i + 1), k, len)
  {
    InvAt(run, pick, i);
    assert Goes(run(i), pick(i), run(i + 1));
    StepIsNearer(run(i), k, len);
  }

  lemma AsleepIsStageTwoAt(run: nat -> State, pick: nat -> Turn, k: nat, len: nat, n: nat)
    requires FairRun(run, pick) && k < |run(n).sinks| && len <= |Flat(Pushed(run(n)))|
    requires Stage(run(n), k, len) > 0 && run(n).consumer.Asleep?
    ensures Stage(run(n), k, len) == 2 && run(n).pro.unread != ""
  {
    InvAt(run, pick, n);
    AsleepIsStageTwo(run(n), k, len);
  }

  lemma NearerFrom(s: State, u: State, t: State, k: nat, len: nat)
    requires SameConsumer(s, u) && u.consumer == s.consumer && k < |s.sinks| && k < |t.sinks| && Nearer(u, t, k, len)
    ensures Nearer(s, t, k, len)
  {
  }

  lemma SleeperComesNearer(run: nat -> State, pick: nat -> Turn, k: nat, len: nat, n: nat) returns (m: nat)
    requires FairRun(run, pick) && k < |run(n).sinks| && run(n).consumer.Asleep?
    requires len <= |Flat(Pushed(run(n)))| && Stage(run(n), k, len) > 0
    ensures n <= m && k < |run(m).sinks| && !run(m).consumer.Exited? && Nearer(run(n), run(m), k, len)
  {
    AsleepIsStageTwoAt(run, pick, k, len, n);
    m := SleeperWakes(run, pick, n);
    WakingIsNearer(run(n), run(m), k, len);
  }

  lemma AwakeComesNearer(run: nat -> State, pick: nat -> Turn, k: nat, len: nat, n: nat) returns (m: nat)
    requires FairRun(run, pick) && k < |run(n).sinks| && !run(n).consumer.Exited? && !run(n).consumer.Asleep?
    requires len <= |Flat(Pushed(run(n)))| && Stage(run(n), k, len) > 0
    ensures n <= m && k < |run(m).sinks| && !run(m).consumer.Exited? && Nearer(run(n), run(m), k, len)
  {
    var i := ConsumerActs(run, pick, n);
    Later(run, pick, n, i);
    StepIsNearerAt(run, pick, k, len, i);
    m := i + 1;
    NearerFrom(run(n), run(i), run(m), k, len);
  }

  lemma ComesNearer(run: nat -> State, pick: nat -> Turn, k: nat, len: nat, n: nat) returns (m: nat)
    requires FairRun(run, pick) && k < |run(n).sinks| && !run(n).consumer.Exited?
    requires len <= |Flat(Pushed(run(n)))| && Stage(run(n), k, len) > 0
    ensures n <= m && k < |run(m).sinks| && !run(m).consumer.Exited? && Nearer(run(n), run(m), k, len)
  {
    if run(n).consumer.Asleep? {
      m := SleeperComesNearer(run, pick, k, len, n);
    } else {
      m := AwakeComesNearer(run, pick, k, len, n);
    }
  }

  lemma {:induction false} BytesArrive(run: nat -> State, pick: nat -> Turn, k: nat, len: nat, n: nat) returns (m: nat)
    requires FairRun(run, pick) && k < |run(n).sinks| && !run(n).consumer.Exited?
    requires len <= |Flat(Pushed(run(n)))|
    ensures n <= m && k < |run(m).sinks| && len <= |Flat(run(m).sinks[k])|
    decreases Stage(run(n), k, len), StageRank(run(n).consumer, |run(n).sinks|, k, Stage(run(n), k, len))
  {
    if Stage(run(n), k, len) == 0 {
      m := n;
    } else {
      var i := ComesNearer(run, pick, k, len, n);
      Later(run, pick, n, i);
      m := BytesArrive(run, pick, k, len, i);
    }
  }

  lemma SinkIsPrefix(s: State, k: nat)
    requires Inv(s) && k < |s.sinks|
    ensures Flat(s.sinks[k]) <= Flat(Pushed(s))
  {
    DeliveredPlusInFlight(s, k);
    FlatAppend(Flat(s.batches), s.staged);
  }

  lemma PrefixesOfOne(a: string, b: string, whole: string)
    requires a <= whole && b <= whole && |a| <= |b|
    ensures a <= b
  {
    assert a == whole[..|a|] && b == whole[..|b|];
  }

  lemma SinkIsPrefixAt(run: nat -> State, pick: nat -> Turn, k: nat, m: nat)
    requires FairRun(run, pick) && k < |run(m).sinks|
    ensures Flat(run(m).sinks[k]) <= Flat(Pushed(run(m)))
  {
    InvAt(run, pick, m);
    SinkIsPrefix(run(m), k);
  }

  /** Liveness under endless arrivals: from any moment of a fair run at which the
      consumer has not exited, everything appended by then eventually is a prefix
      of what every sink was handed, whatever is pushed in the meantime. */
  lemma WhatIsAppendedArrives(run: nat -> State, pick: nat -> Turn, n: nat, k: nat)
    requires FairRun(run, pick) && !run(n).consumer.Exited? && k < |run(n).sinks|
    ensures exists m: nat :: n <= m && k < |run(m).sinks| && Flat(Pushed(run(n))) <= Flat(run(m).sinks[k])
  {
    var m := BytesArrive(run, pick, k, |Flat(Pushed(run(n)))|, n);
    Later(run, pick, n, m);
    SinkIsPrefixAt(run, pick, k, m);
    PrefixesOfOne(Flat(Pushed(run(n))), Flat(run(m).sinks[k]), Flat(Pushed(run(m))));
  }
}
