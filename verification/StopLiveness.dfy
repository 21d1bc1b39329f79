/** http/logs/looper.hpp `stop` under endless arrivals: on which fair infinite runs
    it returns. */
module StopLiveness {
  import opened Text
  import opened LooperModel
  import opened LooperTheorems
  import opened LooperLiveness
  import opened PushLiveness
  import opened ScriptedRuns
  import opened Fairness

  function BySame(step: Step): Step -> bool { (x: Step) => x == step }

  function CanTake(step: Step): State -> bool { (s: State) => Enabled(s, step) }

  /** The caller of `stop` is not starved either. */
  ghost predicate FairStop(run: nat -> State, pick: nat -> Turn) {
    && Fair(run, pick, BySame(StopNotify), CanTake(StopNotify))
    && Fair(run, pick, BySame(StopJoin), CanTake(StopJoin))
  }

  /** `stop` returns at or after moment n. */
  ghost predicate ReturnsFrom(run: nat -> State, n: nat) {
    exists m: nat :: n <= m && run(m).stopper.Joined?
  }

  /** The consumer holds the mutex at its exit test, over an empty buffer. */
  predicate FindsEmpty(s: State) { s.consumer.ExitCheck? && s.pro.unread == "" }

  // ------------------------------------------------------------- what remains

  lemma MomentKeepsStop(s: State, turn: Turn, t: State)
    requires Goes(s, turn, t)
    ensures s.Stop() ==> t.Stop()
    ensures s.consumer.Exited? ==> t.consumer.Exited?
    ensures s.stopper.Joined? ==> t.stopper.Joined?
    ensures s.Stop() && !s.consumer.Dozing? ==> !t.consumer.Dozing?
    ensures s.Stop() && !s.consumer.Dozing? && !s.consumer.Asleep? ==> !t.consumer.Asleep?
  {
  }

  lemma {:induction false} StopStays(run: nat -> State, pick: nat -> Turn, n: nat, m: nat)
    requires Run(run, pick) && n <= m
    ensures run(n).Stop() ==> run(m).Stop()
    ensures run(n).consumer.Exited? ==> run(m).consumer.Exited?
    ensures run(n).Stop() && !run(n).consumer.Dozing? ==> !run(m).consumer.Dozing?
    ensures run(n).Stop() && !run(n).consumer.Dozing? && !run(n).consumer.Asleep? ==> !run(m).consumer.Asleep?
    decreases m - n
  {
    if n < m {
      assert Goes(run(n), pick(n), run(n + 1));
      MomentKeepsStop(run(n), pick(n), run(n + 1));
      StopStays(run, pick, n + 1, m);
    }
  }

  lemma {:induction false} StopperStays(run: nat -> State, pick: nat -> Turn, n: nat, m: nat)
    requires Run(run, pick) && n <= m && run(n).Stop()
    requires forall k: nat | n <= k < m :: !IsMine(pick(k), BySame(StopNotify)) && !IsMine(pick(k), BySame(StopJoin))
    ensures run(m).stopper == run(n).stopper
    decreases m - n
  {
    if n < m {
      assert Goes(run(n), pick(n), run(n + 1));
      OthersLeaveStopper(run(n), pick(n), run(n + 1));
      StopperStays(run, pick, n + 1, m);
    }
  }

  lemma OthersLeaveStopper(s: State, turn: Turn, t: State)
    requires Goes(s, turn, t) && s.Stop()
    requires !IsMine(turn, BySame(StopNotify)) && !IsMine(turn, BySame(StopJoin))
    ensures t.stopper == s.stopper && t.Stop()
  {
  }

  lemma StoredMoment(s: State, turn: Turn, t: State)
    requires Goes(s, turn, t) && s.stopper.Stored?
    ensures if IsMine(turn, BySame(StopNotify)) then t.stopper.Notified? else t.stopper.Stored?
  {
  }

  /** `stop` gets to notify. */
  lemma {:induction false} StoredStays(run: nat -> State, pick: nat -> Turn, n: nat, m: nat)
    requires Run(run, pick) && n <= m && run(n).stopper.Stored?
    requires forall k: nat | n <= k < m :: !IsMine(pick(k), BySame(StopNotify))
    ensures run(m).stopper.Stored?
    decreases m - n
  {
    if n < m {
      assert Goes(run(n), pick(n), run(n + 1));
      StoredMoment(run(n), pick(n), run(n + 1));
      StoredStays(run, pick, n + 1, m);
    }
  }

  lemma Notifies(run: nat -> State, pick: nat -> Turn, n: nat) returns (m: nat)
    requires Run(run, pick) && FairStop(run, pick) && run(n).stopper.Stored?
    ensures n <= m && run(m).stopper.Stored? && pick(m) == Some(StopNotify)
  {
    var taken;
    taken, m := NextTurn(run, pick, BySame(StopNotify), CanTake(StopNotify), n);
    StoredStays(run, pick, n, m);
    if !taken {
      assert false;
    }
  }

  lemma NotifiedMoment(s: State, turn: Turn, t: State)
    requires Goes(s, turn, t) && s.stopper.Notified?
    ensures if IsMine(turn, BySame(StopJoin)) then t.stopper.Joined? else t.stopper.Notified?
  {
  }

  lemma {:induction false} NotifiedStays(run: nat -> State, pick: nat -> Turn, n: nat, m: nat)
    requires Run(run, pick) && n <= m && run(n).stopper.Notified?
    requires forall k: nat | n <= k < m :: !IsMine(pick(k), BySame(StopJoin))
    ensures run(m).stopper.Notified?
    decreases m - n
  {
    if n < m {
      assert Goes(run(n), pick(n), run(n + 1));
      NotifiedMoment(run(n), pick(n), run(n + 1));
      NotifiedStays(run, pick, n + 1, m);
    }
  }

  lemma Joins(run: nat -> State, pick: nat -> Turn, n: nat) returns (m: nat)
    requires Run(run, pick) && FairStop(run, pick) && run(n).stopper.Notified? && run(n).consumer.Exited?
    ensures n < m && run(m).stopper.Joined?
  {
    var taken, k := NextTurn(run, pick, BySame(StopJoin), CanTake(StopJoin), n);
    NotifiedStays(run, pick, n, k);
    StopStays(run, pick, n, k);
    if !taken {
      assert false;
    }
    assert Goes(run(k), pick(k), run(k + 1));
    NotifiedMoment(run(k), pick(k), run(k + 1));
    m := k + 1;
  }

  /** After the consumer has exited, `stop` returns. */
  lemma ExitedReturns(run: nat -> State, pick: nat -> Turn, n: nat)
    requires Run(run, pick) && FairStop(run, pick) && run(n).Stop() && run(n).consumer.Exited?
    ensures ReturnsFrom(run, n)
  {
    match run(n).stopper
    case Stored =>
      var k := Notifies(run, pick, n);
      assert Goes(run(k), pick(k), run(k + 1));
      StopStays(run, pick, n, k + 1);
      StoredMoment(run(k), pick(k), run(k + 1));
      var m := Joins(run, pick, k + 1);
    case Notified(_) =>
      var m := Joins(run, pick, n);
    case Joined(_) =>
      assert n <= n;
  }

  // ------------------------------------------------- exactly when it returns

  lemma OthersLeaveBuffer(s: State, turn: Turn, t: State)
    requires Inv(s) && Goes(s, turn, t) && !IsMine(turn, ByConsumer()) && ConsumerHolds(s.consumer)
    ensures t.pro == s.pro && t.consumer == s.consumer
  {
    if turn.Some? && turn.value.ProducerStep? {
      WhoHolds(s);
    }
  }

  lemma {:induction false} BufferStays(run: nat -> State, pick: nat -> Turn, n: nat, m: nat)
    requires FairRun(run, pick) && n <= m && ConsumerHolds(run(n).consumer)
    requires forall k: nat | n <= k < m :: !IsMine(pick(k), ByConsumer())
    ensures run(m).pro == run(n).pro && run(m).consumer == run(n).consumer
    decreases m - n
  {
    if n < m {
      assert Goes(run(n), pick(n), run(n + 1));
      InvAt(run, pick, n);
      OthersLeaveBuffer(run(n), pick(n), run(n + 1));
      BufferStays(run, pick, n + 1, m);
    }
  }

  lemma HolderWillAct(run: nat -> State, pick: nat -> Turn, n: nat) returns (m: nat)
    requires FairRun(run, pick) && ConsumerHolds(run(n).consumer)
    ensures n <= m && pick(m) == Some(ConsumerStep)
    ensures run(m).pro == run(n).pro && run(m).consumer == run(n).consumer
  {
    var taken;
    taken, m := NextTurn(run, pick, ByConsumer(), ConsumerCan(), n);
    BufferStays(run, pick, n, m);
    if !taken {
      InvAt(run, pick, m);
      ConsumerStepFrees(run(m));
      assert false;
    }
  }

  lemma EmptyMeansExit(run: nat -> State, pick: nat -> Turn, n: nat) returns (m: nat)
    requires FairRun(run, pick) && run(n).Stop() && FindsEmpty(run(n))
    ensures n < m && run(m).consumer.Exited? && run(m).Stop()
  {
    var k := HolderWillAct(run, pick, n);
    StopStays(run, pick, n, k);
    assert Goes(run(k), pick(k), run(k + 1));
    m := k + 1;
  }

  lemma OnlyWayOut(s: State, turn: Turn, t: State)
    requires Goes(s, turn, t) && !s.consumer.Exited? && t.consumer.Exited?
    ensures FindsEmpty(s)
  {
  }

  lemma {:induction false} ExitWasEmpty(run: nat -> State, pick: nat -> Turn, n: nat, m: nat) returns (k: nat)
    requires Run(run, pick) && n <= m && !run(n).consumer.Exited? && run(m).consumer.Exited?
    ensures n <= k < m && FindsEmpty(run(k))
    decreases m - n
  {
    assert Goes(run(n), pick(n), run(n + 1));
    if run(n + 1).consumer.Exited? {
      OnlyWayOut(run(n), pick(n), run(n + 1));
      k := n;
    } else {
      k := ExitWasEmpty(run, pick, n + 1, m);
    }
  }

  /** On a fair run on which the flag is set, `stop` returns if and only if the
      consumer has exited or at some later moment comes to its exit test while the
      buffer is empty. */
  lemma StopReturnsIffFoundEmpty(run: nat -> State, pick: nat -> Turn, n: nat)
    requires FairRun(run, pick) && FairStop(run, pick) && run(n).Stop()
    ensures ReturnsFrom(run, n) <==> run(n).consumer.Exited? || exists m: nat :: n <= m && FindsEmpty(run(m))
  {
    if run(n).consumer.Exited? {
      ExitedReturns(run, pick, n);
    } else if i: nat :| n <= i && FindsEmpty(run(i)) {
      StopStays(run, pick, n, i);
      var e := EmptyMeansExit(run, pick, i);
      ExitedReturns(run, pick, e);
      var m: nat :| e <= m && run(m).stopper.Joined?;
      assert n <= m;
    } else if j: nat :| n <= j && run(j).stopper.Joined? {
      InvAt(run, pick, j);
      var k := ExitWasEmpty(run, pick, n, j);
    }
  }

  // --------------------------------------------------------- when pushes stop

  /** No byte is appended from moment q on. */
  ghost predicate QuietFrom(run: nat -> State, q: nat) {
    forall m: nat {:trigger Pushed(run(m))} :: q <= m ==> Flat(Pushed(run(m))) == Flat(Pushed(run(q)))
  }

  /** The consumer is up, or the notification of `stop` is still to come. */
  predicate WillBeUp(s: State) {
    s.Stop() && !s.consumer.Dozing? && (s.stopper.Stored? || !s.consumer.Asleep?)
  }

  lemma GetsUp(run: nat -> State, pick: nat -> Turn, n: nat) returns (m: nat)
    requires Run(run, pick) && FairStop(run, pick) && WillBeUp(run(n))
    ensures n <= m && run(m).Stop() && !run(m).consumer.Dozing? && !run(m).consumer.Asleep?
  {
    m := n;
    if run(n).consumer.Asleep? {
      var k := Notifies(run, pick, n);
      StopStays(run, pick, n, k);
      assert Goes(run(k), pick(k), run(k + 1));
      StopStays(run, pick, k, k + 1);
      m := k + 1;
    }
  }

  lemma UnreadIsRest(s: State)
    requires Inv(s)
    ensures Flat(Pushed(s)) == Flat(Flat(s.batches)) + s.pro.unread
  {
    FlatAppend(Flat(s.batches), s.staged);
  }

  lemma SameUnread(run: nat -> State, pick: nat -> Turn, n: nat, m: nat)
    requires FairRun(run, pick) && run(m).batches == run(n).batches
    requires Flat(Pushed(run(m))) == Flat(Pushed(run(n)))
    ensures run(m).pro.unread == run(n).pro.unread
  {
    InvAt(run, pick, n);
    InvAt(run, pick, m);
    UnreadIsRest(run(n));
    UnreadIsRest(run(m));
    var all, done := Flat(Pushed(run(n))), Flat(Flat(run(n).batches));
    assert run(n).pro.unread == all[|done|..] && run(m).pro.unread == all[|done|..];
  }

  lemma AdvancesAt(run: nat -> State, pick: nat -> Turn, i: nat)
    requires FairRun(run, pick) && pick(i) == Some(ConsumerStep)
    ensures Advances(run(i), run(i + 1))
  {
    InvAt(run, pick, i);
    assert Goes(run(i), pick(i), run(i + 1));
    ConsumerAdvances(run(i));
  }

  lemma Untouched(run: nat -> State, pick: nat -> Turn, q: nat, n: nat, i: nat)
    requires FairRun(run, pick) && QuietFrom(run, q) && q <= n <= i
    requires run(i).consumer == run(n).consumer && SameConsumer(run(n), run(i)) && run(n).Stop() && run(i).Stop()
    ensures run(i).pro.unread == run(n).pro.unread && ConsumerRank(run(i)) == ConsumerRank(run(n))
  {
    assert Flat(Pushed(run(n))) == Flat(Pushed(run(q))) == Flat(Pushed(run(i)));
    SameUnread(run, pick, n, i);
  }

  lemma AdvancesFrom(s: State, u: State, t: State)
    requires u.pro.unread == s.pro.unread && ConsumerRank(u) == ConsumerRank(s) && Advances(u, t)
    ensures Advances(s, t)
  {
  }

  lemma CloserAt(run: nat -> State, pick: nat -> Turn, n: nat, i: nat)
    requires FairRun(run, pick) && n <= i && pick(i) == Some(ConsumerStep) && run(n).Stop()
    requires !run(n).consumer.Dozing? && !run(n).consumer.Asleep?
    requires run(i).pro.unread == run(n).pro.unread && ConsumerRank(run(i)) == ConsumerRank(run(n))
    ensures Advances(run(n), run(i + 1))
    ensures run(i + 1).Stop() && !run(i + 1).consumer.Dozing? && !run(i + 1).consumer.Asleep?
  {
    StopStays(run, pick, n, i + 1);
    AdvancesAt(run, pick, i);
    AdvancesFrom(run(n), run(i), run(i + 1));
  }

  lemma ComesCloser(run: nat -> State, pick: nat -> Turn, q: nat, n: nat) returns (m: nat)
    requires FairRun(run, pick) && QuietFrom(run, q) && q <= n && run(n).Stop()
    requires !run(n).consumer.Dozing? && !run(n).consumer.Asleep? && !run(n).consumer.Exited?
    ensures n < m && Advances(run(n), run(m))
    ensures run(m).Stop() && !run(m).consumer.Dozing? && !run(m).consumer.Asleep?
  {
    var i := ConsumerActs(run, pick, n);
    StopStays(run, pick, n, i);
    Untouched(run, pick, q, n, i);
    CloserAt(run, pick, n, i);
    m := i + 1;
  }

  lemma {:induction false} QuietExits(run: nat -> State, pick: nat -> Turn, q: nat, n: nat) returns (m: nat)
    requires FairRun(run, pick) && QuietFrom(run, q) && q <= n && run(n).Stop()
    requires !run(n).consumer.Dozing? && !run(n).consumer.Asleep?
    ensures n <= m && run(m).consumer.Exited?
    decreases run(n).pro.unread != "", ConsumerRank(run(n))
  {
    if run(n).consumer.Exited? {
      m := n;
    } else {
      var k := ComesCloser(run, pick, q, n);
      if run(k).consumer.Exited? {
        m := k;
      } else {
        m := QuietExits(run, pick, q, k);
      }
    }
  }

  /** On a fair run `stop` returns when its notification is not lost and from some
      moment on no more bytes arrive. */
  lemma StopReturnsWhenQuiet(run: nat -> State, pick: nat -> Turn, n: nat, q: nat)
    requires FairRun(run, pick) && FairStop(run, pick) && WillBeUp(run(n)) && QuietFrom(run, q)
    ensures ReturnsFrom(run, n)
  {
    var k := GetsUp(run, pick, n);
    var from := if q > k then q else k;
    StopStays(run, pick, k, from);
    var e := QuietExits(run, pick, q, from);
    StopStays(run, pick, n, e);
    ExitedReturns(run, pick, e);
    var m: nat :| e <= m && run(m).stopper.Joined?;
    assert n <= m;
  }

  // ------------------------------------------------- when pushes do not stop

  /** One producer that pushes again whenever the consumer is about to look. */
  function PushAndPush(s: State): Step {
    if s.producers != [] && !s.producers[0].Idle? then ProducerStep(0)
    else if s.consumer.Entering? && s.pro.unread == "" then Call(0, "a")
    else ConsumerStep
  }

  /** The states this goes round in, after the notification. */
  predicate Busy(s: State) {
    && Inv(s) && s.stopper == Notified(false) && |s.producers| == 1
    && (match s.producers[0]
        case Idle =>
          && !s.consumer.Exited? && !s.consumer.Dozing? && !s.consumer.Asleep? && !s.consumer.Rousing?
          && (s.consumer.ExitCheck? || s.consumer.WaitCheck? ==> s.pro.unread != "")
        case Acquiring(rec) => s.consumer.Entering? && rec == "a" && s.pro.unread == ""
        case Testing(rec) => s.consumer.Entering? && rec == "a" && s.pro.unread == ""
        case Appending(rec) => s.consumer.Entering? && rec == "a" && s.pro.unread == ""
        case Notifying => s.consumer.Entering? && s.pro.unread != ""
        case Releasing => s.consumer.Entering? && s.pro.unread != ""
        case _ => false)
  }

  lemma BusyCan(s: State)
    requires Busy(s)
    ensures Enabled(s, PushAndPush(s))
  {
    WhoHolds(s);
    assert s.holder.Free? || s.holder == HeldByConsumer || s.holder == HeldByProducer(0);
  }

  lemma ProducerStaysBusy(s: State)
    requires Busy(s) && !s.producers[0].Idle? && Enabled(s, ProducerStep(0))
    ensures Busy(NextProducer(s, 0))
    ensures PushRank(NextProducer(s, 0).producers[0]) < PushRank(s.producers[0])
  {
    ProducerKeepsInv(s, 0);
    if s.producers[0].Testing? {
      RoomWhenDrained(s, 1);
    }
  }

  lemma ConsumerStaysBusy(s: State)
    requires Busy(s) && s.producers[0].Idle? && PushAndPush(s).ConsumerStep? && Enabled(s, ConsumerStep)
    ensures Busy(NextConsumer(s)) && Advances(s, NextConsumer(s))
  {
    StepKeepsInv(s, ConsumerStep);
    ConsumerAdvances(s);
    if !s.consumer.Swapping? {
      ConsumerMoves(s);
    }
  }

  lemma CallStaysBusy(s: State)
    requires Busy(s) && s.producers[0].Idle? && PushAndPush(s).Call?
    ensures Busy(Next(s, PushAndPush(s)))
  {
    StepKeepsInv(s, PushAndPush(s));
  }

  /** Steps until the consumer moves. */
  function ToConsumer(s: State): nat {
    if s.producers != [] && !s.producers[0].Idle? then PushRank(s.producers[0])
    else if s.consumer.Entering? && s.pro.unread == "" then 9
    else 0
  }

  /** Stages until the producer moves: data to swap out, the way to the next call,
      the call. */
  function ToProducer(s: State): nat {
    if s.producers != [] && !s.producers[0].Idle? then 0 else if s.pro.unread == "" then 1 else 2
  }

  lemma BusyStep(s: State)
    requires Busy(s)
    ensures Enabled(s, PushAndPush(s)) && Busy(Next(s, PushAndPush(s)))
    ensures var t := Next(s, PushAndPush(s));
            && (PushAndPush(s) != ConsumerStep ==> ToConsumer(t) < ToConsumer(s))
            && (PushAndPush(s) != ProducerStep(0) ==>
                  || ToProducer(t) < ToProducer(s)
                  || (ToProducer(t) == ToProducer(s) && ConsumerRank(t) < ConsumerRank(s)))
  {
    BusyCan(s);
    if !s.producers[0].Idle? {
      ProducerStaysBusy(s);
    } else if PushAndPush(s).ConsumerStep? {
      ConsumerStaysBusy(s);
    } else {
      CallStaysBusy(s);
    }
  }

  lemma BusyRounds()
    ensures Rounds(PushAndPush, Busy)
  {
    forall s: State {:trigger PushAndPush(s)} | Busy(s)
      ensures Enabled(s, PushAndPush(s)) && Busy(Next(s, PushAndPush(s)))
    {
      BusyStep(s);
    }
  }

  lemma TowardConsumer()
    ensures Toward(PushAndPush, Busy, ConsumerStep, ToConsumer, ConsumerRank)
  {
    forall s: State {:trigger PushAndPush(s)} | Busy(s) && PushAndPush(s) != ConsumerStep && Enabled(s, PushAndPush(s))
      ensures ToConsumer(Next(s, PushAndPush(s))) < ToConsumer(s)
    {
      BusyStep(s);
    }
  }

  lemma TowardProducer()
    ensures Toward(PushAndPush, Busy, ProducerStep(0), ToProducer, ConsumerRank)
  {
    forall s: State {:trigger PushAndPush(s)} | Busy(s) && PushAndPush(s) != ProducerStep(0) && Enabled(s, PushAndPush(s))
      ensures var t := Next(s, PushAndPush(s));
              ToProducer(t) < ToProducer(s) || (ToProducer(t) == ToProducer(s) && ConsumerRank(t) < ConsumerRank(s))
    {
      BusyStep(s);
    }
  }

  /** In the round the caller of `stop` waits, and there is no second producer. */
  lemma OthersRest(s: State, i: nat)
    requires Busy(s)
    ensures !Enabled(s, StopNotify) && !Enabled(s, StopJoin) && !s.stopper.Joined?
    ensures i > 0 ==> !Enabled(s, ProducerStep(i))
  {
  }

  lemma BusyIsFair(run: nat -> State, pick: nat -> Turn)
    requires Follows(PushAndPush, run, pick) && Busy(run(0)) && Reachable(run(0))
    ensures FairRun(run, pick) && FairStop(run, pick)
  {
    BusyRounds();
    TowardConsumer();
    FollowingGoes(PushAndPush, Busy, run, pick);
    FairToTaken(PushAndPush, Busy, run, pick, ConsumerStep, ToConsumer, ConsumerRank, ByConsumer(), ConsumerCan());
    forall i: nat
      ensures Fair(run, pick, ByProducer(i), ProducerCan(i))
    {
      FairToEach(run, pick, i);
    }
    FairToStopper(run, pick);
  }

  lemma FairToEach(run: nat -> State, pick: nat -> Turn, i: nat)
    requires Follows(PushAndPush, run, pick) && Busy(run(0))
    ensures Fair(run, pick, ByProducer(i), ProducerCan(i))
  {
    BusyRounds();
    if i == 0 {
      TowardProducer();
      FairToTaken(PushAndPush, Busy, run, pick, ProducerStep(0), ToProducer, ConsumerRank,
                  ByProducer(0), ProducerCan(0));
    } else {
      forall s: State | Busy(s)
        ensures !ProducerCan(i)(s)
      {
        OthersRest(s, i);
      }
      FairToResting(PushAndPush, Busy, run, pick, ByProducer(i), ProducerCan(i));
    }
  }

  lemma FairToStopper(run: nat -> State, pick: nat -> Turn)
    requires Follows(PushAndPush, run, pick) && Busy(run(0))
    ensures FairStop(run, pick)
  {
    BusyRounds();
    forall s: State | Busy(s)
      ensures !CanTake(StopNotify)(s) && !CanTake(StopJoin)(s)
    {
      OthersRest(s, 0);
    }
    FairToResting(PushAndPush, Busy, run, pick, BySame(StopNotify), CanTake(StopNotify));
    FairToResting(PushAndPush, Busy, run, pick, BySame(StopJoin), CanTake(StopJoin));
  }

  lemma NeverJoins(run: nat -> State, pick: nat -> Turn)
    requires Follows(PushAndPush, run, pick) && Busy(run(0))
    ensures !ReturnsFrom(run, 0)
  {
    BusyRounds();
    forall k: nat {:trigger run(k)}
      ensures !run(k).stopper.Joined?
    {
      InRound(PushAndPush, Busy, run, pick, k);
      OthersRest(run(k), 0);
    }
  }

  lemma StartsBusy(s: State) returns (t: State)
    requires Init(s) && |s.producers| == 1
    ensures t == Next(Next(s, StopStore), StopNotify) && Busy(t)
  {
    InitInv(s);
    StepKeepsInv(s, StopStore);
    StepKeepsInv(Next(s, StopStore), StopNotify);
    t := Next(Next(s, StopStore), StopNotify);
  }

  lemma TwoSteps(s: State, a: Step, b: Step)
    requires Enabled(s, a) && Enabled(Next(s, a), b)
    ensures Legal(s, [a, b]) && Exec(s, [a, b]) == Next(Next(s, a), b)
  {
    assert [a, b][1..] == [b] && [b][1..] == [];
    assert Legal(Next(s, a), [b]);
    assert Legal(s, [a, b]);
    assert Exec(Next(s, a), [b]) == Next(Next(s, a), b);
  }

  /** Without the quiet `stop` can wait forever although its notification arrived:
      on this fair run, in either mode and for any number of sinks, a single
      producer pushes one byte each time before the consumer comes to its exit
      test. */
  lemma StopStarves(s: State) returns (run: nat -> State, pick: nat -> Turn)
    requires Init(s) && |s.producers| == 1
    ensures Legal(s, [StopStore, StopNotify]) && run(0) == Exec(s, [StopStore, StopNotify])
    ensures FairRun(run, pick) && FairStop(run, pick) && WillBeUp(run(0)) && !ReturnsFrom(run, 0)
  {
    TwoSteps(s, StopStore, StopNotify);
    var t := StartsBusy(s);
    run, pick := Scripted(PushAndPush, t);
    BusyIsFair(run, pick);
    NeverJoins(run, pick);
  }
}
